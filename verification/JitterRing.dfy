/** What the jitter buffer delivers: its ring is a map from frame index to frame, as long as placements stay in reach; and
    what restarts do to this. */
module JitterRing {
  import opened Common
  import opened FrameRing
  import opened JitterModel

  /** Every unread frame lies before the write position. */
  ghost predicate CoveredBy(log: seq<Placement>, r: nat, w: nat) {
    forall q :: q in log && q.index >= r ==> q.index < w
  }

  /** Frames read so far are those of the log, one for each index. */
  ghost predicate Delivered(frames: seq<Content>, log: seq<Placement>) {
    forall k :: 0 <= k < |frames| ==> frames[k] == LastWritten(log, k)
  }

  /** Frames that are placed start in front of the reader, at most capacity frames ahead, and end before time wraps. */
  ghost predicate PlacingInReach(p: Setup, l: Located, data: seq<byte>)
    requires p.Valid()
  {
    Outcome(p, l) == Ok ==>
      && l.clock.read <= l.at.value && Distance(p, l.clock, l.at.value) <= p.capacity
      && After(l.at.value, p.frameTs, |Placed(p, l.clock, l.at.value, data)|) < 0x1_0000_0000
  }

  /** No timestamp wraps, and audio that is accepted starts at most capacity frames ahead of the reader. */
  ghost predicate Placeable(p: Setup, w: World, a: Action)
    requires p.Valid() && |w.ring| == p.capacity
  {
    match a
    case Audio(data, ts, marker) =>
      PlacingInReach(p, Locate(p, w.clock, ts, marker), data)
    case Event(ev, ts, marker) =>
      var c := Prepared(p, w.clock, ev, ts, marker);
      var l := PlaceEvent(p, c.clock, c.at, c.opens);
      !c.ignored && l.at.Some? ==> l.at.value + p.frameTs < 0x1_0000_0000
    case Fetch => w.clock.read + p.frameTs < 0x1_0000_0000
    case Restart => true
  }

  ghost predicate PlaceableRun(p: Setup, w: World, actions: seq<Action>)
    requires p.Valid() && |w.ring| == p.capacity
    decreases |actions|
  {
    actions == [] || (Placeable(p, w, actions[0]) && PlaceableRun(p, Step(p, w, actions[0]), actions[1..]))
  }

  /** And a restart leaves nothing unread. */
  ghost predicate InReach(p: Setup, w: World, a: Action)
    requires p.Valid() && |w.ring| == p.capacity
  {
    Placeable(p, w, a) && (a.Restart? ==> forall q :: q in w.log ==> q.index < Steps(w.clock.read, p.frameTs))
  }

  ghost predicate Contained(p: Setup, w: World, actions: seq<Action>)
    requires p.Valid() && |w.ring| == p.capacity
    decreases |actions|
  {
    actions == [] || (InReach(p, w, actions[0]) && Contained(p, Step(p, w, actions[0]), actions[1..]))
  }

  /** The ring shows, for every index it can tell apart, what was last written for it. */
  ghost predicate Mirrored(p: Setup, w: World)
    requires p.Valid()
  {
    var r := Steps(w.clock.read, p.frameTs);
    |w.ring| == p.capacity && Aligned(w.clock.read, p.frameTs) && Mirrors(w.ring, w.log, r) && |w.frames| == r
  }

  /** And so did every read. */
  ghost predicate Faithful(p: Setup, w: World)
    requires p.Valid()
  {
    && Mirrored(p, w)
    && CoveredBy(w.log, Steps(w.clock.read, p.frameTs), Steps(w.clock.write, p.frameTs))
    && Delivered(w.frames, w.log)
  }

  lemma LocateFrame(p: Setup, k: Clock, ts: u32, marker: bool)
    requires p.Valid()
    ensures var k' := Locate(p, k, ts, marker).clock; k'.read == k.read && k'.write == k.write
  {
  }

  lemma {:induction false} EndIsAfter(at: u32, frameTs: u32, n: nat)
    requires After(at, frameTs, n) < 0x1_0000_0000
    ensures EndOf(at, frameTs, n) == After(at, frameTs, n)
    decreases n
  {
    if n > 0 {
      EndIsAfter(at + frameTs, frameTs, n - 1);
    }
  }

  /** What was placed for index k does not depend on placements for other indices. */
  lemma {:induction false} LastWrittenFrame(log: seq<Placement>, added: seq<Placement>, k: nat)
    requires forall q :: q in added ==> q.index != k
    ensures LastWritten(log + added, k) == LastWritten(log, k)
    decreases |added|
  {
    if added == [] {
      assert log + added == log;
    } else {
      var n := |added| - 1;
      assert log + added == log + added[..n] + [added[n]];
      LastWrittenFrame(log, added[..n], k);
      LastWrittenAfter(log + added[..n], added[n], k);
    }
  }

  lemma DeliveredKept(frames: seq<Content>, log: seq<Placement>, added: seq<Placement>)
    requires Delivered(frames, log) && forall q :: q in added ==> q.index >= |frames|
    ensures Delivered(frames, log + added)
  {
    forall k | 0 <= k < |frames|
      ensures frames[k] == LastWritten(log + added, k)
    {
      LastWrittenFrame(log, added, k);
    }
  }

  lemma CoveredKept(log: seq<Placement>, added: seq<Placement>, r: nat, w: nat, w': nat)
    requires CoveredBy(log, r, w) && w <= w' && forall q :: q in added ==> q.index < w'
    ensures CoveredBy(log + added, r, w')
  {
  }

  lemma AudioKeeps(p: Setup, w: World, data: seq<byte>, ts: u32, marker: bool)
    requires p.Valid() && Faithful(p, w) && InReach(p, w, Audio(data, ts, marker))
    ensures Faithful(p, WriteAudio(p, w, data, ts, marker))
  {
    LocateFrame(p, w.clock, ts, marker);
    PlacingKeeps(p, w, Locate(p, w.clock, ts, marker), data);
  }

  lemma PlacingKeeps(p: Setup, w: World, l: Located, data: seq<byte>)
    requires p.Valid() && Faithful(p, w) && PlacingInReach(p, l, data)
    requires l.clock.read == w.clock.read && l.clock.write == w.clock.write
    ensures Faithful(p, Placing(p, w, l, data))
  {
    if Outcome(p, l) == Ok {
      var placed := Placed(p, l.clock, l.at.value, data);
      AdmittedFits(p.capacity, Distance(p, l.clock, l.at.value), Chunks(data, p.frameSize));
      PlacementKeeps(p, w, l.at.value, placed, Placing(p, w, l, data).clock.write);
    }
  }

  /** Frames placed in reach keep the ring a mirror of the log. */
  lemma PlacementMirrors(p: Setup, w: World, at: u32, placed: seq<seq<byte>>)
    requires p.Valid() && Mirrored(p, w) && w.clock.read <= at
    requires Steps(at - w.clock.read, p.frameTs) + |placed| <= p.capacity
    requires After(at, p.frameTs, |placed|) < 0x1_0000_0000
    ensures var r, first := Steps(w.clock.read, p.frameTs), Steps(at, p.frameTs);
            r <= first && Mirrors(PutAudio(w.ring, p.frameTs, at, placed), w.log + AudioLog(first, placed), r)
  {
    StepsFromAligned(at, w.clock.read, p.frameTs);
    PutAudioMirrors(w.ring, w.log, Steps(w.clock.read, p.frameTs), p.frameTs, at, placed);
  }

  /** Frames placed in reach keep ring, log, coverage and what was read in step. */
  lemma PlacementKeeps(p: Setup, w: World, at: u32, placed: seq<seq<byte>>, write: u32)
    requires p.Valid() && Faithful(p, w) && w.clock.read <= at
    requires Steps(at - w.clock.read, p.frameTs) + |placed| <= p.capacity
    requires After(at, p.frameTs, |placed|) < 0x1_0000_0000
    requires write == Later(w.clock.write, EndOf(at, p.frameTs, |placed|))
    ensures var r := Steps(w.clock.read, p.frameTs);
            var log := w.log + AudioLog(Steps(at, p.frameTs), placed);
            && Mirrors(PutAudio(w.ring, p.frameTs, at, placed), log, r)
            && CoveredBy(log, r, Steps(write, p.frameTs)) && Delivered(w.frames, log)
  {
    var r, first := Steps(w.clock.read, p.frameTs), Steps(at, p.frameTs);
    PlacementMirrors(p, w, at, placed);
    DeliveredKept(w.frames, w.log, AudioLog(first, placed));
    EndIsAfter(at, p.frameTs, |placed|);
    StepsAfter(at, p.frameTs, |placed|);
    StepsMonotone(w.clock.write, write, p.frameTs);
    StepsMonotone(After(at, p.frameTs, |placed|), write, p.frameTs);
    CoveredKept(w.log, AudioLog(first, placed), r, Steps(w.clock.write, p.frameTs), Steps(write, p.frameTs));
  }

  /** An event changes neither the read nor the write position before it is stored, and is stored in the window. */
  lemma EventFrame(p: Setup, k: Clock, ev: NamedEvent, ts: u32, marker: bool)
    requires p.Valid()
    ensures var c := Prepared(p, k, ev, ts, marker);
            var l := PlaceEvent(p, c.clock, c.at, c.opens);
            && c.clock.read == l.clock.read == k.read && c.clock.write == l.clock.write == k.write
            && (l.at.Some? ==> k.read <= l.at.value && Steps(l.at.value - k.read, p.frameTs) < p.capacity)
  {
  }

  lemma EventKeeps(p: Setup, w: World, ev: NamedEvent, ts: u32, marker: bool)
    requires p.Valid() && Faithful(p, w) && InReach(p, w, Event(ev, ts, marker))
    ensures Faithful(p, WriteEvent(p, w, ev, ts, marker))
  {
    EventFrame(p, w.clock, ev, ts, marker);
    var c := Prepared(p, w.clock, ev, ts, marker);
    var l := PlaceEvent(p, c.clock, c.at, c.opens);
    if !c.ignored && l.at.Some? {
      EventPlacementKeeps(p, w, ev, MarkOf(ev, c.opens), l.at.value, WriteEvent(p, w, ev, ts, marker).clock.write);
    }
  }

  lemma EventMirrors(p: Setup, w: World, ev: NamedEvent, mark: Option<Marker>, at: u32)
    requires p.Valid() && Mirrored(p, w) && w.clock.read <= at && Steps(at - w.clock.read, p.frameTs) < p.capacity
    ensures var r, i := Steps(w.clock.read, p.frameTs), SlotOf(at, p.frameTs, p.capacity);
            && r <= Steps(at, p.frameTs)
            && Mirrors(w.ring[i := EventSlot(w.ring[i], ev, mark)], w.log + [EventAt(Steps(at, p.frameTs), ev, mark)], r)
  {
    var r, q := Steps(w.clock.read, p.frameTs), EventAt(Steps(at, p.frameTs), ev, mark);
    StepsFromAligned(at, w.clock.read, p.frameTs);
    PutMirrors(w.ring, w.log, r, q, EventSlot(w.ring[SlotOf(at, p.frameTs, p.capacity)], ev, mark));
  }

  lemma EventPlacementKeeps(p: Setup, w: World, ev: NamedEvent, mark: Option<Marker>, at: u32, write: u32)
    requires p.Valid() && Faithful(p, w) && w.clock.read <= at
    requires Steps(at - w.clock.read, p.frameTs) < p.capacity && at + p.frameTs < 0x1_0000_0000
    requires write == Later(w.clock.write, U32(at + p.frameTs))
    ensures var r, i := Steps(w.clock.read, p.frameTs), SlotOf(at, p.frameTs, p.capacity);
            var log := w.log + [EventAt(Steps(at, p.frameTs), ev, mark)];
            && Mirrors(w.ring[i := EventSlot(w.ring[i], ev, mark)], log, r)
            && CoveredBy(log, r, Steps(write, p.frameTs)) && Delivered(w.frames, log)
  {
    var r, q := Steps(w.clock.read, p.frameTs), EventAt(Steps(at, p.frameTs), ev, mark);
    EventMirrors(p, w, ev, mark, at);
    DeliveredKept(w.frames, w.log, [q]);
    StepsMonotone(w.clock.write, write, p.frameTs);
    StepsMonotone(at + p.frameTs, write, p.frameTs);
    CoveredKept(w.log, [q], r, Steps(w.clock.write, p.frameTs), Steps(write, p.frameTs));
  }

  /** With an empty buffer nothing is pending for the read index. */
  lemma EmptyMeansSilence(log: seq<Placement>, read: nat, write: nat, frameTs: nat)
    requires frameTs > 0 && CoveredBy(log, Steps(read, frameTs), Steps(write, frameTs)) && write <= read
    ensures LastWritten(log, Steps(read, frameTs)) == Silence
  {
    StepsMonotone(write, read, frameTs);
    UnwrittenIsSilent(log, Steps(read, frameTs));
  }

  lemma FetchKeeps(p: Setup, w: World)
    requires p.Valid() && Faithful(p, w) && InReach(p, w, Fetch)
    ensures Faithful(p, ReadFrame(p, w))
  {
    var k := w.clock;
    var r, i := Steps(k.read, p.frameTs), SlotOf(k.read, p.frameTs, p.capacity);
    TakeMirrors(w.ring, w.log, r, w.ring[i].(audio := false, event := false, marker := NoMarker));
    if k.write <= k.read {
      EmptyMeansSilence(w.log, k.read, k.write, p.frameTs);
    }
    assert Steps(k.read + p.frameTs, p.frameTs) == r + 1;
  }

  lemma FetchDelivers(p: Setup, w: World)
    requires p.Valid() && Faithful(p, w) && InReach(p, w, Fetch)
    ensures Faithful(p, ReadFrame(p, w))
    ensures ReadFrame(p, w).frames == w.frames + [LastWritten(w.log, |w.frames|)]
  {
    FetchKeeps(p, w);
    var frames, n := ReadFrame(p, w).frames, |w.frames|;
    assert frames[n] == LastWritten(w.log, n);
  }

  lemma StepKeeps(p: Setup, w: World, a: Action)
    requires p.Valid() && Faithful(p, w) && InReach(p, w, a)
    ensures Faithful(p, Step(p, w, a))
  {
    match a
    case Audio(data, ts, marker) => AudioKeeps(p, w, data, ts, marker);
    case Event(ev, ts, marker) => EventKeeps(p, w, ev, ts, marker);
    case Fetch => FetchKeeps(p, w);
    case Restart =>
  }

  lemma {:induction false} RunKeeps(p: Setup, w: World, actions: seq<Action>)
    requires p.Valid() && Faithful(p, w) && Contained(p, w, actions)
    ensures Faithful(p, Run(p, w, actions))
    decreases |actions|
  {
    if actions != [] {
      StepKeeps(p, w, actions[0]);
      RunKeeps(p, Step(p, w, actions[0]), actions[1..]);
    }
  }

  lemma StartFaithful(p: Setup)
    requires p.Valid()
    ensures Faithful(p, Start(p))
  {
  }

  /** For every run of packets, events, reads and restarts from a new buffer that stays in reach, the k-th frame read is
      exactly what the whole run has last written for index k. */
  lemma RunDelivers(p: Setup, actions: seq<Action>)
    requires p.Valid() && Contained(p, Start(p), actions)
    ensures var w := Run(p, Start(p), actions);
            |w.frames| == Fetches(actions) && forall k :: 0 <= k < |w.frames| ==> w.frames[k] == LastWritten(w.log, k)
  {
    StartFaithful(p);
    RunKeeps(p, Start(p), actions);
    RunFetches(p, Start(p), actions);
  }

  function Fetches(actions: seq<Action>): nat {
    if actions == [] then 0 else (if actions[0].Fetch? then 1 else 0) + Fetches(actions[1..])
  }

  lemma {:induction false} RunFetches(p: Setup, w: World, actions: seq<Action>)
    requires p.Valid() && |w.ring| == p.capacity
    ensures |Run(p, w, actions).frames| == |w.frames| + Fetches(actions)
    decreases |actions|
  {
    if actions != [] {
      RunFetches(p, Step(p, w, actions[0]), actions[1..]);
    }
  }

  // ----- restarts -----

  /** What a read shows: with the write position ahead, the frame; otherwise silence. */
  function Seen(ahead: bool, c: Content): Content {
    if ahead then c else Silence
  }

  /** Whether the write position was ahead of the reader, for every read of a run. */
  function Leads(p: Setup, w: World, actions: seq<Action>): seq<bool>
    requires p.Valid() && |w.ring| == p.capacity
    decreases |actions|
  {
    if actions == [] then []
    else (if actions[0].Fetch? then [w.clock.write > w.clock.read] else []) + Leads(p, Step(p, w, actions[0]), actions[1..])
  }

  ghost predicate Told(frames: seq<Content>, log: seq<Placement>, ahead: seq<bool>) {
    |frames| == |ahead| && forall k :: 0 <= k < |frames| ==> frames[k] == Seen(ahead[k], LastWritten(log, k))
  }

  /** A step adds placements in front of the reader only, and a read shows what was last written for its index. */
  ghost predicate Adds(p: Setup, w: World, a: Action, w': World)
    requires p.Valid()
  {
    var r := Steps(w.clock.read, p.frameTs);
    && w.log <= w'.log && (forall q :: q in w'.log[|w.log|..] ==> q.index >= r) && (a.Fetch? ==> w'.log == w.log)
    && w'.frames == w.frames + if a.Fetch? then [Seen(w.clock.write > w.clock.read, LastWritten(w.log, r))] else []
  }

  lemma AudioMirrored(p: Setup, w: World, data: seq<byte>, ts: u32, marker: bool)
    requires p.Valid() && Mirrored(p, w) && Placeable(p, w, Audio(data, ts, marker))
    ensures var w' := WriteAudio(p, w, data, ts, marker); Mirrored(p, w') && Adds(p, w, Audio(data, ts, marker), w')
  {
    LocateFrame(p, w.clock, ts, marker);
    PlacingMirrored(p, w, Locate(p, w.clock, ts, marker), data);
  }

  lemma PlacingMirrored(p: Setup, w: World, l: Located, data: seq<byte>)
    requires p.Valid() && Mirrored(p, w) && PlacingInReach(p, l, data) && l.clock.read == w.clock.read
    ensures var w' := Placing(p, w, l, data); Mirrored(p, w') && Adds(p, w, Restart, w')
  {
    if Outcome(p, l) == Ok {
      var placed := Placed(p, l.clock, l.at.value, data);
      AdmittedFits(p.capacity, Distance(p, l.clock, l.at.value), Chunks(data, p.frameSize));
      PlacementMirrors(p, w, l.at.value, placed);
    }
  }

  lemma EventMirrored(p: Setup, w: World, ev: NamedEvent, ts: u32, marker: bool)
    requires p.Valid() && Mirrored(p, w) && Placeable(p, w, Event(ev, ts, marker))
    ensures var w' := WriteEvent(p, w, ev, ts, marker); Mirrored(p, w') && Adds(p, w, Event(ev, ts, marker), w')
  {
    EventFrame(p, w.clock, ev, ts, marker);
    var c := Prepared(p, w.clock, ev, ts, marker);
    var l := PlaceEvent(p, c.clock, c.at, c.opens);
    if !c.ignored && l.at.Some? {
      EventMirrors(p, w, ev, MarkOf(ev, c.opens), l.at.value);
    }
  }

  lemma FetchMirrored(p: Setup, w: World)
    requires p.Valid() && Mirrored(p, w) && Placeable(p, w, Fetch)
    ensures Mirrored(p, ReadFrame(p, w)) && Adds(p, w, Fetch, ReadFrame(p, w))
  {
    var k := w.clock;
    var r, i := Steps(k.read, p.frameTs), SlotOf(k.read, p.frameTs, p.capacity);
    TakeMirrors(w.ring, w.log, r, w.ring[i].(audio := false, event := false, marker := NoMarker));
    assert Steps(k.read + p.frameTs, p.frameTs) == r + 1;
  }

  lemma StepMirrored(p: Setup, w: World, a: Action)
    requires p.Valid() && Mirrored(p, w) && Placeable(p, w, a)
    ensures Mirrored(p, Step(p, w, a)) && Adds(p, w, a, Step(p, w, a))
  {
    match a
    case Audio(data, ts, marker) => AudioMirrored(p, w, data, ts, marker);
    case Event(ev, ts, marker) => EventMirrored(p, w, ev, ts, marker);
    case Fetch => FetchMirrored(p, w);
    case Restart =>
  }

  /** Later placements do not change what was read. */
  lemma ToldKept(frames: seq<Content>, log: seq<Placement>, added: seq<Placement>, ahead: seq<bool>)
    requires Told(frames, log, ahead) && forall q :: q in added ==> q.index >= |frames|
    ensures Told(frames, log + added, ahead)
  {
    forall k | 0 <= k < |frames|
      ensures frames[k] == Seen(ahead[k], LastWritten(log + added, k))
    {
      LastWrittenFrame(log, added, k);
    }
  }

  lemma StepTells(p: Setup, w: World, a: Action, w': World, ahead: seq<bool>)
    requires p.Valid() && Mirrored(p, w) && Told(w.frames, w.log, ahead) && Adds(p, w, a, w')
    ensures Told(w'.frames, w'.log, ahead + if a.Fetch? then [w.clock.write > w.clock.read] else [])
  {
    var added := w'.log[|w.log|..];
    assert w'.log == w.log + added;
    ToldKept(w.frames, w.log, added, ahead);
  }

  lemma {:induction false} RunTells(p: Setup, w: World, actions: seq<Action>, ahead: seq<bool>)
    requires p.Valid() && Mirrored(p, w) && PlaceableRun(p, w, actions) && Told(w.frames, w.log, ahead)
    ensures var w' := Run(p, w, actions);
            Mirrored(p, w') && w.log <= w'.log && Told(w'.frames, w'.log, ahead + Leads(p, w, actions))
    decreases |actions|
  {
    if actions == [] {
      assert ahead + [] == ahead;
    } else {
      var a, w1 := actions[0], Step(p, w, actions[0]);
      var first := if a.Fetch? then [w.clock.write > w.clock.read] else [];
      StepMirrored(p, w, a);
      StepTells(p, w, a, w1, ahead);
      RunTells(p, w1, actions[1..], ahead + first);
      ConcatAssoc(ahead, first, Leads(p, w1, actions[1..]));
    }
  }

  /** For every run in reach, whatever restarts it contains: the k-th frame read is what the whole run has last written
      for index k if the write position was ahead at that read, and silence otherwise. */
  lemma RunShows(p: Setup, actions: seq<Action>)
    requires p.Valid() && PlaceableRun(p, Start(p), actions)
    ensures var w, ahead := Run(p, Start(p), actions), Leads(p, Start(p), actions);
            && |w.frames| == |ahead| == Fetches(actions)
            && (forall k :: 0 <= k < |w.frames| ==> w.frames[k] == Seen(ahead[k], LastWritten(w.log, k)))
            && (forall k :: 0 <= k < |w.frames| ==>
                  (w.frames[k] == LastWritten(w.log, k) <==> ahead[k] || LastWritten(w.log, k) == Silence))
  {
    StartFaithful(p);
    RunTells(p, Start(p), actions, []);
    RunFetches(p, Start(p), actions);
    assert [] + Leads(p, Start(p), actions) == Leads(p, Start(p), actions);
  }

  lemma {:induction false} RunConcat(p: Setup, w: World, a: seq<Action>, b: seq<Action>)
    requires p.Valid() && |w.ring| == p.capacity
    ensures Run(p, w, a + b) == Run(p, Run(p, w, a), b)
    decreases |a|
  {
    if a == [] {
      assert a + b == b;
    } else {
      assert (a + b)[0] == a[0] && (a + b)[1..] == a[1..] + b;
      RunConcat(p, Step(p, w, a[0]), a[1..], b);
    }
  }

  lemma RunFirst(p: Setup, w: World, a: Action, rest: seq<Action>)
    requires p.Valid() && |w.ring| == p.capacity
    ensures Run(p, w, [a] + rest) == Run(p, Step(p, w, a), rest)
  {
    assert ([a] + rest)[1..] == rest;
  }

  /** n reads. */
  function Reads(n: nat): (r: seq<Action>)
    ensures |r| == n && forall i :: 0 <= i < n ==> r[i] == Fetch
  {
    seq(n, _ => Fetch)
  }

  function Silences(n: nat): (r: seq<Content>)
    ensures |r| == n && forall i :: 0 <= i < n ==> r[i] == Silence
  {
    seq(n, _ => Silence)
  }

  /** With the write position not ahead, reads show silence, and leave it not ahead. */
  lemma {:induction false} EmptyReads(p: Setup, w: World, n: nat)
    requires p.Valid() && |w.ring| == p.capacity && w.clock.write <= w.clock.read
    requires After(w.clock.read, p.frameTs, n) < 0x1_0000_0000
    ensures var w' := Run(p, w, Reads(n)); w'.frames == w.frames + Silences(n) && w'.log == w.log
    decreases n
  {
    if n == 0 {
      assert Reads(0) == [] && w.frames + Silences(0) == w.frames;
    } else {
      var w1 := ReadFrame(p, w);
      EmptyRead(p, w);
      assert Reads(n) == [Fetch] + Reads(n - 1);
      RunFirst(p, w, Fetch, Reads(n - 1));
      EmptyReads(p, w1, n - 1);
      assert [Silence] + Silences(n - 1) == Silences(n);
      ConcatAssoc(w.frames, [Silence], Silences(n - 1));
    }
  }

  lemma EmptyRead(p: Setup, w: World)
    requires p.Valid() && |w.ring| == p.capacity && w.clock.write <= w.clock.read
    requires w.clock.read + p.frameTs < 0x1_0000_0000
    ensures var w' := ReadFrame(p, w);
            && w'.frames == w.frames + [Silence] && w'.log == w.log
            && w'.clock.read == w.clock.read + p.frameTs && w'.clock.write == w.clock.write
  {
  }

  /** A restart loses the frames that are unread: the n reads after it show silence, so they show what was last written
      for their indices exactly if nothing was. */
  lemma RestartLosesExactly(p: Setup, actions: seq<Action>, n: nat)
    requires p.Valid() && After(Run(p, Start(p), actions).clock.read, p.frameTs, n) < 0x1_0000_0000
    ensures var w, w' := Run(p, Start(p), actions), Run(p, Start(p), actions + [Restart] + Reads(n));
            var r := |w.frames|;
            && w'.frames == w.frames + Silences(n) && w'.log == w.log
            && ((forall k :: r <= k < r + n ==> w'.frames[k] == LastWritten(w'.log, k)) <==>
                (forall k :: r <= k < r + n ==> LastWritten(w.log, k) == Silence))
  {
    var w := Run(p, Start(p), actions);
    ConcatAssoc(actions, [Restart], Reads(n));
    RunConcat(p, Start(p), actions, [Restart] + Reads(n));
    RunFirst(p, w, Restart, Reads(n));
    EmptyReads(p, Step(p, w, Restart), n);
    var frames := w.frames + Silences(n);
    assert forall k :: |w.frames| <= k < |w.frames| + n ==> frames[k] == Silence;
  }

  predicate NoReads(actions: seq<Action>) {
    forall i :: 0 <= i < |actions| ==> !actions[i].Fetch?
  }

  lemma {:induction false} NoFetches(actions: seq<Action>)
    requires NoReads(actions)
    ensures Fetches(actions) == 0
    decreases |actions|
  {
    if actions != [] {
      NoFetches(actions[1..]);
    }
  }

  lemma {:induction false} PlaceableConcat(p: Setup, w: World, a: seq<Action>, b: seq<Action>)
    requires p.Valid() && |w.ring| == p.capacity
    ensures PlaceableRun(p, w, a + b) <==> PlaceableRun(p, w, a) && PlaceableRun(p, Run(p, w, a), b)
    decreases |a|
  {
    if a == [] {
      assert a + b == b;
    } else {
      assert (a + b)[0] == a[0] && (a + b)[1..] == a[1..] + b;
      PlaceableConcat(p, Step(p, w, a[0]), a[1..], b);
    }
  }

  /** The later log holds no new placement for index k. */
  predicate Untouched(log: seq<Placement>, later: seq<Placement>, k: nat) {
    |log| <= |later| && forall q :: q in later[|log|..] ==> q.index != k
  }

  /** A restart does not clear the slots: if a packet brings the write position ahead again before the next read, and
      nothing new was placed for the read index, the read shows the old frame. */
  lemma RestartReadsBack(p: Setup, actions: seq<Action>, more: seq<Action>)
    requires p.Valid() && NoReads(more) && PlaceableRun(p, Start(p), actions + ([Restart] + more + [Fetch]))
    requires var w, v := Run(p, Start(p), actions), Run(p, Start(p), actions + ([Restart] + more));
             v.clock.write > v.clock.read && Untouched(w.log, v.log, |w.frames|)
    ensures var w := Run(p, Start(p), actions);
            Run(p, Start(p), actions + ([Restart] + more + [Fetch])).frames == w.frames + [LastWritten(w.log, |w.frames|)]
  {
    var w, rest := Run(p, Start(p), actions), [Restart] + more;
    PlaceableConcat(p, Start(p), actions, rest + [Fetch]);
    PlaceableConcat(p, w, rest, [Fetch]);
    RunConcat(p, Start(p), actions, rest);
    RunConcat(p, Start(p), actions, rest + [Fetch]);
    RunConcat(p, w, rest, [Fetch]);
    StartFaithful(p);
    RunTells(p, Start(p), actions, []);
    ReadBackFrom(p, w, rest, [] + Leads(p, Start(p), actions));
  }

  lemma ReadBackFrom(p: Setup, w: World, rest: seq<Action>, ahead: seq<bool>)
    requires p.Valid() && Mirrored(p, w) && Told(w.frames, w.log, ahead) && NoReads(rest)
    requires PlaceableRun(p, w, rest) && PlaceableRun(p, Run(p, w, rest), [Fetch])
    requires var v := Run(p, w, rest); v.clock.write > v.clock.read && Untouched(w.log, v.log, |w.frames|)
    ensures Run(p, Run(p, w, rest), [Fetch]).frames == w.frames + [LastWritten(w.log, |w.frames|)]
  {
    var v := Run(p, w, rest);
    RunTells(p, w, rest, ahead);
    SameFrames(p, w, rest);
    assert v.log == w.log + v.log[|w.log|..];
    LastWrittenFrame(w.log, v.log[|w.log|..], |w.frames|);
    ReadsAhead(p, v);
  }

  lemma ReadsAhead(p: Setup, w: World)
    requires p.Valid() && Mirrored(p, w) && PlaceableRun(p, w, [Fetch]) && w.clock.write > w.clock.read
    ensures Run(p, w, [Fetch]).frames == w.frames + [LastWritten(w.log, |w.frames|)]
  {
    FetchMirrored(p, w);
    RunFirst(p, w, Fetch, []);
    assert [Fetch] + [] == [Fetch];
  }

  lemma SameFrames(p: Setup, w: World, actions: seq<Action>)
    requires p.Valid() && |w.ring| == p.capacity && NoReads(actions)
    ensures Run(p, w, actions).frames == w.frames
  {
    RunFetches(p, w, actions);
    NoFetches(actions);
    FramesGrow(p, w, actions);
  }

  /** Frames read are never taken back. */
  lemma {:induction false} FramesGrow(p: Setup, w: World, actions: seq<Action>)
    requires p.Valid() && |w.ring| == p.capacity
    ensures w.frames <= Run(p, w, actions).frames
    decreases |actions|
  {
    if actions != [] {
      FramesGrow(p, Step(p, w, actions[0]), actions[1..]);
    }
  }

  /** Four frames of one unit, a delay of two, neither adaptive nor with skew detection. */
  const Small := Setup(1, 1, 4, 2, 4, false, false)

  /** The first packet of a new small buffer is placed at index 2. */
  lemma FirstPlaced()
    ensures var w := Step(Small, Start(Small), Audio([7], 500, false));
            && w.log == [AudioAt(2, [7])] && w.frames == [] && w.clock.read == 0 && w.clock.write == 3
            && w.clock.delay == 2 && |w.ring| == 4 && w.ring[2].audio && w.ring[2].data == [7]
            && !w.ring[2].event && w.ring[2].marker == NoMarker
  {
    var k := Synced(Small, NewClock(Small), 500);
    assert Raw(k, 500) == 2;
    StepsIsDivision(2, 1);
    StepsIsDivision(2, 4);
    OneFrame(7);
    var l := Locate(Small, NewClock(Small), 500, false);
    assert l.at == Some(2);
    assert Placed(Small, l.clock, 2, [7]) == [[7]];
    OnePlaced(EmptyRing(4), 2, [7]);
  }

  const Seven := Content(Some([7]), None, NoMarker)

  lemma SevenWritten(log: seq<Placement>)
    requires log == [AudioAt(2, [7])]
    ensures LastWritten(log, 2) == Seven
  {
    LastWrittenAfter([], AudioAt(2, [7]), 2);
    assert [] + log == log;
  }

  /** The world after the first packet. */
  ghost predicate Begun(w: World) {
    && w.log == [AudioAt(2, [7])] && w.frames == [] && w.clock.read == 0 && w.clock.write == 3
    && w.clock.delay == 2 && |w.ring| == 4 && View(w.ring[2]) == Seven
  }

  lemma FirstBegun(a: Action)
    requires a == Audio([7], 500, false)
    ensures Begun(Run(Small, Start(Small), [a])) && Begun(Step(Small, Start(Small), a))
  {
    FirstPlaced();
    RunFirst(Small, Start(Small), a, []);
    assert [a] + [] == [a];
  }

  /** A packet that is not read before a restart is lost. */
  lemma UnreadFrameIsLost(a: Action)
    requires a == Audio([7], 500, false)
    ensures var w := Run(Small, Start(Small), [a] + [Restart] + Reads(3));
            w.frames == Silences(3) && LastWritten(w.log, 2) == Seven
  {
    FirstBegun(a);
    assert After(0, 1, 3) == 3;
    RestartLosesExactly(Small, [a], 3);
    SevenWritten([AudioAt(2, [7])]);
    assert [] + Silences(3) == Silences(3);
  }

  /** Two reads after the first packet leave its frame next. */
  lemma TwoReads(w: World)
    requires Begun(w)
    ensures var v := Step(Small, Step(Small, w, Fetch), Fetch);
            && v.clock.read == 2 && v.clock.delay == 2 && |v.frames| == 2 && |v.ring| == 4 && View(v.ring[2]) == Seven
  {
    StepsIsDivision(0, 1);
    StepsIsDivision(1, 1);
  }

  /** A packet placed at index 4 leaves the slot of index 2. */
  lemma NextPlaced(w: World)
    requires w.clock.read == 2 && w.clock.delay == 2 && |w.ring| == 4
    ensures var v := Step(Small, Step(Small, w, Restart), Audio([8], 500, false));
            v.clock.read == 2 && v.clock.write == 5 && v.frames == w.frames && |v.ring| == 4 && v.ring[2] == w.ring[2]
  {
    var u := Step(Small, w, Restart);
    var k := Synced(Small, u.clock, 500);
    assert Raw(k, 500) == 4;
    StepsIsDivision(4, 1);
    StepsIsDivision(2, 1);
    StepsIsDivision(4, 4);
    OneFrame(8);
    var l := Locate(Small, u.clock, 500, false);
    assert l.at == Some(4);
    assert Placed(Small, l.clock, 4, [8]) == [[8]];
    OnePlaced(u.ring, 4, [8]);
  }

  lemma ThenRead(w: World)
    requires w.clock.read == 2 && w.clock.delay == 2 && |w.frames| == 2 && |w.ring| == 4 && View(w.ring[2]) == Seven
    ensures var v := Step(Small, Step(Small, Step(Small, w, Restart), Audio([8], 500, false)), Fetch);
            |v.frames| == 3 && v.frames[2] == Seven
  {
    NextPlaced(w);
    ReadSeven(Step(Small, Step(Small, w, Restart), Audio([8], 500, false)));
  }

  lemma ReadSeven(v: World)
    requires v.clock.read == 2 && v.clock.write == 5 && |v.ring| == 4 && View(v.ring[2]) == Seven
    ensures Step(Small, v, Fetch).frames == v.frames + [Seven]
  {
    StepsIsDivision(2, 1);
    StepsIsDivision(2, 4);
  }

  /** With a packet after the restart, the frame of the packet before it is read. */
  lemma OldFrameIsReadBack(a: Action, b: Action)
    requires a == Audio([7], 500, false) && b == Audio([8], 500, false)
    ensures var w := Run(Small, Start(Small), [a, Fetch, Fetch, Restart, b, Fetch]);
            |w.frames| == 3 && w.frames[2] == Seven
  {
    var w := Step(Small, Start(Small), a);
    FirstBegun(a);
    TwoReads(w);
    ThenRead(Step(Small, Step(Small, w, Fetch), Fetch));
    SixSteps(Small, Start(Small), a, Fetch, Fetch, Restart, b, Fetch);
  }

  lemma SixSteps(p: Setup, w: World, a: Action, b: Action, c: Action, d: Action, e: Action, f: Action)
    requires p.Valid() && |w.ring| == p.capacity
    ensures Run(p, w, [a, b, c, d, e, f]) == Step(p, Step(p, Step(p, Step(p, Step(p, Step(p, w, a), b), c), d), e), f)
  {
    assert [a, b, c, d, e, f] == [a] + ([b] + ([c] + ([d] + ([e] + ([f] + [])))));
    var w1 := Step(p, w, a);
    var w2 := Step(p, w1, b);
    var w3 := Step(p, w2, c);
    var w4 := Step(p, w3, d);
    var w5 := Step(p, w4, e);
    RunFirst(p, w, a, [b] + ([c] + ([d] + ([e] + ([f] + [])))));
    RunFirst(p, w1, b, [c] + ([d] + ([e] + ([f] + []))));
    RunFirst(p, w2, c, [d] + ([e] + ([f] + [])));
    RunFirst(p, w3, d, [e] + ([f] + []));
    RunFirst(p, w4, e, [f] + []);
    RunFirst(p, w5, f, []);
  }

  lemma OneFrame(b: byte)
    ensures Chunks([b], 1) == [[b]]
  {
    assert [b][..1] == [b] && [b][1..] == [];
    assert Chunks([], 1) == [];
  }

  lemma OnePlaced(ring: seq<Slot>, at: u32, chunk: seq<byte>)
    requires |ring| == 4
    ensures var i := SlotOf(at, 1, 4); PutAudio(ring, 1, at, [chunk]) == ring[i := ring[i].(audio := true, data := chunk)]
    ensures AudioLog(Steps(at, 1), [chunk]) == [AudioAt(Steps(at, 1), chunk)]
    ensures EndOf(at, 1, 1) == U32(at + 1)
  {
    assert [chunk][1..] == [];
    assert AudioLog(Steps(at, 1) + 1, []) == [];
  }
}
