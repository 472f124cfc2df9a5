/** Named events in the jitter buffer: with which event and which marker they are read, and where the updates of an event
    go. */
module JitterEvents {
  import opened Common
  import opened FrameRing
  import opened JitterModel
  import opened JitterRing

  // ----- what an accepted event is read as -----

  /** The last event packet since the last restart. */
  function LastEvent(actions: seq<Action>): Option<NamedEvent> {
    if actions == [] then None
    else
      match actions[|actions| - 1]
      case Event(ev, _, _) => Some(ev)
      case Restart => None
      case _ => LastEvent(actions[..|actions| - 1])
  }

  /** A packet starts an event if it has the RTP marker or is of another event than the packet before it. */
  predicate Starts(last: Option<NamedEvent>, ev: NamedEvent, marker: bool) {
    marker || last.None? || last.value.id != ev.id
  }

  ghost predicate Recalls(k: Clock, last: Option<NamedEvent>) {
    (k.update.Some? <==> last.Some?) && (last.Some? ==> k.base.id == last.value.id)
  }

  lemma EventRecalls(p: Setup, w: World, ev: NamedEvent, ts: u32, marker: bool)
    requires p.Valid() && |w.ring| == p.capacity
    ensures Recalls(WriteEvent(p, w, ev, ts, marker).clock, Some(ev))
  {
  }

  lemma LocateRecalls(p: Setup, k: Clock, ts: u32, marker: bool)
    requires p.Valid()
    ensures var k' := Locate(p, k, ts, marker).clock; k'.base == k.base && k'.update == k.update
  {
  }

  lemma PlacingRecalls(p: Setup, w: World, l: Located, data: seq<byte>)
    requires p.Valid() && |w.ring| == p.capacity
    ensures var k' := Placing(p, w, l, data).clock; k'.base == l.clock.base && k'.update == l.clock.update
  {
  }

  lemma StepRecalls(p: Setup, w: World, a: Action, last: Option<NamedEvent>)
    requires p.Valid() && |w.ring| == p.capacity && Recalls(w.clock, last)
    ensures Recalls(Step(p, w, a).clock, if a.Event? then Some(a.ev) else if a.Restart? then None else last)
  {
    match a
    case Audio(data, ts, marker) =>
      LocateRecalls(p, w.clock, ts, marker);
      PlacingRecalls(p, w, Locate(p, w.clock, ts, marker), data);
    case Event(ev, ts, marker) =>
      EventRecalls(p, w, ev, ts, marker);
    case Fetch =>
    case Restart =>
  }

  lemma {:induction false} RunRecalls(p: Setup, actions: seq<Action>)
    requires p.Valid()
    ensures Recalls(Run(p, Start(p), actions).clock, LastEvent(actions))
    decreases |actions|
  {
    if actions != [] {
      var before, a := actions[..|actions| - 1], actions[|actions| - 1];
      assert actions == before + [a];
      RunRecalls(p, before);
      RunConcat(p, Start(p), before, [a]);
      RunLast(p, Run(p, Start(p), before), a);
      StepRecalls(p, Run(p, Start(p), before), a, LastEvent(before));
    }
  }

  lemma RunLast(p: Setup, w: World, a: Action)
    requires p.Valid() && |w.ring| == p.capacity
    ensures Run(p, w, [a]) == Step(p, w, a)
  {
    assert [a][1..] == [];
  }

  /** The marker an accepted event gives its frame, if it gives one: a start has the start marker, and so has a packet
      that is too far from the event before to be an update; the end bit gives the end marker. */
  function MarkerFor(starts: bool, ev: NamedEvent, before: Marker): Marker {
    if starts then StartOfEvent else if ev.edge then EndOfEvent else before
  }

  /** The packet has another position than the start of the current event. */
  predicate Elsewhere(p: Setup, k: Clock, ts: u32)
    requires p.Valid()
  {
    Position(p, Synced(p, k, ts), ts) != k.baseTs
  }

  /** What an accepted event writes. */
  lemma EventWrites(p: Setup, w: World, ev: NamedEvent, ts: u32, marker: bool, last: Option<NamedEvent>, q: Placement)
    requires p.Valid() && |w.ring| == p.capacity && Recalls(w.clock, last)
    requires WriteEvent(p, w, ev, ts, marker).log == w.log + [q]
    ensures forall c :: Apply(c, q) ==
                        Content(c.audio, Some(ev), MarkerFor(Starts(last, ev, marker) || Elsewhere(p, w.clock, ts), ev, c.marker))
  {
    var c := Prepared(p, w.clock, ev, ts, marker);
    var l := PlaceEvent(p, c.clock, c.at, c.opens);
    assert w.log + [q] != w.log by {
      assert |w.log + [q]| == |w.log| + 1;
    }
    assert !c.ignored && l.at.Some?;
    assert q == EventAt(Steps(l.at.value, p.frameTs), ev, MarkOf(ev, c.opens)) by {
      assert (w.log + [q])[|w.log|] == q;
    }
    assert c.opens <==> Starts(last, ev, marker) || Elsewhere(p, w.clock, ts) by {
      AcceptedOpens(p, w.clock, ev, ts, marker, last);
    }
  }

  lemma AcceptedOpens(p: Setup, k: Clock, ev: NamedEvent, ts: u32, marker: bool, last: Option<NamedEvent>)
    requires p.Valid() && Recalls(k, last) && !Prepared(p, k, ev, ts, marker).ignored
    ensures Prepared(p, k, ev, ts, marker).opens <==> Starts(last, ev, marker) || Elsewhere(p, k, ts)
  {
  }

  /** In every run in reach: an event that is accepted, that nothing is placed over and whose frame is read with the write
      position ahead is read as that event.  Its frame has the start marker if the packet starts an event, the end marker
      if it is an update with the end bit, and keeps its marker otherwise. */
  lemma EventIsRead(p: Setup, before: seq<Action>, ev: NamedEvent, ts: u32, marker: bool, after: seq<Action>, q: Placement)
    requires p.Valid() && PlaceableRun(p, Start(p), before + [Event(ev, ts, marker)] + after)
    requires var w, w1 := Run(p, Start(p), before), Run(p, Start(p), before + [Event(ev, ts, marker)]);
             var w2 := Run(p, Start(p), before + [Event(ev, ts, marker)] + after);
             && w1.log == w.log + [q] && Untouched(w1.log, w2.log, q.index) && q.index < |w2.frames|
             && |Leads(p, Start(p), before + [Event(ev, ts, marker)] + after)| == |w2.frames|
             && Leads(p, Start(p), before + [Event(ev, ts, marker)] + after)[q.index]
    ensures var w := Run(p, Start(p), before);
            var frame := Run(p, Start(p), before + [Event(ev, ts, marker)] + after).frames[q.index];
            && frame.event == Some(ev)
            && frame.marker == MarkerFor(Starts(LastEvent(before), ev, marker) || Elsewhere(p, w.clock, ts), ev,
                                         LastWritten(w.log, q.index).marker)
  {
    var e := Event(ev, ts, marker);
    var all := before + [e] + after;
    var w, w1, w2 := Run(p, Start(p), before), Run(p, Start(p), before + [e]), Run(p, Start(p), all);
    RunConcat(p, Start(p), before, [e]);
    RunLast(p, w, e);
    RunRecalls(p, before);
    EventWrites(p, w, ev, ts, marker, LastEvent(before), q);
    LogGrows(p, before + [e], after);
    RunShows(p, all);
    assert w2.log == w1.log + w2.log[|w1.log|..];
    LastWrittenFrame(w1.log, w2.log[|w1.log|..], q.index);
    LastWrittenAfter(w.log, q, q.index);
  }

  lemma LogGrows(p: Setup, a: seq<Action>, b: seq<Action>)
    requires p.Valid() && PlaceableRun(p, Start(p), a + b)
    ensures Run(p, Start(p), a).log <= Run(p, Start(p), a + b).log
  {
    PlaceableConcat(p, Start(p), a, b);
    RunConcat(p, Start(p), a, b);
    StartFaithful(p);
    RunTells(p, Start(p), a, []);
    RunTells(p, Run(p, Start(p), a), b, [] + Leads(p, Start(p), a));
  }

  lemma {:induction false} AlignSum(x: nat, y: nat, n: nat)
    requires n > 0 && Aligned(y, n)
    ensures AlignDown(x + y, n) == AlignDown(x, n) + y
    decreases y
  {
    if y > 0 {
      AlignSum(x, y - n, n);
    }
  }

  lemma DelayWraps(x: int, delay: u32, delta: nat)
    requires U32(x + delay) + delta < 0x1_0000_0000
    ensures U32(x + U32(delay + delta)) == U32(x + delay) + delta
  {
    var a, r := x + delay, U32(x + delay);
    WordOf(a + delta, a / 0x1_0000_0000, r + delta);
    if delay + delta >= 0x1_0000_0000 {
      WordOf(a + delta - 0x1_0000_0000, a / 0x1_0000_0000 - 1, r + delta);
    }
  }

  lemma WordOf(x: int, q: int, r: u32)
    requires x == 0x1_0000_0000 * q + r
    ensures U32(x) == r
  {
  }

  lemma RawMoves(k: Clock, ts: u32, delta: nat)
    requires Raw(k, ts) + delta < 0x1_0000_0000
    ensures Raw(k.(delay := U32(k.delay + delta)), ts) == Raw(k, ts) + delta
  {
    DelayWraps(ts - k.offset, k.delay, delta);
  }

  /** A longer delay moves positions along. */
  lemma DelayMoves(p: Setup, k: Clock, k': Clock, ts: u32, delta: nat)
    requires p.Valid() && Aligned(delta, p.frameTs) && Raw(k', ts) == Raw(k, ts) + delta
    ensures Position(p, k', ts) == Position(p, k, ts) + delta
  {
    AlignSum(Raw(k, ts), delta, p.frameTs);
  }

  lemma LateStart(p: Setup, k: Clock, ts: u32, pos: u32)
    requires p.Valid() && Aligned(k.read, p.frameTs) && pos == Position(p, k, ts) < k.read && k.read + p.frameTs < 0x1_0000_0000
    ensures Position(p, k.(delay := U32(k.delay + (k.read - pos))), ts) == k.read
  {
    AlignedDistance(pos, k.read, p.frameTs);
    RawMoves(k, ts, k.read - pos);
    DelayMoves(p, k, k.(delay := U32(k.delay + (k.read - pos))), ts, k.read - pos);
  }

  /** What an accepted start leaves behind. */
  lemma StartClock(p: Setup, w: World, ev: NamedEvent, ts: u32, marker: bool, k: Clock, pos: u32)
    requires p.Valid() && |w.ring| == p.capacity && k == Synced(p, w.clock, ts) && pos == Position(p, k, ts)
    requires Prepared(p, w.clock, ev, ts, marker).opens && EventResult(p, w.clock, ev, ts, marker) == Ok
    ensures var k' := WriteEvent(p, w, ev, ts, marker).clock;
            && !k'.sync && k'.offset == k.offset && k'.baseTs == (if pos < k.read then k.read else pos)
            && k'.delay == if pos < k.read then U32(k.delay + (k.read - pos)) else k.delay
  {
  }

  /** After the start of an event was accepted, late or not, packets with its timestamp are its updates. */
  lemma StartIsFound(p: Setup, w: World, ev: NamedEvent, ts: u32, marker: bool, k': Clock)
    requires p.Valid() && |w.ring| == p.capacity && Aligned(w.clock.read, p.frameTs)
    requires w.clock.read + p.frameTs < 0x1_0000_0000 && k' == WriteEvent(p, w, ev, ts, marker).clock
    requires Prepared(p, w.clock, ev, ts, marker).opens && EventResult(p, w.clock, ev, ts, marker) == Ok
    ensures !Elsewhere(p, k', ts)
  {
    var k := Synced(p, w.clock, ts);
    var pos := Position(p, k, ts);
    StartClock(p, w, ev, ts, marker, k, pos);
    FoundAgain(p, k, k', ts, pos);
  }

  lemma FoundAgain(p: Setup, k: Clock, k': Clock, ts: u32, pos: u32)
    requires p.Valid() && Aligned(k.read, p.frameTs) && k.read + p.frameTs < 0x1_0000_0000 && pos == Position(p, k, ts)
    requires !k'.sync && k'.offset == k.offset && k'.baseTs == (if pos < k.read then k.read else pos)
    requires k'.delay == if pos < k.read then U32(k.delay + (k.read - pos)) else k.delay
    ensures !Elsewhere(p, k', ts)
  {
    if pos < k.read {
      LateStart(p, k, ts, pos);
    }
  }

  /** An event is reported as too early exactly if it lies behind the window, and as too late exactly if it lies before
      the reader and the playout delay cannot be made longer; otherwise it is written or brings nothing new. */
  lemma RefusedExactly(p: Setup, w: World, ev: NamedEvent, ts: u32, marker: bool)
    requires p.Valid() && |w.ring| == p.capacity
    ensures var c, result := Prepared(p, w.clock, ev, ts, marker), EventResult(p, w.clock, ev, ts, marker);
            && (result == TooEarly <==> !c.ignored && c.at >= w.clock.read && Distance(p, w.clock, c.at) >= p.capacity)
            && (result == TooLate <==> !c.ignored && c.at < w.clock.read
                                       && (!p.adaptive || U32(w.clock.delay + (w.clock.read - c.at)) > p.maxTs))
            && (result != Ok || c.ignored <==> WriteEvent(p, w, ev, ts, marker).log == w.log)
  {
    var c := Prepared(p, w.clock, ev, ts, marker);
    var l := PlaceEvent(p, c.clock, c.at, c.opens);
    if !c.ignored && l.at.Some? {
      assert |WriteEvent(p, w, ev, ts, marker).log| == |w.log| + 1;
    }
  }

  // ----- the updates of an event -----

  /** An update brings something new if it tells a longer duration, or is the first to tell that the event has ended. */
  predicate News(ev: NamedEvent, last: NamedEvent) {
    ev.duration > last.duration || (ev.duration == last.duration && ev.edge && !last.edge)
  }

  function Newest(ev: NamedEvent, last: NamedEvent): NamedEvent {
    if News(ev, last) then ev else last
  }

  /** Updates with the timestamp of the start. */
  function Updates(t: u32, evs: seq<NamedEvent>): seq<Action> {
    if evs == [] then [] else [Event(evs[0], t, false)] + Updates(t, evs[1..])
  }

  /** What the updates of an event that starts at frame index d write: each that brings news goes where the one before it
      has ended, and the end bit gives the end marker. */
  function UpdateLog(d: nat, frameTs: nat, last: NamedEvent, evs: seq<NamedEvent>): seq<Placement>
    requires frameTs > 0
    decreases |evs|
  {
    if evs == [] then []
    else if !News(evs[0], last) then UpdateLog(d, frameTs, last, evs[1..])
    else
      [EventAt(d + Steps(last.duration, frameTs), evs[0], if evs[0].edge then Some(EndOfEvent) else None)] +
      UpdateLog(d, frameTs, evs[0], evs[1..])
  }

  /** The index of the first frame to be played. */
  function First(p: Setup): nat
    requires p.Valid()
  {
    Steps(p.initialTs, p.frameTs)
  }

  /** Every place of an event of this duration is in the window of a buffer that has not been read. */
  predicate Fits(p: Setup, duration: u16)
    requires p.Valid()
  {
    First(p) + Steps(duration, p.frameTs) < p.capacity && p.initialTs + duration + p.frameTs < 0x1_0000_0000
  }

  /** An event that starts with timestamp t is being written, and nothing was read yet. */
  ghost predicate Sounding(p: Setup, k: Clock, t: u32, id: byte, last: NamedEvent)
    requires p.Valid()
  {
    && !k.sync && k.offset == I32(t) && k.delay == p.initialTs && k.read == 0
    && k.base.id == id && k.baseTs == AlignDown(p.initialTs, p.frameTs) && k.update == Some(last)
  }

  lemma {:induction false} AlignedSteps(x: nat, n: nat)
    requires n > 0
    ensures Steps(AlignDown(x, n), n) == Steps(x, n)
    decreases x
  {
    if x >= n {
      AlignedSteps(x - n, n);
    }
  }

  lemma SamePosition(p: Setup, k: Clock, t: u32)
    requires p.Valid() && k.offset == I32(t) && k.delay == p.initialTs
    ensures Position(p, k, t) == AlignDown(p.initialTs, p.frameTs)
  {
    WrapOffset(t, 0, p.initialTs);
  }

  /** The packet that starts an event. */
  lemma StartStep(p: Setup, ev: NamedEvent, t: u32)
    requires p.Valid() && Fits(p, ev.duration)
    ensures var w := Step(p, Start(p), Event(ev, t, true));
            && Sounding(p, w.clock, t, ev.id, ev) && w.log == [EventAt(First(p), ev, Some(StartOfEvent))]
            && InReach(p, Start(p), Event(ev, t, true))
  {
    var k := Synced(p, NewClock(p), t);
    SamePosition(p, k, t);
    AlignedSteps(p.initialTs, p.frameTs);
  }

  /** Where an update of an event goes. */
  lemma UpdatePlace(p: Setup, k: Clock, t: u32, last: NamedEvent, ev: NamedEvent)
    requires p.Valid() && Sounding(p, k, t, ev.id, last) && Fits(p, last.duration)
    ensures var c := Prepared(p, k, ev, t, false);
            var at := AlignDown(p.initialTs, p.frameTs) + last.duration;
            && c == Classified(k, false, !News(ev, last), at)
            && PlaceEvent(p, k, at, false) == Located(k, Some(at)) && at + p.frameTs < 0x1_0000_0000
            && Steps(at, p.frameTs) == First(p) + Steps(last.duration, p.frameTs)
  {
    var pos := AlignDown(p.initialTs, p.frameTs);
    SamePosition(p, k, t);
    AlignedSteps(p.initialTs, p.frameTs);
    StepsFromAligned(pos + last.duration, pos, p.frameTs);
  }

  lemma UpdateStep(p: Setup, w: World, t: u32, last: NamedEvent, ev: NamedEvent)
    requires p.Valid() && |w.ring| == p.capacity && Sounding(p, w.clock, t, ev.id, last) && Fits(p, last.duration)
    ensures var w' := Step(p, w, Event(ev, t, false));
            && Sounding(p, w'.clock, t, ev.id, Newest(ev, last))
            && w'.log == w.log + (if !News(ev, last) then []
                                  else [EventAt(First(p) + Steps(last.duration, p.frameTs), ev,
                                                if ev.edge then Some(EndOfEvent) else None)])
            && InReach(p, w, Event(ev, t, false))
  {
    UpdatePlace(p, w.clock, t, last, ev);
    assert w.log + [] == w.log;
  }

  lemma FirstUpdate(t: u32, evs: seq<NamedEvent>)
    requires evs != []
    ensures Updates(t, evs)[0] == Event(evs[0], t, false) && Updates(t, evs)[1..] == Updates(t, evs[1..])
  {
  }

  lemma {:induction false} UpdatesWrite(p: Setup, w: World, t: u32, last: NamedEvent, evs: seq<NamedEvent>)
    requires p.Valid() && |w.ring| == p.capacity && Sounding(p, w.clock, t, last.id, last) && Fits(p, last.duration)
    requires forall ev :: ev in evs ==> ev.id == last.id && Fits(p, ev.duration)
    ensures var w' := Run(p, w, Updates(t, evs));
            w'.clock.read == 0 && w'.log == w.log + UpdateLog(First(p), p.frameTs, last, evs)
    decreases |evs|
  {
    if evs == [] {
      assert w.log + [] == w.log;
    } else {
      var w1 := Step(p, w, Event(evs[0], t, false));
      UpdateStep(p, w, t, last, evs[0]);
      FirstUpdate(t, evs);
      UpdatesWrite(p, w1, t, Newest(evs[0], last), evs[1..]);
      LogsJoin(w.log, w1.log, First(p), p.frameTs, last, evs);
    }
  }

  lemma {:induction false} UpdatesContained(p: Setup, w: World, t: u32, last: NamedEvent, evs: seq<NamedEvent>)
    requires p.Valid() && |w.ring| == p.capacity && Sounding(p, w.clock, t, last.id, last) && Fits(p, last.duration)
    requires forall ev :: ev in evs ==> ev.id == last.id && Fits(p, ev.duration)
    ensures Contained(p, w, Updates(t, evs))
    decreases |evs|
  {
    if evs != [] {
      UpdateStep(p, w, t, last, evs[0]);
      FirstUpdate(t, evs);
      UpdatesContained(p, Step(p, w, Event(evs[0], t, false)), t, Newest(evs[0], last), evs[1..]);
    }
  }

  lemma LogsJoin(log: seq<Placement>, log1: seq<Placement>, d: nat, frameTs: nat, last: NamedEvent, evs: seq<NamedEvent>)
    requires frameTs > 0 && evs != []
    requires log1 == log + (if !News(evs[0], last) then []
                            else [EventAt(d + Steps(last.duration, frameTs), evs[0],
                                          if evs[0].edge then Some(EndOfEvent) else None)])
    ensures log1 + UpdateLog(d, frameTs, Newest(evs[0], last), evs[1..])
            == log + UpdateLog(d, frameTs, last, evs)
  {
  }

  lemma {:induction false} ContainedConcat(p: Setup, w: World, a: seq<Action>, b: seq<Action>)
    requires p.Valid() && |w.ring| == p.capacity
    ensures Contained(p, w, a) && Contained(p, Run(p, w, a), b) ==> Contained(p, w, a + b)
    decreases |a|
  {
    if a == [] {
      assert a + b == b;
    } else {
      assert (a + b)[0] == a[0] && (a + b)[1..] == a[1..] + b;
      ContainedConcat(p, Step(p, w, a[0]), a[1..], b);
    }
  }

  lemma ReadContained(p: Setup, w: World, n: nat) returns (w1: World)
    requires p.Valid() && |w.ring| == p.capacity && n > 0 && w.clock.read + p.frameTs < 0x1_0000_0000
    ensures |w1.ring| == p.capacity && w1.log == w.log && w1.clock.read == w.clock.read + p.frameTs
    ensures Run(p, w, Reads(n)) == Run(p, w1, Reads(n - 1))
    ensures Contained(p, w, Reads(n)) <==> Contained(p, w1, Reads(n - 1))
  {
    w1 := Step(p, w, Fetch);
    assert Reads(n)[0] == Fetch && Reads(n)[1..] == Reads(n - 1);
  }

  lemma {:induction false} ReadsContained(p: Setup, w: World, n: nat)
    requires p.Valid() && |w.ring| == p.capacity && After(w.clock.read, p.frameTs, n) < 0x1_0000_0000
    ensures Contained(p, w, Reads(n)) && Run(p, w, Reads(n)).log == w.log
    decreases n
  {
    if n > 0 {
      AfterMonotone(w.clock.read + p.frameTs, p.frameTs, 0, n - 1);
      var w1 := ReadContained(p, w, n);
      ReadsContained(p, w1, n - 1);
    }
  }

  lemma EventWritten(p: Setup, first: NamedEvent, evs: seq<NamedEvent>, t: u32)
    requires p.Valid() && Fits(p, first.duration)
    requires forall ev :: ev in evs ==> ev.id == first.id && Fits(p, ev.duration)
    ensures var actions := [Event(first, t, true)] + Updates(t, evs);
            var w := Run(p, Start(p), actions);
            && Contained(p, Start(p), actions) && w.clock.read == 0
            && w.log == [EventAt(First(p), first, Some(StartOfEvent))] + UpdateLog(First(p), p.frameTs, first, evs)
  {
    var a, w1 := Event(first, t, true), Step(p, Start(p), Event(first, t, true));
    StartStep(p, first, t);
    UpdatesWrite(p, w1, t, first, evs);
    UpdatesContained(p, w1, t, first, evs);
    RunFirst(p, Start(p), a, Updates(t, evs));
    assert ([a] + Updates(t, evs))[1..] == Updates(t, evs);
  }

  /** An event and its updates, and then n reads: the event starts where its timestamp belongs, every update that brings
      news is read where the one before it has ended, and the first with the end bit ends it. */
  lemma EventIsPlayed(p: Setup, first: NamedEvent, evs: seq<NamedEvent>, t: u32, n: nat, k: nat)
    requires p.Valid() && Fits(p, first.duration) && After(0, p.frameTs, n) < 0x1_0000_0000 && k < n
    requires forall ev :: ev in evs ==> ev.id == first.id && Fits(p, ev.duration)
    ensures var frames := Run(p, Start(p), [Event(first, t, true)] + Updates(t, evs) + Reads(n)).frames;
            && |frames| == n
            && frames[k] == LastWritten([EventAt(First(p), first, Some(StartOfEvent))] +
                                        UpdateLog(First(p), p.frameTs, first, evs), k)
  {
    var actions := [Event(first, t, true)] + Updates(t, evs);
    EventWritten(p, first, evs, t);
    var w := Run(p, Start(p), actions);
    ReadsContained(p, w, n);
    ContainedConcat(p, Start(p), actions, Reads(n));
    RunConcat(p, Start(p), actions, Reads(n));
    RunDelivers(p, actions + Reads(n));
    CountFetches(t, first, evs, n);
  }

  lemma {:induction false} FetchesConcat(a: seq<Action>, b: seq<Action>)
    ensures Fetches(a + b) == Fetches(a) + Fetches(b)
    decreases |a|
  {
    if a == [] {
      assert a + b == b;
    } else {
      assert (a + b)[0] == a[0] && (a + b)[1..] == a[1..] + b;
      FetchesConcat(a[1..], b);
    }
  }

  lemma {:induction false} ReadsFetch(n: nat)
    ensures Fetches(Reads(n)) == n
    decreases n
  {
    if n > 0 {
      assert Reads(n)[1..] == Reads(n - 1);
      ReadsFetch(n - 1);
    }
  }

  lemma {:induction false} UpdatesFetch(t: u32, evs: seq<NamedEvent>)
    ensures Fetches(Updates(t, evs)) == 0
    decreases |evs|
  {
    if evs != [] {
      assert Updates(t, evs)[1..] == Updates(t, evs[1..]);
      UpdatesFetch(t, evs[1..]);
    }
  }

  lemma CountFetches(t: u32, first: NamedEvent, evs: seq<NamedEvent>, n: nat)
    ensures Fetches([Event(first, t, true)] + Updates(t, evs) + Reads(n)) == n
  {
    FetchesConcat([Event(first, t, true)] + Updates(t, evs), Reads(n));
    FetchesConcat([Event(first, t, true)], Updates(t, evs));
    assert [Event(first, t, true)][1..] == [];
    UpdatesFetch(t, evs);
    ReadsFetch(n);
  }

  // ----- a later packet of the same event -----

  lemma WrapLater(t: u32, x: nat, delay: nat)
    requires delay + x < 0x1_0000_0000
    ensures U32(U32(t + x) - I32(t) + delay) == delay + x
  {
  }

  lemma LaterPosition(p: Setup, k: Clock, ts: u32, x: nat)
    requires p.Valid() && Aligned(x, p.frameTs) && Raw(k, ts) == p.initialTs + x
    ensures Position(p, k, ts) == AlignDown(p.initialTs, p.frameTs) + x
  {
    AlignSum(p.initialTs, x, p.frameTs);
  }

  /** How a packet of the same event at another position is taken. */
  lemma GapTaken(p: Setup, k: Clock, last: NamedEvent, ev: NamedEvent, pos: u32, x: nat)
    requires p.Valid() && k.update == Some(last) && k.base.id == ev.id && x > 0 && pos == k.baseTs + x
    requires k.baseTs + last.duration + 4 * p.frameTs < 0x1_0000_0000
    ensures var c := Classify(p, k, ev, pos, false);
            if x > last.duration + 4 * p.frameTs
            then c == Classified(k.(base := ev, baseTs := pos, update := Some(ev)), true, false, pos)
            else c.ignored
  {
  }

  lemma StoresStart(p: Setup, w: World, k: Clock, pos: u32, ev: NamedEvent)
    requires p.Valid() && |w.ring| == p.capacity && k.read == 0 && Steps(pos, p.frameTs) < p.capacity
    ensures Storing(p, w, PlaceEvent(p, k, pos, true), ev, MarkOf(ev, true)).log
            == w.log + [EventAt(Steps(pos, p.frameTs), ev, Some(StartOfEvent))]
  {
  }

  lemma GapStep(p: Setup, w: World, last: NamedEvent, ev: NamedEvent, ts: u32, pos: u32, x: nat)
    requires p.Valid() && |w.ring| == p.capacity && !w.clock.sync && w.clock.read == 0
    requires w.clock.update == Some(last) && w.clock.base.id == ev.id && Position(p, w.clock, ts) == pos
    requires x > 0 && pos == w.clock.baseTs + x && w.clock.baseTs + last.duration + 4 * p.frameTs < 0x1_0000_0000
    requires Steps(pos, p.frameTs) < p.capacity
    ensures Step(p, w, Event(ev, ts, false)).log ==
            if x > last.duration + 4 * p.frameTs then w.log + [EventAt(Steps(pos, p.frameTs), ev, Some(StartOfEvent))] else w.log
  {
    GapTaken(p, w.clock, last, ev, pos, x);
    StoresStart(p, w, w.clock.(base := ev, baseTs := pos, update := Some(ev)), pos, ev);
  }

  lemma GapPosition(p: Setup, k: Clock, t: u32, x: nat, ts: u32)
    requires p.Valid() && k.offset == I32(t) && k.delay == p.initialTs && Aligned(x, p.frameTs)
    requires p.initialTs + x < 0x1_0000_0000 && ts == U32(t + x)
    ensures var pos := AlignDown(p.initialTs, p.frameTs);
            Position(p, k, ts) == pos + x && Steps(pos + x, p.frameTs) == First(p) + Steps(x, p.frameTs)
  {
    var pos := AlignDown(p.initialTs, p.frameTs);
    WrapLater(t, x, p.initialTs);
    LaterPosition(p, k, ts, x);
    AlignedSteps(p.initialTs, p.frameTs);
    StepsFromAligned(pos + x, pos, p.frameTs);
  }

  /** A packet of the same event without marker, whole frames after its start: it starts the event anew exactly if it lies
      more than four frames behind the end of the event; otherwise it leaves no trace. */
  lemma GapStartsExactly(p: Setup, w: World, t: u32, last: NamedEvent, ev: NamedEvent, x: nat, ts: u32)
    requires p.Valid() && |w.ring| == p.capacity && Sounding(p, w.clock, t, ev.id, last)
    requires x > 0 && Aligned(x, p.frameTs) && First(p) + Steps(x, p.frameTs) < p.capacity && ts == U32(t + x)
    requires p.initialTs + x < 0x1_0000_0000 && p.initialTs + last.duration + 4 * p.frameTs < 0x1_0000_0000
    ensures Step(p, w, Event(ev, ts, false)).log ==
            if x > last.duration + 4 * p.frameTs
            then w.log + [EventAt(First(p) + Steps(x, p.frameTs), ev, Some(StartOfEvent))]
            else w.log
  {
    GapPosition(p, w.clock, t, x, ts);
    GapStep(p, w, last, ev, ts, AlignDown(p.initialTs, p.frameTs) + x, x);
  }
}
