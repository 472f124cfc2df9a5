/** The jitter buffer against an ideal one that knows no words, no ring and no offsets: packets are kept as they come, and
    each is played where its timestamp belongs.  `After(0, n, k)` is the k-th multiple of n, and `Steps` the quotient. */
module JitterIdeal {
  import opened Common
  import opened FrameRing
  import opened JitterModel
  import opened JitterRing

  /** A packet whose first `count` frames are to be played from frame index `at` on. */
  datatype Packet = Packet(at: nat, count: nat, data: seq<byte>)

  /** `anchor` is the timestamp that would be played at index 0 without delay; `played` frames were read, and the frames
      kept end before `end`. */
  datatype Ideal = Ideal(anchor: Option<int>, delay: nat, played: nat, end: nat, packets: seq<Packet>, frames: seq<Content>)

  function IdealStart(p: Setup): Ideal {
    Ideal(None, p.initialTs, 0, 0, [], [])
  }

  /** The bytes of frame j of a payload. */
  function FrameBytes(data: seq<byte>, size: nat, j: nat): Content {
    var from := After(0, size, j);
    Content(Some(if from + size <= |data| then data[from..from + size] else []), None, NoMarker)
  }

  /** What is kept for index k: the frame of the last packet that has one for it. */
  function KeptAt(packets: seq<Packet>, size: nat, k: nat): Content
    decreases |packets|
  {
    if packets == [] then Silence
    else
      var last := packets[|packets| - 1];
      if last.at <= k < last.at + last.count then FrameBytes(last.data, size, k - last.at)
      else KeptAt(packets[..|packets| - 1], size, k)
  }

  /** The first packet, the first after a restart and a marked one that finds no unread frame are to be played the delay
      after the current time; this sets the timestamps of all others. */
  function Anchored(p: Setup, s: Ideal, ts: u32, marker: bool): Ideal {
    if s.anchor.None? || (marker && s.end <= s.played) then s.(anchor := Some(ts - After(0, p.frameTs, s.played))) else s
  }

  /** The frame index a timestamp belongs to; timestamps wrap. */
  function IndexOf(p: Setup, s: Ideal, ts: u32): nat
    requires p.Valid() && s.anchor.Some?
  {
    Steps((s.delay + ts - s.anchor.value) % 0x1_0000_0000, p.frameTs)
  }

  /** As many frames of a packet are kept as lie in the window of the next `capacity` frames. */
  function Keep(p: Setup, s: Ideal, at: nat, data: seq<byte>): Ideal {
    if at >= s.played + p.capacity then s
    else
      With(s, Packet(at, Min(WholeFrames(p, data), s.played + p.capacity - at), data))
  }

  /** The packet is kept. */
  function With(s: Ideal, q: Packet): Ideal {
    s.(end := if q.at + q.count > s.end then q.at + q.count else s.end, packets := s.packets + [q])
  }

  function WholeFrames(p: Setup, data: seq<byte>): nat {
    if p.frameSize == 0 then 0 else Steps(|data|, p.frameSize)
  }

  datatype Spot = Spot(at: Option<nat>, delay: nat)

  /** A late packet is dropped if something after it was kept already; otherwise an adaptive buffer waits longer, so that
      the packet comes next, as long as the maximal delay allows it. */
  function SpotOf(p: Setup, s: Ideal, i: nat): Spot {
    if i >= s.played then Spot(Some(i), s.delay)
    else
      var late := After(0, p.frameTs, s.played - i);
      if i < s.end || !p.adaptive || s.delay + late > p.maxTs then Spot(None, s.delay)
      else Spot(Some(s.played), s.delay + late)
  }

  function Arrive(p: Setup, s: Ideal, data: seq<byte>, ts: u32, marker: bool): Ideal
    requires p.Valid()
  {
    var s := Anchored(p, s, ts, marker);
    var spot := SpotOf(p, s, IndexOf(p, s, ts));
    if spot.at.None? then s else Keep(p, s.(delay := spot.delay), spot.at.value, data)
  }

  function IdealStep(p: Setup, s: Ideal, a: Action): Ideal
    requires p.Valid()
  {
    match a
    case Audio(data, ts, marker) => Arrive(p, s, data, ts, marker)
    case Fetch =>
      var frame := if s.end > s.played then KeptAt(s.packets, p.frameSize, s.played) else Silence;
      s.(played := s.played + 1, frames := s.frames + [frame])
    case Restart =>
      s.(anchor := None, end := s.played, delay := if p.adaptive && s.delay == p.maxTs then p.initialTs else s.delay)
    case Event(_, _, _) => s
  }

  function IdealRun(p: Setup, s: Ideal, actions: seq<Action>): Ideal
    requires p.Valid()
    decreases |actions|
  {
    if actions == [] then s else IdealRun(p, IdealStep(p, s, actions[0]), actions[1..])
  }

  // ----- payloads -----

  lemma {:induction false} ChunkCount(data: seq<byte>, size: nat)
    requires size > 0
    ensures |Chunks(data, size)| == Steps(|data|, size)
    decreases |data|
  {
    if |data| >= size {
      ChunkCount(data[size..], size);
    }
  }

  lemma {:induction false} ChunkAt(data: seq<byte>, size: nat, j: nat)
    requires j < |Chunks(data, size)|
    ensures var x := After(0, size, j); x + size <= |data| && Chunks(data, size)[j] == data[x..x + size]
    decreases j
  {
    if j > 0 {
      var x := After(0, size, j - 1);
      AfterNext(0, size, j - 1);
      ChunkAt(data[size..], size, j - 1);
      assert data[size..][x..x + size] == data[x + size..x + size + size];
    }
  }

  // ----- words and multiples -----

  lemma WordPosition(ts: u32, anchor: int, delay: nat)
    ensures U32(ts - I32(anchor) + delay) == (delay + ts - anchor) % 0x1_0000_0000
  {
  }

  lemma {:induction false} AfterSplit(n: nat, i: nat, j: nat)
    ensures After(0, n, i + j) == After(0, n, i) + After(0, n, j)
    ensures After(After(0, n, i), n, j) == After(0, n, i + j)
    decreases j
  {
    if j > 0 {
      AfterSplit(n, i, j - 1);
      AfterNext(0, n, i + j - 1);
      AfterNext(0, n, j - 1);
      AfterNext(After(0, n, i), n, j - 1);
    }
  }

  lemma AfterOrder(n: nat, i: nat, j: nat)
    requires n > 0
    ensures i < j <==> After(0, n, i) < After(0, n, j)
    ensures i <= j <==> After(0, n, i) <= After(0, n, j)
  {
    if i < j {
      AfterMonotone(0, n, i + 1, j);
      AfterNext(0, n, i);
    } else {
      AfterMonotone(0, n, j, i);
      if j < i {
        AfterMonotone(0, n, j + 1, i);
        AfterNext(0, n, j);
      }
    }
  }

  lemma {:induction false} AlignIs(x: nat, n: nat)
    requires n > 0
    ensures AlignDown(x, n) == After(0, n, Steps(x, n))
    decreases x
  {
    if x >= n {
      AlignIs(x - n, n);
      AfterNext(0, n, Steps(x - n, n));
    }
  }

  /** A position is the multiple of its index. */
  lemma PositionIs(p: Setup, k: Clock, s: Ideal, ts: u32)
    requires p.Valid() && s.anchor.Some? && k.offset == I32(s.anchor.value) && k.delay == s.delay
    ensures Position(p, k, ts) == After(0, p.frameTs, IndexOf(p, s, ts))
  {
    WordPosition(ts, s.anchor.value, s.delay);
    AlignIs(Raw(k, ts), p.frameTs);
  }

  // ----- what is kept is what was placed -----

  lemma {:induction false} AudioLogAt(log: seq<Placement>, i: nat, placed: seq<seq<byte>>, k: nat)
    ensures LastWritten(log + AudioLog(i, placed), k) ==
            if i <= k < i + |placed| then LastWritten(log, k).(audio := Some(placed[k - i])) else LastWritten(log, k)
    decreases |placed|
  {
    if placed == [] {
      assert log + [] == log;
    } else {
      var q := AudioAt(i, placed[0]);
      assert log + AudioLog(i, placed) == log + [q] + AudioLog(i + 1, placed[1..]);
      AudioLogAt(log + [q], i + 1, placed[1..], k);
      LastWrittenAfter(log, q, k);
    }
  }

  ghost predicate Agrees(log: seq<Placement>, packets: seq<Packet>, size: nat) {
    forall k: nat :: LastWritten(log, k) == KeptAt(packets, size, k)
  }

  lemma {:induction false} KeptIsAudio(packets: seq<Packet>, size: nat, k: nat)
    ensures KeptAt(packets, size, k).event.None? && KeptAt(packets, size, k).marker == NoMarker
    decreases |packets|
  {
    if packets != [] {
      KeptIsAudio(packets[..|packets| - 1], size, k);
    }
  }

  lemma KeptAfter(packets: seq<Packet>, q: Packet, size: nat, k: nat)
    ensures KeptAt(packets + [q], size, k) ==
            if q.at <= k < q.at + q.count then FrameBytes(q.data, size, k - q.at) else KeptAt(packets, size, k)
  {
    assert (packets + [q])[..|packets|] == packets;
  }

  lemma PlacedFrame(data: seq<byte>, size: nat, placed: seq<seq<byte>>, j: nat)
    requires j < |placed| && placed <= Chunks(data, size)
    ensures FrameBytes(data, size, j) == Content(Some(placed[j]), None, NoMarker)
  {
    ChunkAt(data, size, j);
  }

  lemma AgreesAt(log: seq<Placement>, packets: seq<Packet>, size: nat, q: Packet, placed: seq<seq<byte>>, k: nat)
    requires LastWritten(log, k) == KeptAt(packets, size, k) && |placed| == q.count
    requires q.at <= k < q.at + q.count ==> FrameBytes(q.data, size, k - q.at) == Content(Some(placed[k - q.at]), None, NoMarker)
    ensures LastWritten(log + AudioLog(q.at, placed), k) == KeptAt(packets + [q], size, k)
  {
    AudioLogAt(log, q.at, placed, k);
    KeptAfter(packets, q, size, k);
    KeptIsAudio(packets, size, k);
  }

  lemma AgreesAfter(log: seq<Placement>, packets: seq<Packet>, size: nat, q: Packet, placed: seq<seq<byte>>)
    requires Agrees(log, packets, size) && |placed| == q.count && placed <= Chunks(q.data, size)
    ensures Agrees(log + AudioLog(q.at, placed), packets + [q], size)
  {
    forall k: nat
      ensures LastWritten(log + AudioLog(q.at, placed), k) == KeptAt(packets + [q], size, k)
    {
      if q.at <= k < q.at + q.count {
        PlacedFrame(q.data, size, placed, k - q.at);
      }
      AgreesAt(log, packets, size, q, placed, k);
    }
  }

  // ----- the buffer does what the ideal one does -----

  /** The delay never exceeds this. */
  function Most(p: Setup): nat {
    if p.initialTs <= p.maxTs then p.maxTs else p.initialTs
  }

  ghost predicate Tracks(p: Setup, k: Clock, s: Ideal) {
    && k.read == After(0, p.frameTs, s.played) && k.write == After(0, p.frameTs, s.end) && k.delay == s.delay <= Most(p)
    && (k.sync <==> s.anchor.None?) && (s.anchor.Some? ==> k.offset == I32(s.anchor.value))
  }

  ghost predicate Refines(p: Setup, w: World, s: Ideal)
    requires p.Valid()
  {
    Mirrored(p, w) && Tracks(p, w.clock, s) && Agrees(w.log, s.packets, p.frameSize) && w.frames == s.frames
  }

  /** No position in the window and no delay exceeds 32 bits. */
  predicate TimeFits(p: Setup, played: nat) {
    After(0, p.frameTs, played + p.capacity + 1) + Most(p) < 0x1_0000_0000
  }

  /** A packet is at most `capacity` frames ahead, and on time if the buffer corrects skews. */
  predicate Regular(p: Setup, s: Ideal, a: Action)
    requires p.Valid()
  {
    match a
    case Audio(_, ts, marker) =>
      var s := Anchored(p, s, ts, marker);
      var i := IndexOf(p, s, ts);
      i <= s.played + p.capacity && (p.skewDetection ==> i >= s.played)
    case Event(_, _, _) => false
    case _ => true
  }

  predicate RegularRun(p: Setup, s: Ideal, actions: seq<Action>)
    requires p.Valid()
    decreases |actions|
  {
    && TimeFits(p, s.played)
    && (actions != [] ==> Regular(p, s, actions[0]) && RegularRun(p, IdealStep(p, s, actions[0]), actions[1..]))
  }

  /** Positions in the window fit 32 bits. */
  lemma WindowFits(p: Setup, played: nat, at: nat)
    requires p.Valid() && TimeFits(p, played) && at <= played + p.capacity + 1
    ensures After(0, p.frameTs, at) + Most(p) < 0x1_0000_0000
  {
    AfterMonotone(0, p.frameTs, at, played + p.capacity + 1);
  }

  lemma AnchoredTracks(p: Setup, k: Clock, s: Ideal, ts: u32, marker: bool)
    requires p.Valid() && Tracks(p, k, s)
    ensures var k', s' := Synced(p, Marked(k, marker), ts), Anchored(p, s, ts, marker);
            Tracks(p, k', s') && s'.anchor.Some? && s'.played == s.played && s'.end == s.end
  {
    AfterOrder(p.frameTs, s.end, s.played);
  }

  /** What locating a packet has to do with its spot. */
  ghost predicate LocatedAt(p: Setup, l: Located, s: Ideal, spot: Spot) {
    && Tracks(p, l.clock, s.(delay := spot.delay)) && (l.at.Some? <==> spot.at.Some?)
    && (l.at.Some? ==> l.at.value == After(0, p.frameTs, spot.at.value))
  }

  /** Without skew detection a late packet needs exactly its lateness. */
  lemma LateExtended(p: Setup, k: Clock, ts: u32, at: u32, late: nat)
    requires p.Valid() && !p.skewDetection && late > 0 && k.read == at + late && k.delay + late < 0x1_0000_0000
    ensures Extended(p, Adjusted(p, k, ts, at)) ==
            if !p.adaptive || k.delay + late > p.maxTs then Located(k, None)
            else Located(k.(delay := k.delay + late), Some(k.read))
  {
  }

  lemma LateSpot(p: Setup, k: Clock, s: Ideal, ts: u32, i: nat, at: u32)
    requires p.Valid() && !p.skewDetection && Tracks(p, k, s) && s.anchor.Some? && TimeFits(p, s.played)
    requires s.end <= i < s.played && at == After(0, p.frameTs, i)
    ensures LocatedAt(p, Extended(p, Adjusted(p, k, ts, at)), s, SpotOf(p, s, i))
  {
    var late := After(0, p.frameTs, s.played - i);
    AfterSplit(p.frameTs, i, s.played - i);
    AfterOrder(p.frameTs, 0, s.played - i);
    WindowFits(p, s.played, s.played);
    LateExtended(p, k, ts, at, late);
  }

  lemma LocateIs(p: Setup, k: Clock, s: Ideal, ts: u32, marker: bool)
    requires p.Valid() && Tracks(p, k, s) && TimeFits(p, s.played) && Regular(p, s, Audio([], ts, marker))
    ensures var s' := Anchored(p, s, ts, marker);
            LocatedAt(p, Locate(p, k, ts, marker), s', SpotOf(p, s', IndexOf(p, s', ts)))
  {
    var k', s' := Synced(p, Marked(k, marker), ts), Anchored(p, s, ts, marker);
    AnchoredTracks(p, k, s, ts, marker);
    PositionIs(p, k', s', ts);
    var i := IndexOf(p, s', ts);
    AfterOrder(p.frameTs, i, s'.played);
    AfterOrder(p.frameTs, i, s'.end);
    if s'.end <= i < s'.played {
      LateSpot(p, k', s', ts, i, Position(p, k', ts));
    }
  }

  /** Distances in frames. */
  lemma DistanceIs(p: Setup, k: Clock, at: nat, played: nat, ts: u32)
    requires p.Valid() && k.read == After(0, p.frameTs, played) && played <= at && ts == After(0, p.frameTs, at)
    ensures ts >= k.read && Distance(p, k, ts) == at - played
  {
    AfterSplit(p.frameTs, played, at - played);
    StepsAfter(0, p.frameTs, at - played);
  }

  lemma PlacedCount(p: Setup, k: Clock, ts: u32, data: seq<byte>, distance: nat)
    requires p.Valid() && Distance(p, k, ts) == distance < p.capacity
    ensures Outcome(p, Located(k, Some(ts))) == Ok
    ensures var placed := Placed(p, k, ts, data);
            |placed| == Min(WholeFrames(p, data), p.capacity - distance) && placed <= Chunks(data, p.frameSize)
  {
    assert Available(p.capacity, distance) == p.capacity - distance;
    if p.frameSize > 0 {
      ChunkCount(data, p.frameSize);
    }
  }

  lemma WriteTracks(p: Setup, k: Clock, s: Ideal, at: nat, end: u32)
    requires p.Valid() && Tracks(p, k, s) && end == After(0, p.frameTs, at)
    ensures Tracks(p, k.(write := Later(k.write, end)), s.(end := if at > s.end then at else s.end))
  {
    AfterOrder(p.frameTs, s.end, at);
  }

  /** Placing frames that are known. */
  lemma PlacingKnown(p: Setup, w: World, k: Clock, packets: seq<Packet>, q: Packet, ts: u32, end: u32)
    requires p.Valid() && Mirrored(p, w) && Agrees(w.log, packets, p.frameSize) && k.read == w.clock.read <= ts
    requires Outcome(p, Located(k, Some(ts))) == Ok && Distance(p, k, ts) <= p.capacity
    requires var placed := Placed(p, k, ts, q.data); |placed| == q.count && placed <= Chunks(q.data, p.frameSize)
    requires Steps(ts, p.frameTs) == q.at && EndOf(ts, p.frameTs, q.count) == After(ts, p.frameTs, q.count) == end
    ensures var w' := Placing(p, w, Located(k, Some(ts)), q.data);
            && Mirrored(p, w') && Agrees(w'.log, packets + [q], p.frameSize)
            && w'.frames == w.frames && w'.clock == k.(write := Later(k.write, end))
  {
    PlacingMirrored(p, w, Located(k, Some(ts)), q.data);
    AgreesAfter(w.log, packets, p.frameSize, q, Placed(p, k, ts, q.data));
  }

  lemma EndIs(p: Setup, at: nat, n: nat, ts: u32, end: u32)
    requires p.Valid() && ts == After(0, p.frameTs, at) && end == After(0, p.frameTs, at + n)
    ensures EndOf(ts, p.frameTs, n) == After(ts, p.frameTs, n) == end && Steps(ts, p.frameTs) == at
  {
    AfterSplit(p.frameTs, at, n);
    EndIsAfter(ts, p.frameTs, n);
    StepsAfter(0, p.frameTs, at);
  }

  /** Placing frames that are known is keeping them. */
  lemma KnownRefines(p: Setup, w: World, k: Clock, s: Ideal, q: Packet, end: u32, w': World)
    requires p.Valid() && Tracks(p, k, s) && w.frames == s.frames && end == After(0, p.frameTs, q.at + q.count)
    requires Mirrored(p, w') && Agrees(w'.log, s.packets + [q], p.frameSize)
    requires w'.frames == w.frames && w'.clock == k.(write := Later(k.write, end))
    ensures Refines(p, w', With(s, q))
  {
    WriteTracks(p, k, s, q.at + q.count, end);
  }

  /** Frames q are placed from ts on, up to end. */
  ghost predicate Ready(p: Setup, k: Clock, q: Packet, ts: u32, end: u32)
    requires p.Valid()
  {
    && k.read <= ts && Outcome(p, Located(k, Some(ts))) == Ok && Distance(p, k, ts) <= p.capacity
    && (var placed := Placed(p, k, ts, q.data); |placed| == q.count && placed <= Chunks(q.data, p.frameSize))
    && Steps(ts, p.frameTs) == q.at && EndOf(ts, p.frameTs, q.count) == After(ts, p.frameTs, q.count) == end
    && end == After(0, p.frameTs, q.at + q.count)
  }

  lemma IsReady(p: Setup, k: Clock, played: nat, q: Packet, ts: u32) returns (end: u32)
    requires p.Valid() && k.read == After(0, p.frameTs, played) && TimeFits(p, played)
    requires played <= q.at < played + p.capacity && ts == After(0, p.frameTs, q.at)
    requires q.count == Min(WholeFrames(p, q.data), played + p.capacity - q.at)
    ensures Ready(p, k, q, ts, end)
  {
    DistanceIs(p, k, q.at, played, ts);
    PlacedCount(p, k, ts, q.data, q.at - played);
    WindowFits(p, played, q.at + q.count);
    end := After(0, p.frameTs, q.at + q.count);
    EndIs(p, q.at, q.count, ts, end);
  }

  lemma ReadyRefines(p: Setup, w: World, k: Clock, s: Ideal, q: Packet, ts: u32, end: u32)
    requires p.Valid() && Mirrored(p, w) && Agrees(w.log, s.packets, p.frameSize) && w.frames == s.frames
    requires Tracks(p, k, s) && k.read == w.clock.read && Ready(p, k, q, ts, end)
    ensures Refines(p, Placing(p, w, Located(k, Some(ts)), q.data), With(s, q))
  {
    PlacingKnown(p, w, k, s.packets, q, ts, end);
    KnownRefines(p, w, k, s, q, end, Placing(p, w, Located(k, Some(ts)), q.data));
  }

  lemma KeepIs(p: Setup, s: Ideal, at: nat, data: seq<byte>) returns (q: Packet)
    requires at < s.played + p.capacity
    ensures Keep(p, s, at, data) == With(s, q) && q.at == at && q.data == data
    ensures q.count == Min(WholeFrames(p, data), s.played + p.capacity - at)
  {
    q := Packet(at, Min(WholeFrames(p, data), s.played + p.capacity - at), data);
  }

  /** Placing a located packet is keeping it. */
  lemma PlacingIs(p: Setup, w: World, l: Located, s: Ideal, q: Packet)
    requires p.Valid() && Mirrored(p, w) && Agrees(w.log, s.packets, p.frameSize) && w.frames == s.frames
    requires Tracks(p, l.clock, s) && l.clock.read == w.clock.read && TimeFits(p, s.played)
    requires s.played <= q.at < s.played + p.capacity && l.at.Some? && l.at.value == After(0, p.frameTs, q.at)
    requires q.count == Min(WholeFrames(p, q.data), s.played + p.capacity - q.at)
    ensures Refines(p, Placing(p, w, l, q.data), With(s, q))
  {
    var end := IsReady(p, l.clock, s.played, q, l.at.value);
    ReadyRefines(p, w, l.clock, s, q, l.at.value, end);
  }

  /** A packet exactly `capacity` frames ahead is refused. */
  lemma TooEarlyIs(p: Setup, w: World, l: Located, s: Ideal, data: seq<byte>)
    requires p.Valid() && Mirrored(p, w) && l.clock.read == w.clock.read == After(0, p.frameTs, s.played)
    requires l.at.Some? && l.at.value == After(0, p.frameTs, s.played + p.capacity)
    ensures Placing(p, w, l, data) == w.(clock := l.clock)
  {
    DistanceIs(p, l.clock, s.played + p.capacity, s.played, l.at.value);
  }

  lemma AudioRefines(p: Setup, w: World, s: Ideal, data: seq<byte>, ts: u32, marker: bool)
    requires p.Valid() && Refines(p, w, s) && TimeFits(p, s.played) && Regular(p, s, Audio(data, ts, marker))
    ensures Refines(p, WriteAudio(p, w, data, ts, marker), Arrive(p, s, data, ts, marker))
  {
    var l, s' := Locate(p, w.clock, ts, marker), Anchored(p, s, ts, marker);
    var spot := SpotOf(p, s', IndexOf(p, s', ts));
    LocateIs(p, w.clock, s, ts, marker);
    LocateFrame(p, w.clock, ts, marker);
    if spot.at.Some? {
      if spot.at.value == s.played + p.capacity {
        TooEarlyIs(p, w, l, s', data);
      } else {
        var q := KeepIs(p, s'.(delay := spot.delay), spot.at.value, data);
        PlacingIs(p, w, l, s'.(delay := spot.delay), q);
      }
    }
  }

  lemma AdvancedTracks(p: Setup, k: Clock, s: Ideal)
    requires p.Valid() && Tracks(p, k, s) && k.read + p.frameTs < 0x1_0000_0000
    ensures Tracks(p, Advanced(p, k), s.(played := s.played + 1))
  {
    AfterNext(0, p.frameTs, s.played);
  }

  lemma FetchRefines(p: Setup, w: World, s: Ideal)
    requires p.Valid() && Refines(p, w, s) && TimeFits(p, s.played)
    ensures Refines(p, ReadFrame(p, w), IdealStep(p, s, Fetch))
  {
    WindowFits(p, s.played, s.played + 1);
    AfterNext(0, p.frameTs, s.played);
    AdvancedTracks(p, w.clock, s);
    FetchMirrored(p, w);
    StepsAfter(0, p.frameTs, s.played);
    AfterOrder(p.frameTs, s.played, s.end);
    assert Tracks(p, ReadFrame(p, w).clock, IdealStep(p, s, Fetch));
  }

  lemma StepRefines(p: Setup, w: World, s: Ideal, a: Action)
    requires p.Valid() && Refines(p, w, s) && TimeFits(p, s.played) && Regular(p, s, a)
    ensures Refines(p, Step(p, w, a), IdealStep(p, s, a))
  {
    match a
    case Audio(data, ts, marker) => AudioRefines(p, w, s, data, ts, marker);
    case Fetch => FetchRefines(p, w, s);
    case Restart =>
  }

  lemma {:induction false} RunRefines(p: Setup, w: World, s: Ideal, actions: seq<Action>)
    requires p.Valid() && Refines(p, w, s) && RegularRun(p, s, actions)
    ensures Refines(p, Run(p, w, actions), IdealRun(p, s, actions))
    decreases |actions|
  {
    if actions != [] {
      StepRefines(p, w, s, actions[0]);
      RunRefines(p, Step(p, w, actions[0]), IdealStep(p, s, actions[0]), actions[1..]);
    }
  }

  /** Every run of packets, reads and restarts in which packets are at most `capacity` frames ahead, time does not wrap
      and, if the buffer corrects skews, packets are on time: the frames read are those of the ideal buffer. */
  lemma PlaysIdeally(p: Setup, actions: seq<Action>)
    requires p.Valid() && RegularRun(p, IdealStart(p), actions)
    ensures Run(p, Start(p), actions).frames == IdealRun(p, IdealStart(p), actions).frames
  {
    StartFaithful(p);
    RunRefines(p, Start(p), IdealStart(p), actions);
  }

  /** What the sender of a packet is told: too late if it was dropped, too early if it is exactly `capacity` frames ahead. */
  function ResultOf(p: Setup, s: Ideal, ts: u32, marker: bool): Result
    requires p.Valid()
  {
    var s := Anchored(p, s, ts, marker);
    var spot := SpotOf(p, s, IndexOf(p, s, ts));
    if spot.at.None? then TooLate else if spot.at.value == s.played + p.capacity then TooEarly else Ok
  }

  lemma OutcomeIs(p: Setup, l: Located, played: nat, at: nat)
    requires p.Valid() && l.clock.read == After(0, p.frameTs, played) && played <= at <= played + p.capacity
    requires l.at.Some? && l.at.value == After(0, p.frameTs, at)
    ensures Outcome(p, l) == if at == played + p.capacity then TooEarly else Ok
  {
    DistanceIs(p, l.clock, at, played, l.at.value);
  }

  /** After every such run, a packet is reported as kept, too late or too early as the ideal buffer does. */
  lemma ReportsIdeally(p: Setup, actions: seq<Action>, ts: u32, marker: bool)
    requires p.Valid() && RegularRun(p, IdealStart(p), actions)
    requires Regular(p, IdealRun(p, IdealStart(p), actions), Audio([], ts, marker))
    ensures AudioResult(p, Run(p, Start(p), actions).clock, ts, marker)
            == ResultOf(p, IdealRun(p, IdealStart(p), actions), ts, marker)
  {
    var w, s := Run(p, Start(p), actions), IdealRun(p, IdealStart(p), actions);
    StartFaithful(p);
    RunRefines(p, Start(p), IdealStart(p), actions);
    EndsInTime(p, IdealStart(p), actions);
    LocateIs(p, w.clock, s, ts, marker);
    var s' := Anchored(p, s, ts, marker);
    var spot := SpotOf(p, s', IndexOf(p, s', ts));
    if spot.at.Some? {
      OutcomeIs(p, Locate(p, w.clock, ts, marker), s.played, spot.at.value);
    }
  }

  lemma {:induction false} EndsInTime(p: Setup, s: Ideal, actions: seq<Action>)
    requires p.Valid() && RegularRun(p, s, actions)
    ensures TimeFits(p, IdealRun(p, s, actions).played)
    decreases |actions|
  {
    if actions != [] {
      EndsInTime(p, IdealStep(p, s, actions[0]), actions[1..]);
    }
  }
}
