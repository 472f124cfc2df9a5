/** The adaptive jitter buffer as a state machine over values, in the 32-bit arithmetic of the source
    (libs/mpf/src/mpf_jitter_buffer.c).  `JitterBuffers` proves the buffer object against it. */
module JitterModel {
  import opened Common
  import opened FrameRing

  /** CODEC_FRAME_TIME_BASE, in msec. */
  const FRAME_TIME := 10

  datatype Result = Ok | TooLate | TooEarly

  const NoEvent := NamedEvent(0, 0, false, 0)

  /** Delays in msec. */
  datatype Config = Config(minDelay: u32, initialDelay: u32, maxDelay: u32, adaptive: bool, skewDetection: bool)

  function Validated(c: Config): Config {
    var c := if c.minDelay > c.initialDelay then c.(minDelay := c.initialDelay) else c;
    var c := if c.maxDelay < c.initialDelay then c.(maxDelay := U32(2 * c.initialDelay)) else c;
    if c.maxDelay == 0 then c.(maxDelay := 600) else c
  }

  /** The initial delay is rounded up to whole frames after the maximum was validated. */
  function Rounded(c: Config): Config {
    if c.initialDelay % FRAME_TIME != 0
    then c.(initialDelay := U32(c.initialDelay + FRAME_TIME - c.initialDelay % FRAME_TIME))
    else c
  }

  function Effective(c: Config): Config {
    Rounded(Validated(c))
  }

  /** A delay in timestamp units. */
  function DelayTs(frameTs: u32, ms: u32): u32 {
    U32(frameTs * ms) / FRAME_TIME
  }

  /** No 32-bit overflow while the delays are computed. */
  predicate DelaysFit(c: Config, frameTs: u32) {
    && c.initialDelay < 0x7FFF_FFF0
    && frameTs * Effective(c).initialDelay < 0x1_0000_0000
    && frameTs * Effective(c).maxDelay < 0x1_0000_0000
  }

  /** Comparing delays in timestamp units or in msec is the same when the first is in whole frames. */
  lemma DelayOrder(frameTs: u32, i: u32, m: u32)
    requires frameTs > 0 && i % FRAME_TIME == 0
    requires frameTs * i < 0x1_0000_0000 && frameTs * m < 0x1_0000_0000
    ensures DelayTs(frameTs, i) <= DelayTs(frameTs, m) <==> i <= m
  {
    var x, y := frameTs * i, frameTs * m;
    WordsInRange(x);
    WordsInRange(y);
    var z := frameTs * (i / FRAME_TIME);
    assert x == FRAME_TIME * z by {
      assert i == FRAME_TIME * (i / FRAME_TIME);
    }
    assert x <= y <==> i <= m by {
      if i <= m {
        MulMonotone(i, m, frameTs);
      } else {
        MulGap(frameTs, m, i);
      }
    }
  }

  lemma EffectiveDelays(c: Config)
    requires c.initialDelay < 0x7FFF_FFF0
    ensures Effective(c).initialDelay % FRAME_TIME == 0
    ensures Effective(c).maxDelay == Validated(c).maxDelay
    ensures c.initialDelay % FRAME_TIME == 0 ==> Effective(c).initialDelay == c.initialDelay <= Validated(c).maxDelay
  {
    var i := c.initialDelay;
    assert i + FRAME_TIME - i % FRAME_TIME == FRAME_TIME * (i / FRAME_TIME + 1);
    WordsInRange(FRAME_TIME * (i / FRAME_TIME + 1));
    WordsInRange(2 * i);
  }

  /** The delays a buffer works with: the initial one in whole frames, rounded up; and the maximal one as given, 600 ms if
      it is not given, or twice the initial one if it is below that. */
  lemma EffectiveExactly(c: Config)
    requires c.initialDelay < 0x7FFF_FFF0
    ensures var e := Effective(c);
            && e.initialDelay == (c.initialDelay + 9) / 10 * 10
            && e.maxDelay == (if c.maxDelay < c.initialDelay then 2 * c.initialDelay
                              else if c.maxDelay == 0 then 600 else c.maxDelay)
            && e.adaptive == c.adaptive && e.skewDetection == c.skewDetection
  {
    EffectiveDelays(c);
    WordsInRange(2 * c.initialDelay);
  }

  /** Rounding the initial delay up to whole frames keeps it within the maximum. */
  predicate RoundsWithinMaximum(c: Config) {
    || c.initialDelay % FRAME_TIME == 0
    || (if c.maxDelay < c.initialDelay then c.initialDelay >= FRAME_TIME / 2
        else c.initialDelay + FRAME_TIME - c.initialDelay % FRAME_TIME <= c.maxDelay)
  }

  lemma RoundedWithin(c: Config)
    requires c.initialDelay < 0x7FFF_FFF0
    ensures Effective(c).initialDelay <= Effective(c).maxDelay <==> RoundsWithinMaximum(c)
  {
    var i := c.initialDelay;
    EffectiveDelays(c);
    assert i + FRAME_TIME - i % FRAME_TIME == FRAME_TIME * (i / FRAME_TIME + 1);
    WordsInRange(FRAME_TIME * (i / FRAME_TIME + 1));
    WordsInRange(2 * i);
  }

  /** The initial playout delay respects the maximum exactly when the given delays allow for the rounding. */
  lemma InitialDelayBounded(c: Config, frameTs: u32)
    requires frameTs > 0 && DelaysFit(c, frameTs)
    ensures DelayTs(frameTs, Effective(c).initialDelay) <= DelayTs(frameTs, Effective(c).maxDelay) <==> RoundsWithinMaximum(c)
  {
    var i, m := Effective(c).initialDelay, Effective(c).maxDelay;
    assert i % FRAME_TIME == 0 by {
      EffectiveDelays(c);
    }
    assert i <= m <==> RoundsWithinMaximum(c) by {
      RoundedWithin(c);
    }
    DelayOrder(frameTs, i, m);
  }

  /** A 95 ms initial delay with a 96 ms maximum is rounded to 100 ms. */
  lemma RoundingCanExceedMaximum()
    ensures var c := Config(0, 95, 96, true, true);
            DelayTs(80, Effective(c).initialDelay) > DelayTs(80, Effective(c).maxDelay)
  {
  }

  /** There is at least one frame exactly when the maximum is one frame or more, is left to the default, or is
      replaced by twice an initial delay of at least half a frame. */
  lemma HasFramesExactly(c: Config)
    requires c.initialDelay < 0x7FFF_FFF0
    ensures Effective(c).maxDelay / FRAME_TIME > 0
            <==> if c.maxDelay < c.initialDelay then c.initialDelay >= FRAME_TIME / 2
                 else c.maxDelay == 0 || c.maxDelay >= FRAME_TIME
  {
    EffectiveDelays(c);
    WordsInRange(2 * c.initialDelay);
  }

  // ----- the state -----

  /** What a buffer is created with. */
  datatype Setup = Setup(frameTs: u32, frameSize: nat, capacity: nat, initialTs: u32, maxTs: u32,
                         adaptive: bool, skewDetection: bool)
  {
    predicate Valid() {
      frameTs > 0 && 0 < capacity < 0x1_0000_0000
    }
  }

  function SetupOf(c: Config, frameTs: u32, frameSize: nat): Setup {
    var e := Effective(c);
    Setup(frameTs, frameSize, e.maxDelay / FRAME_TIME, DelayTs(frameTs, e.initialDelay), DelayTs(frameTs, e.maxDelay),
          e.adaptive, e.skewDetection)
  }

  /** The fields that change, except for the frames; `update` is the event that updates refer to. */
  datatype Clock = Clock(sync: bool, offset: i32, write: u32, read: u32, delay: u32, low: i32, high: i32, count: u32,
                         base: NamedEvent, baseTs: u32, update: Option<NamedEvent>)

  function NewClock(p: Setup): Clock {
    Clock(true, 0, 0, 0, p.initialTs, 0, 0, 0, NoEvent, 0, None)
  }

  /** Signed division by two, toward zero. */
  function Half(x: int): int {
    if x >= 0 then x / 2 else -((-x) / 2)
  }

  function Mean(low: i32, high: i32): i32 {
    I32(low + Half(I32(high - low)))
  }

  /** The bounds of the length start over from their mean. */
  function StartedOver(k: Clock): Clock {
    k.(low := Mean(k.low, k.high), high := Mean(k.low, k.high), count := 0)
  }

  /** One measurement of the length of the buffer, starting over after 50. */
  function Measured(k: Clock): Clock {
    var k := if k.count == 50 then StartedOver(k) else k;
    var length := I32(k.write - k.read);
    var k := if length > k.high then k.(high := length) else if length < k.low then k.(low := length) else k;
    k.(count := U32(k.count + 1))
  }

  /** A measurement keeps the bounds ordered, and they enclose the current length. */
  lemma MeasuredEncloses(k: Clock)
    requires k.low <= k.high
    ensures var m := Measured(k); m.low <= I32(k.write - k.read) <= m.high && (k.count == 50 ==> m.count == 1)
    ensures k.count < 50 ==> Measured(k).count == k.count + 1
  {
  }

  /** A marker resynchronises an empty buffer. */
  function Marked(k: Clock, marker: bool): Clock {
    if marker && k.write <= k.read then k.(sync := true) else k
  }

  /** A synchronising packet sets the offset and starts the statistics over. */
  function Synced(p: Setup, k: Clock, ts: u32): Clock {
    if !k.sync then k
    else
      var k := k.(offset := I32(ts - k.read), sync := false);
      if p.skewDetection then k.(low := I32(k.delay), high := I32(k.delay), count := 0) else k
  }

  function Raw(k: Clock, ts: u32): u32 {
    U32(ts - k.offset + k.delay)
  }

  /** Position of a packet before any adjustment. */
  function Position(p: Setup, k: Clock, ts: u32): u32
    requires p.Valid()
  {
    AlignDown(Raw(k, ts), p.frameTs)
  }

  /** A synchronising packet is placed exactly the playout delay ahead of the reader, whatever its timestamp, and lengths
      are measured anew from the delay on. */
  lemma SyncPosition(p: Setup, k: Clock, ts: u32)
    requires p.Valid() && k.sync && k.read + k.delay < 0x1_0000_0000
    ensures Position(p, Synced(p, k, ts), ts) == AlignDown(k.read + k.delay, p.frameTs)
    ensures p.skewDetection ==> var k' := Synced(p, k, ts); k'.low == k'.high == I32(k.delay) && k'.count == 0
  {
    WrapOffset(ts, k.read, k.delay);
  }

  // ----- late packets -----

  /** The adjustment for a late packet, widened to what the spread of lengths asks for beyond the playout delay. */
  function Widened(p: Setup, k: Clock, delta: u32): u32
    requires p.Valid()
  {
    var spread := U32(k.high - k.low);
    if spread > U32(k.delay + delta) then AlignDown(U32(spread - k.delay), p.frameTs) else delta
  }

  datatype Adjustment = Adjustment(clock: Clock, at: u32, delta: u32)

  /** The offset moves back and the statistics forward. */
  function Shifted(k: Clock, skew: u32): Clock {
    k.(offset := I32(k.offset - skew), low := I32(k.low + skew), high := I32(k.high + skew))
  }

  /** A skew shows when the buffer was never filled up to the playout delay; it moves packet and statistics. */
  function Skewed(p: Setup, k: Clock, ts: u32, early: u32, delta: u32): Adjustment
    requires p.Valid()
  {
    if !(0 < k.high < k.delay) then Adjustment(k, early, delta)
    else
      var skew := AlignDown(k.delay - k.high, p.frameTs);
      var k := Shifted(k, skew);
      Adjustment(k, Raw(k, ts), if skew < delta then delta - skew else 0)
  }

  function Adjusted(p: Setup, k: Clock, ts: u32, early: u32): Adjustment
    requires p.Valid()
  {
    var delta := U32(k.read - early);
    if p.skewDetection then Skewed(p, k, ts, early, Widened(p, k, delta)) else Adjustment(k, early, delta)
  }

  datatype Located = Located(clock: Clock, at: Option<u32>)

  /** What is left of the adjustment makes the playout delay longer, if that is allowed. */
  function Extended(p: Setup, a: Adjustment): Located {
    var k := a.clock;
    if a.delta == 0 then Located(k, Some(a.at))
    else if !p.adaptive || U32(k.delay + a.delta) > p.maxTs then Located(k, None)
    else
      var k := k.(delay := U32(k.delay + a.delta));
      var k := if p.skewDetection then k.(low := I32(k.low + a.delta), high := I32(k.high + a.delta)) else k;
      Located(k, Some(U32(a.at + a.delta)))
  }

  /** Where an audio packet goes, if anywhere. */
  function Locate(p: Setup, k: Clock, ts: u32, marker: bool): Located
    requires p.Valid()
  {
    var k := Synced(p, Marked(k, marker), ts);
    var at := Position(p, k, ts);
    if at >= k.read then Located(k, Some(at))
    else if at < k.write then Located(k, None)
    else Extended(p, Adjusted(p, k, ts, at))
  }

  // ----- the whole buffer -----

  /** The complete frames of a payload (default dissector of mpf_codec.h). */
  function Chunks(data: seq<byte>, size: nat): seq<seq<byte>>
    decreases |data|
  {
    if size == 0 || |data| < size then [] else [data[..size]] + Chunks(data[size..], size)
  }

  /** The buffer, every placement so far, and every frame read so far. */
  datatype World = World(clock: Clock, ring: seq<Slot>, log: seq<Placement>, frames: seq<Content>)

  function EmptyRing(n: nat): (ring: seq<Slot>)
    ensures |ring| == n && forall i :: 0 <= i < n ==> ring[i] == Slot(false, false, NoMarker, [], NoEvent)
  {
    seq(n, _ => Slot(false, false, NoMarker, [], NoEvent))
  }

  function Start(p: Setup): World {
    World(NewClock(p), EmptyRing(p.capacity), [], [])
  }

  /** Frames between the reader and a position. */
  function Distance(p: Setup, k: Clock, at: u32): nat
    requires p.Valid()
  {
    Steps(U32(at - k.read), p.frameTs)
  }

  /** The frames of a packet that are placed from `at` on. */
  function Placed(p: Setup, k: Clock, at: u32, data: seq<byte>): seq<seq<byte>>
    requires p.Valid()
  {
    Admitted(p.capacity, Distance(p, k, at), Chunks(data, p.frameSize))
  }

  /** The timestamp after n frames, in 32 bits. */
  function EndOf(at: u32, frameTs: u32, n: nat): u32
    decreases n
  {
    if n == 0 then at else EndOf(U32(at + frameTs), frameTs, n - 1)
  }

  function Later(a: u32, b: u32): u32 {
    if b > a then b else a
  }

  function Outcome(p: Setup, l: Located): Result
    requires p.Valid()
  {
    if l.at.None? then TooLate
    else if Available(p.capacity, Distance(p, l.clock, l.at.value)) == 0 then TooEarly
    else Ok
  }

  /** Places the frames of a located packet. */
  function Placing(p: Setup, w: World, l: Located, data: seq<byte>): World
    requires p.Valid() && |w.ring| == p.capacity
  {
    if Outcome(p, l) != Ok then w.(clock := l.clock)
    else
      var at := l.at.value;
      var placed := Placed(p, l.clock, at, data);
      World(l.clock.(write := Later(l.clock.write, EndOf(at, p.frameTs, |placed|))),
            PutAudio(w.ring, p.frameTs, at, placed),
            w.log + AudioLog(Steps(at, p.frameTs), placed), w.frames)
  }

  function AudioResult(p: Setup, k: Clock, ts: u32, marker: bool): Result
    requires p.Valid()
  {
    Outcome(p, Locate(p, k, ts, marker))
  }

  function WriteAudio(p: Setup, w: World, data: seq<byte>, ts: u32, marker: bool): World
    requires p.Valid() && |w.ring| == p.capacity
  {
    Placing(p, w, Locate(p, w.clock, ts, marker), data)
  }

  // ----- events -----

  datatype Classified = Classified(clock: Clock, opens: bool, ignored: bool, at: u32)

  /** A marker, another event, no event to update, or a gap of more than four frames. */
  predicate Opens(p: Setup, k: Clock, ev: NamedEvent, pos: u32, marker: bool) {
    || marker || k.base.id != ev.id || k.update.None?
    || (k.baseTs != pos && pos > U32(k.baseTs + k.update.value.duration + 4 * p.frameTs))
  }

  /** A shorter update is from the past; an equal one counts only if it is the first to end the event. */
  predicate NothingNew(ev: NamedEvent, last: NamedEvent) {
    ev.duration < last.duration || (ev.duration == last.duration && (last.edge || last.edge == ev.edge))
  }

  /** An event opens, starts a new segment or updates; updates go where the last one ended. */
  function Classify(p: Setup, k: Clock, ev: NamedEvent, pos: u32, marker: bool): Classified {
    var anew := k.(base := ev, baseTs := pos, update := Some(ev));
    if Opens(p, k, ev, pos, marker) then Classified(anew, true, false, pos)
    else
      var k := if k.baseTs != pos then anew else k;
      Classified(k, false, NothingNew(ev, k.update.value), U32(pos + k.update.value.duration))
  }

  /** A new segment of an event is compared with itself, and so is always ignored. */
  lemma SegmentIsIgnored(p: Setup, k: Clock, ev: NamedEvent, pos: u32)
    requires !Opens(p, k, ev, pos, false) && k.baseTs != pos
    ensures var c := Classify(p, k, ev, pos, false);
            c.ignored && c.clock.base == ev && c.clock.baseTs == pos && c.clock.update == Some(ev)
  {
  }

  /** A late event moves to the reader by a longer playout delay; an event outside the window is refused. */
  function PlaceEvent(p: Setup, k: Clock, pos: u32, opens: bool): Located
    requires p.Valid()
  {
    if pos >= k.read then Located(k, if Distance(p, k, pos) >= p.capacity then None else Some(pos))
    else
      var delta := k.read - pos;
      if !p.adaptive || U32(k.delay + delta) > p.maxTs then Located(k, None)
      else Located(k.(delay := U32(k.delay + delta), baseTs := if opens then k.read else k.baseTs), Some(k.read))
  }

  function MarkOf(ev: NamedEvent, opens: bool): Option<Marker> {
    if opens then Some(StartOfEvent) else if ev.edge then Some(EndOfEvent) else None
  }

  function EventSlot(s: Slot, ev: NamedEvent, mark: Option<Marker>): Slot {
    s.(ev := ev, event := true, marker := if mark.Some? then mark.value else s.marker)
  }

  /** A synchronised and classified event. */
  function Prepared(p: Setup, k: Clock, ev: NamedEvent, ts: u32, marker: bool): Classified
    requires p.Valid()
  {
    var k := Synced(p, k, ts);
    Classify(p, k, ev, Position(p, k, ts), marker)
  }

  /** Stores a located event. */
  function Storing(p: Setup, w: World, l: Located, ev: NamedEvent, mark: Option<Marker>): World
    requires p.Valid() && |w.ring| == p.capacity
  {
    if l.at.None? then w.(clock := l.clock)
    else
      var at := l.at.value;
      var i := SlotOf(at, p.frameTs, p.capacity);
      World(l.clock.(update := Some(ev), write := Later(l.clock.write, U32(at + p.frameTs))),
            w.ring[i := EventSlot(w.ring[i], ev, mark)],
            w.log + [EventAt(Steps(at, p.frameTs), ev, mark)], w.frames)
  }

  function EventResult(p: Setup, k: Clock, ev: NamedEvent, ts: u32, marker: bool): Result
    requires p.Valid()
  {
    var c := Prepared(p, k, ev, ts, marker);
    if c.ignored || PlaceEvent(p, c.clock, c.at, c.opens).at.Some? then Ok
    else if c.at < c.clock.read then TooLate
    else TooEarly
  }

  function WriteEvent(p: Setup, w: World, ev: NamedEvent, ts: u32, marker: bool): World
    requires p.Valid() && |w.ring| == p.capacity
  {
    var c := Prepared(p, w.clock, ev, ts, marker);
    if c.ignored then w.(clock := c.clock)
    else Storing(p, w, PlaceEvent(p, c.clock, c.at, c.opens), ev, MarkOf(ev, c.opens))
  }

  /** So an unmarked event at another position, within the threshold of the one before, leaves no trace in the ring. */
  lemma SegmentLeavesNoTrace(p: Setup, w: World, ev: NamedEvent, ts: u32)
    requires p.Valid() && |w.ring| == p.capacity
    requires var k := Synced(p, w.clock, ts);
             k.baseTs != Position(p, k, ts) && !Opens(p, k, ev, Position(p, k, ts), false)
    ensures var w' := WriteEvent(p, w, ev, ts, false); w'.ring == w.ring && w'.log == w.log && w'.clock.write == w.clock.write
  {
    var k := Synced(p, w.clock, ts);
    SegmentIsIgnored(p, k, ev, Position(p, k, ts));
  }

  // ----- reading and restarting -----

  /** The reader moves on by one frame, and the length is measured. */
  function Advanced(p: Setup, k: Clock): Clock {
    var k := k.(read := U32(k.read + p.frameTs));
    if p.skewDetection then Measured(k) else k
  }

  function ReadFrame(p: Setup, w: World): World
    requires p.Valid() && |w.ring| == p.capacity
  {
    var k, i := w.clock, SlotOf(w.clock.read, p.frameTs, p.capacity);
    var frame := if k.write > k.read then View(w.ring[i]) else Silence;
    World(Advanced(p, k),
          w.ring[i := w.ring[i].(audio := false, event := false, marker := NoMarker)],
          w.log, w.frames + [frame])
  }

  /** A restart forgets the offset and the current event, but not the frames. */
  function Restarted(p: Setup, k: Clock): Clock {
    k.(sync := true, offset := 0, write := k.read, baseTs := 0, base := NoEvent, update := None,
       delay := if p.adaptive && k.delay == p.maxTs then p.initialTs else k.delay)
  }

  datatype Action =
    | Audio(data: seq<byte>, ts: u32, marker: bool)
    | Event(ev: NamedEvent, ts: u32, marker: bool)
    | Fetch
    | Restart

  function Step(p: Setup, w: World, a: Action): (w': World)
    requires p.Valid() && |w.ring| == p.capacity
    ensures |w'.ring| == p.capacity
  {
    match a
    case Audio(data, ts, marker) => WriteAudio(p, w, data, ts, marker)
    case Event(ev, ts, marker) => WriteEvent(p, w, ev, ts, marker)
    case Fetch => ReadFrame(p, w)
    case Restart => w.(clock := Restarted(p, w.clock))
  }

  function Run(p: Setup, w: World, actions: seq<Action>): (w': World)
    requires p.Valid() && |w.ring| == p.capacity
    ensures |w'.ring| == p.capacity
    decreases |actions|
  {
    if actions == [] then w else Run(p, Step(p, w, actions[0]), actions[1..])
  }
}
