/** Delays and statistics of the jitter buffer stay within their bounds in every run, and so runs near the reader stay in
    reach of the ring. */
module JitterDelays {
  import opened Common
  import opened FrameRing
  import opened JitterModel
  import opened JitterRing

  /** The time up to which lengths fit a signed 32-bit word. */
  const TIME_BOUND := 0x7000_0000

  const DELAY_BOUND := 0x0400_0000

  /** How far ahead of the reader the write position can be. */
  function Ahead(p: Setup): nat {
    p.maxTs + p.frameTs
  }

  /** Delays in order and small against the time bound, and as many frames as fit the maximal delay. */
  predicate Moderate(p: Setup) {
    && p.Valid() && p.initialTs <= p.maxTs && Ahead(p) <= DELAY_BOUND
    && After(0, p.frameTs, p.capacity) <= p.maxTs < After(0, p.frameTs, p.capacity + 1)
  }

  /** Whole frames do not exceed the delay they are counted from, and one more does. */
  lemma FramesFit(m: nat, frameTs: nat)
    requires frameTs > 0
    ensures After(0, frameTs, m / FRAME_TIME) <= frameTs * m / FRAME_TIME < After(0, frameTs, m / FRAME_TIME + 1)
  {
    var n := m / FRAME_TIME;
    var x, y, z := n * frameTs, frameTs * m, (n + 1) * frameTs;
    AfterIsSum(0, frameTs, n);
    AfterIsSum(0, frameTs, n + 1);
    assert FRAME_TIME * x <= y by {
      MulMonotone(FRAME_TIME * n, m, frameTs);
      assert FRAME_TIME * n * frameTs == FRAME_TIME * x;
    }
    assert y < FRAME_TIME * z by {
      MulGap(frameTs, m, FRAME_TIME * (n + 1));
      assert frameTs * (FRAME_TIME * (n + 1)) == FRAME_TIME * z;
    }
  }

  /** A new buffer is moderate if its delays are. */
  lemma SetupModerate(c: Config, frameTs: u32, frameSize: nat)
    requires frameTs > 0 && DelaysFit(c, frameTs) && RoundsWithinMaximum(c) && Effective(c).maxDelay >= FRAME_TIME
    requires DelayTs(frameTs, Effective(c).maxDelay) + frameTs <= DELAY_BOUND
    ensures Moderate(SetupOf(c, frameTs, frameSize))
  {
    var m := Effective(c).maxDelay;
    InitialDelayBounded(c, frameTs);
    FramesFit(m, frameTs);
    WordsInRange(frameTs * m);
  }

  /** Holds in every run: the playout delay is between the initial and the maximal one and the bounds of the length are
      ordered.  Once synchronised, and while the write position is below the time bound, no bound of the length can
      overflow: this is when the statistics are used, since a late packet is only considered with the write position
      behind it. */
  ghost predicate Bounded(p: Setup, k: Clock) {
    && p.initialTs <= k.delay <= p.maxTs && k.low <= k.high && k.read <= TIME_BOUND
    && (k.sync || !p.skewDetection || k.write > TIME_BOUND || Measurable(k))
  }

  predicate Measurable(k: Clock) {
    k.low + k.read >= 0 && k.high <= k.write + k.delay && k.high - k.low <= TIME_BOUND + k.delay
  }

  lemma MeanBetween(low: i32, high: i32)
    requires low <= high && high - low < 0x8000_0000
    ensures low <= Mean(low, high) <= high && low + high - 1 <= 2 * Mean(low, high) <= low + high + 1
  {
    WordsInRange(high - low);
    WordsInRange(low + Half(high - low));
  }

  lemma StartedOverBounded(p: Setup, k: Clock)
    requires Moderate(p) && Bounded(p, k)
    ensures Bounded(p, StartedOver(k))
  {
    if Measurable(k) {
      MeanBetween(k.low, k.high);
    }
  }

  lemma MeasuredBounded(p: Setup, k: Clock)
    requires Moderate(p) && Bounded(p, k)
    ensures Bounded(p, Measured(k)) && Measured(k).low <= I32(k.write - k.read) <= Measured(k).high
  {
    MeasuredEncloses(k);
    StartedOverBounded(p, k);
    if k.write <= TIME_BOUND {
      WordsInRange(k.write - k.read);
    }
  }

  lemma SyncedBounded(p: Setup, k: Clock, ts: u32)
    requires Moderate(p) && Bounded(p, k)
    ensures Bounded(p, Synced(p, k, ts)) && !Synced(p, k, ts).sync
  {
    WordsInRange(k.delay);
  }

  /** The adjustment for a late packet only grows. */
  lemma WidenedAbove(p: Setup, k: Clock, delta: u32)
    requires Moderate(p) && k.low <= k.high && k.delay <= p.maxTs && Measurable(k)
    requires Aligned(delta, p.frameTs) && delta <= TIME_BOUND
    ensures delta <= Widened(p, k, delta) <= TIME_BOUND
  {
    var spread := k.high - k.low;
    if spread > k.delay + delta {
      AlignDownAbove(delta, spread - k.delay, p.frameTs);
    }
  }

  lemma ShiftedBounded(p: Setup, k: Clock, skew: u32)
    requires Moderate(p) && Bounded(p, k) && Measurable(k) && 0 < k.high && k.high + skew <= k.delay
    ensures Bounded(p, Shifted(k, skew)) && Measurable(Shifted(k, skew))
  {
    WordsInRange(k.low + skew);
    WordsInRange(k.high + skew);
  }

  lemma SkewedLands(p: Setup, k: Clock, ts: u32, early: u32, delta: u32)
    requires Moderate(p) && Bounded(p, k) && Measurable(k) && !k.sync
    requires early <= Raw(k, ts) < early + p.frameTs <= k.read && k.read <= early + delta
    ensures var a := Skewed(p, k, ts, early, delta);
            && Bounded(p, a.clock) && Measurable(a.clock) && a.clock.read == k.read && a.clock.write == k.write
            && a.clock.delay == k.delay && a.clock.sync == k.sync
            && k.read <= a.at + a.delta && a.at < k.read + k.delay && a.delta <= delta
  {
    if 0 < k.high < k.delay {
      var skew := AlignDown(k.delay - k.high, p.frameTs);
      ShiftedBounded(p, k, skew);
      assert Raw(Shifted(k, skew), ts) == Raw(k, ts) + skew by {
        WrapShift(ts, k.offset, k.delay, skew);
      }
    }
  }

  /** What the statistics make of a late packet: it still lands less than the playout delay ahead of the reader, and the
      adjustment that is left brings it to the reader. */
  lemma AdjustedLands(p: Setup, k: Clock, ts: u32, early: u32)
    requires Moderate(p) && Bounded(p, k) && !k.sync && k.write <= early
    requires early <= Raw(k, ts) < early + p.frameTs <= k.read && Aligned(k.read - early, p.frameTs)
    ensures var a := Adjusted(p, k, ts, early);
            && Bounded(p, a.clock) && (p.skewDetection ==> Measurable(a.clock)) && a.clock.read == k.read
            && a.clock.write == k.write && a.clock.delay == k.delay && a.clock.sync == k.sync
            && k.read <= a.at + a.delta && a.at < k.read + k.delay && a.delta <= TIME_BOUND
            && (!p.skewDetection ==> a == Adjustment(k, early, k.read - early))
  {
    if p.skewDetection {
      WidenedAbove(p, k, k.read - early);
      SkewedLands(p, k, ts, early, Widened(p, k, k.read - early));
    }
  }

  lemma ExtendedLands(p: Setup, a: Adjustment)
    requires Moderate(p) && Bounded(p, a.clock) && !a.clock.sync && (p.skewDetection ==> Measurable(a.clock))
    requires a.clock.read <= a.at + a.delta && a.at < a.clock.read + a.clock.delay && a.delta <= TIME_BOUND
    requires a.clock.write <= TIME_BOUND
    ensures var l := Extended(p, a);
            && Bounded(p, l.clock) && l.clock.read == a.clock.read
            && (l.at.Some? <==> a.delta == 0 || (p.adaptive && a.clock.delay + a.delta <= p.maxTs))
            && (l.at.Some? ==> a.clock.read <= l.at.value == a.at + a.delta < a.clock.read + p.maxTs)
            && (l.at.Some? ==> l.clock.delay == a.clock.delay + a.delta)
  {
    var k := a.clock;
    WordsInRange(k.delay + a.delta);
    WordsInRange(a.at + a.delta);
    if p.skewDetection && k.delay + a.delta <= p.maxTs {
      WordsInRange(k.low + a.delta);
      WordsInRange(k.high + a.delta);
    }
  }

  /** An accepted late packet lands in front of the reader, less than the maximal delay ahead.  Without skew detection
      it is accepted exactly if the buffer is adaptive and has room, and then it lands at the reader. */
  lemma LateLands(p: Setup, k: Clock, ts: u32, early: u32)
    requires Moderate(p) && Bounded(p, k) && !k.sync && k.write <= early
    requires early <= Raw(k, ts) < early + p.frameTs <= k.read && Aligned(k.read - early, p.frameTs)
    ensures var l := Extended(p, Adjusted(p, k, ts, early));
            && Bounded(p, l.clock) && l.clock.read == k.read
            && (l.at.Some? ==> k.read <= l.at.value < k.read + p.maxTs)
            && (!p.skewDetection ==>
                  && (l.at.Some? <==> p.adaptive && k.delay + (k.read - early) <= p.maxTs)
                  && (l.at.Some? ==> l.at.value == k.read && l.clock.delay == k.delay + (k.read - early)))
  {
    AdjustedLands(p, k, ts, early);
    ExtendedLands(p, Adjusted(p, k, ts, early));
  }

  /** What a late packet does to the delay of a buffer with skew detection.  If the buffer was never filled up to the
      playout delay, the statistics are moved so that they reach it, up to a frame.  Otherwise, if the packet is accepted,
      the new delay is the one that the packet needs, or a longer one that covers the spread of the lengths, up to a frame. */
  lemma LateAdapts(p: Setup, k: Clock, ts: u32, early: u32)
    requires Moderate(p) && Bounded(p, k) && !k.sync && k.write <= early && p.skewDetection
    requires early <= Raw(k, ts) < early + p.frameTs <= k.read && Aligned(k.read - early, p.frameTs)
    ensures var l := Extended(p, Adjusted(p, k, ts, early));
            var needed := k.delay + (k.read - early);
            l.clock.high - l.clock.low == k.high - k.low &&
            if 0 < k.high < k.delay
            then l.clock.delay - p.frameTs < l.clock.high <= l.clock.delay
            else l.at.Some? ==>
                   && l.at.value == early + (l.clock.delay - k.delay)
                   && if k.high - k.low <= needed then l.clock.delay == needed
                      else needed <= l.clock.delay <= k.high - k.low < l.clock.delay + p.frameTs
  {
    var delta := k.read - early;
    var a := Adjusted(p, k, ts, early);
    WidenedAbove(p, k, delta);
    AdjustedLands(p, k, ts, early);
    ExtendedLands(p, a);
    SkewReaches(p, k, ts, early, Widened(p, k, delta));
    ExtendedKeeps(p, a);
  }

  lemma SkewReaches(p: Setup, k: Clock, ts: u32, early: u32, delta: u32)
    requires Moderate(p) && Bounded(p, k) && Measurable(k)
    ensures var a := Skewed(p, k, ts, early, delta);
            && a.clock.high - a.clock.low == k.high - k.low
            && if 0 < k.high < k.delay then k.delay - p.frameTs < a.clock.high <= k.delay
               else a == Adjustment(k, early, delta)
  {
    if 0 < k.high < k.delay {
      var skew := AlignDown(k.delay - k.high, p.frameTs);
      WordsInRange(k.high + skew);
      WordsInRange(k.low + skew);
    }
  }

  /** A longer delay moves the statistics along. */
  lemma ExtendedKeeps(p: Setup, a: Adjustment)
    requires Moderate(p) && Bounded(p, a.clock) && p.skewDetection && Measurable(a.clock) && a.delta <= TIME_BOUND
    requires a.clock.write <= TIME_BOUND
    ensures var k := Extended(p, a).clock;
            k.high - k.delay == a.clock.high - a.clock.delay && k.low - k.delay == a.clock.low - a.clock.delay
  {
    var k := a.clock;
    WordsInRange(k.delay + a.delta);
    WordsInRange(k.high + a.delta);
    WordsInRange(k.low + a.delta);
  }

  /** The position of a packet before any adjustment, with the synchronisation it may cause. */
  function Own(p: Setup, k: Clock, ts: u32, marker: bool): u32
    requires p.Valid()
  {
    Position(p, Synced(p, Marked(k, marker), ts), ts)
  }

  /** Where a packet is placed: on time at its own position, late in front of the reader within the maximal delay. */
  lemma LocateLands(p: Setup, k: Clock, ts: u32, marker: bool)
    requires Moderate(p) && Bounded(p, k) && Aligned(k.read, p.frameTs)
    ensures var l, own := Locate(p, k, ts, marker), Own(p, k, ts, marker);
            && Bounded(p, l.clock) && l.clock.read == k.read
            && (own >= k.read ==> l.at == Some(own))
            && (own < k.read && l.at.Some? ==> k.read <= l.at.value < k.read + p.maxTs)
  {
    var k1 := Synced(p, Marked(k, marker), ts);
    SyncedBounded(p, Marked(k, marker), ts);
    var own := Position(p, k1, ts);
    if k1.write <= own < k1.read {
      AlignedDistance(own, k1.read, p.frameTs);
      LateLands(p, k1, ts, own);
    }
  }

  /** The write position only moves forward. */
  lemma LaterBounded(p: Setup, k: Clock, x: u32)
    requires Bounded(p, k)
    ensures Bounded(p, k.(write := Later(k.write, x)))
  {
  }

  lemma AudioBounded(p: Setup, w: World, data: seq<byte>, ts: u32, marker: bool)
    requires Moderate(p) && Bounded(p, w.clock) && Aligned(w.clock.read, p.frameTs) && |w.ring| == p.capacity
    ensures var k := WriteAudio(p, w, data, ts, marker).clock; Bounded(p, k) && k.read == w.clock.read
  {
    LocateLands(p, w.clock, ts, marker);
    PlacingBounded(p, w, Locate(p, w.clock, ts, marker), data);
  }

  lemma PlacingBounded(p: Setup, w: World, l: Located, data: seq<byte>)
    requires Moderate(p) && Bounded(p, l.clock) && |w.ring| == p.capacity
    ensures var k := Placing(p, w, l, data).clock; Bounded(p, k) && k.read == l.clock.read
  {
    if Outcome(p, l) == Ok {
      LaterBounded(p, l.clock, EndOf(l.at.value, p.frameTs, |Placed(p, l.clock, l.at.value, data)|));
    }
  }

  /** A late event is accepted exactly if the buffer is adaptive and has room, and moves to the reader. */
  lemma PlaceEventLands(p: Setup, k: Clock, pos: u32, opens: bool)
    requires Moderate(p) && Bounded(p, k)
    ensures var l := PlaceEvent(p, k, pos, opens);
            && Bounded(p, l.clock)
            && (l.at.Some? ==> k.read <= l.at.value < k.read + p.maxTs)
            && (pos < k.read ==> (l.at.Some? <==> p.adaptive && k.delay + (k.read - pos) <= p.maxTs))
            && (pos < k.read && l.at.Some? ==> l.at.value == k.read && l.clock.delay == k.delay + (k.read - pos))
  {
    if pos >= k.read {
      StepsBelow(pos - k.read, p.frameTs, p.capacity);
    } else {
      WordsInRange(k.delay + (k.read - pos));
    }
  }

  lemma EventBounded(p: Setup, w: World, ev: NamedEvent, ts: u32, marker: bool)
    requires Moderate(p) && Bounded(p, w.clock) && |w.ring| == p.capacity
    ensures Placeable(p, w, Event(ev, ts, marker))
    ensures var k := WriteEvent(p, w, ev, ts, marker).clock; Bounded(p, k) && k.read == w.clock.read
  {
    var c := Prepared(p, w.clock, ev, ts, marker);
    PreparedBounded(p, w.clock, ev, ts, marker);
    EventFrame(p, w.clock, ev, ts, marker);
    PlaceEventLands(p, c.clock, c.at, c.opens);
    StoringBounded(p, w, PlaceEvent(p, c.clock, c.at, c.opens), ev, MarkOf(ev, c.opens));
  }

  lemma PreparedBounded(p: Setup, k: Clock, ev: NamedEvent, ts: u32, marker: bool)
    requires Moderate(p) && Bounded(p, k)
    ensures Bounded(p, Prepared(p, k, ev, ts, marker).clock)
  {
    SyncedBounded(p, k, ts);
  }

  lemma StoringBounded(p: Setup, w: World, l: Located, ev: NamedEvent, mark: Option<Marker>)
    requires p.Valid() && Bounded(p, l.clock) && |w.ring| == p.capacity
    ensures Bounded(p, Storing(p, w, l, ev, mark).clock) && Storing(p, w, l, ev, mark).clock.read == l.clock.read
  {
    if l.at.Some? {
      LaterBounded(p, l.clock.(update := Some(ev)), U32(l.at.value + p.frameTs));
    }
  }

  lemma FetchBounded(p: Setup, k: Clock)
    requires Moderate(p) && Bounded(p, k) && k.read + p.frameTs <= TIME_BOUND
    ensures Bounded(p, Advanced(p, k)) && Advanced(p, k).read == k.read + p.frameTs
  {
    MeasuredBounded(p, k.(read := k.read + p.frameTs));
  }

  lemma StepBounded(p: Setup, w: World, a: Action)
    requires Moderate(p) && Bounded(p, w.clock) && Aligned(w.clock.read, p.frameTs) && |w.ring| == p.capacity
    requires a.Fetch? ==> w.clock.read + p.frameTs <= TIME_BOUND
    ensures Bounded(p, Step(p, w, a).clock)
    ensures Step(p, w, a).clock.read == w.clock.read + if a.Fetch? then p.frameTs else 0
  {
    match a
    case Audio(data, ts, marker) => AudioBounded(p, w, data, ts, marker);
    case Event(ev, ts, marker) => EventBounded(p, w, ev, ts, marker);
    case Fetch => FetchBounded(p, w.clock);
    case Restart =>
  }

  lemma {:induction false} RunBounded(p: Setup, w: World, actions: seq<Action>)
    requires Moderate(p) && Bounded(p, w.clock) && Aligned(w.clock.read, p.frameTs) && |w.ring| == p.capacity
    requires After(w.clock.read, p.frameTs, Fetches(actions)) <= TIME_BOUND
    ensures var k := Run(p, w, actions).clock; Bounded(p, k) && Aligned(k.read, p.frameTs)
    decreases |actions|
  {
    if actions != [] {
      StepBounded(p, w, actions[0]);
      RunBounded(p, Step(p, w, actions[0]), actions[1..]);
    }
  }

  /** In every run up to the time bound, whatever packets, events, reads and restarts it consists of: the playout delay
      is between the initial and the maximal one, and the bounds of the length are ordered. */
  lemma DelayInEveryRun(p: Setup, actions: seq<Action>)
    requires Moderate(p) && After(0, p.frameTs, Fetches(actions)) <= TIME_BOUND
    ensures var k := Run(p, Start(p), actions).clock; p.initialTs <= k.delay <= p.maxTs && k.low <= k.high
  {
    RunBounded(p, Start(p), actions);
  }

  /** After every such run, a packet on time keeps its position, and a late one that is accepted lands in front of the
      reader, less than the maximal delay ahead. */
  lemma LandsInEveryRun(p: Setup, actions: seq<Action>, ts: u32, marker: bool)
    requires Moderate(p) && After(0, p.frameTs, Fetches(actions)) <= TIME_BOUND
    ensures var k := Run(p, Start(p), actions).clock;
            var l, own := Locate(p, k, ts, marker), Own(p, k, ts, marker);
            && (own >= k.read ==> l.at == Some(own))
            && (own < k.read && l.at.Some? ==> k.read <= l.at.value < k.read + p.maxTs)
  {
    RunBounded(p, Start(p), actions);
    LocateLands(p, Run(p, Start(p), actions).clock, ts, marker);
  }

  lemma AdvancedMeasures(p: Setup, k: Clock)
    requires k.low <= k.high && k.read + p.frameTs < 0x1_0000_0000
    ensures var k' := Advanced(p, k);
            && k'.read == k.read + p.frameTs && k'.write == k.write && k'.delay == k.delay
            && (p.skewDetection ==> k'.low <= I32(k'.write - k'.read) <= k'.high)
  {
    MeasuredEncloses(k.(read := k.read + p.frameTs));
  }

  lemma ReadMeasuresFrom(p: Setup, w: World)
    requires Moderate(p) && |w.ring| == p.capacity && w.clock.low <= w.clock.high && w.clock.read <= TIME_BOUND
    ensures var k, k' := w.clock, ReadFrame(p, w).clock;
            && k'.read == k.read + p.frameTs && k'.write == k.write && k'.delay == k.delay
            && (p.skewDetection ==> k'.low <= I32(k'.write - k'.read) <= k'.high)
  {
    AdvancedMeasures(p, w.clock);
  }

  /** In every such run, a read moves the reader by one frame and measures the length that is left. */
  lemma ReadMeasures(p: Setup, actions: seq<Action>, w: World)
    requires Moderate(p) && After(0, p.frameTs, Fetches(actions)) <= TIME_BOUND && w == Run(p, Start(p), actions)
    ensures var k, k' := w.clock, ReadFrame(p, w).clock;
            && k'.read == k.read + p.frameTs && k'.write == k.write && k'.delay == k.delay
            && (p.skewDetection ==> k'.low <= I32(k'.write - k'.read) <= k'.high)
  {
    RunBounded(p, Start(p), actions);
    ReadMeasuresFrom(p, w);
  }

  // ----- runs near the reader -----

  /** The writer is at most `Ahead` in front of the reader, and so are the lengths that were measured. */
  ghost predicate Calm(p: Setup, k: Clock) {
    && -TIME_BOUND <= k.low <= k.high <= Ahead(p) + p.maxTs
    && (k.sync || !p.skewDetection || k.high <= Ahead(p) + k.delay)
    && k.write <= k.read + Ahead(p)
  }

  lemma MeasuredCalm(p: Setup, k: Clock)
    requires Moderate(p) && Calm(p, k) && k.delay <= p.maxTs && k.read <= TIME_BOUND
    ensures Calm(p, Measured(k))
  {
    MeanBetween(k.low, k.high);
    WordsInRange(k.write - k.read);
  }

  lemma SyncedCalm(p: Setup, k: Clock, ts: u32)
    requires Moderate(p) && Calm(p, k) && k.delay <= p.maxTs
    ensures Calm(p, Synced(p, k, ts))
  {
    WordsInRange(k.delay);
  }

  lemma AdjustedCalm(p: Setup, k: Clock, ts: u32, early: u32)
    requires Moderate(p) && Calm(p, k) && k.delay <= p.maxTs
    ensures Calm(p, Adjusted(p, k, ts, early).clock)
  {
    if p.skewDetection && 0 < k.high < k.delay {
      var skew := AlignDown(k.delay - k.high, p.frameTs);
      WordsInRange(k.low + skew);
      WordsInRange(k.high + skew);
    }
  }

  lemma ExtendedCalm(p: Setup, a: Adjustment)
    requires Moderate(p) && Calm(p, a.clock) && !a.clock.sync && a.clock.delay <= p.maxTs && a.delta <= TIME_BOUND
    ensures Calm(p, Extended(p, a).clock)
  {
    var k := a.clock;
    WordsInRange(k.delay + a.delta);
    if k.delay + a.delta <= p.maxTs {
      WordsInRange(k.low + a.delta);
      WordsInRange(k.high + a.delta);
    }
  }

  lemma LocateCalm(p: Setup, k: Clock, ts: u32, marker: bool)
    requires Moderate(p) && Calm(p, k) && Bounded(p, k) && Aligned(k.read, p.frameTs)
    ensures Calm(p, Locate(p, k, ts, marker).clock)
  {
    var k1 := Synced(p, Marked(k, marker), ts);
    SyncedCalm(p, Marked(k, marker), ts);
    SyncedBounded(p, Marked(k, marker), ts);
    var own := Position(p, k1, ts);
    if k1.write <= own < k1.read {
      AlignedDistance(own, k1.read, p.frameTs);
      AdjustedLands(p, k1, ts, own);
      AdjustedCalm(p, k1, ts, own);
      ExtendedCalm(p, Adjusted(p, k1, ts, own));
    }
  }

  /** What a run has to observe: packets on time are at most capacity frames ahead, and a restart leaves nothing unread. */
  ghost predicate Near(p: Setup, w: World, a: Action)
    requires p.Valid()
  {
    match a
    case Audio(data, ts, marker) =>
      var own := Own(p, w.clock, ts, marker);
      own >= w.clock.read ==> Distance(p, w.clock, own) <= p.capacity
    case Restart => forall q :: q in w.log ==> q.index < Steps(w.clock.read, p.frameTs)
    case _ => true
  }

  ghost predicate NearRun(p: Setup, w: World, actions: seq<Action>)
    requires p.Valid() && |w.ring| == p.capacity
    decreases |actions|
  {
    actions == [] || (Near(p, w, actions[0]) && NearRun(p, Step(p, w, actions[0]), actions[1..]))
  }

  /** Frames placed from a position in reach end less than one frame beyond the maximal delay. */
  lemma PlacedEnd(p: Setup, k: Clock, at: u32, placed: seq<seq<byte>>)
    requires Moderate(p) && k.read <= at && k.read <= TIME_BOUND && Aligned(k.read, p.frameTs)
    requires Steps(at - k.read, p.frameTs) + |placed| <= p.capacity
    ensures After(at, p.frameTs, |placed|) <= k.read + Ahead(p)
  {
    var end := After(at, p.frameTs, |placed|);
    StepsAfter(at, p.frameTs, |placed|);
    StepsFromAligned(at, k.read, p.frameTs);
    StepsFromAligned(end, k.read, p.frameTs);
    StepsBelow(end - k.read, p.frameTs, p.capacity + 1);
    AfterNext(0, p.frameTs, p.capacity);
  }

  lemma PlacingCalm(p: Setup, w: World, l: Located, data: seq<byte>)
    requires Moderate(p) && Calm(p, l.clock) && Aligned(l.clock.read, p.frameTs) && |w.ring| == p.capacity
    requires l.clock.read <= TIME_BOUND
    requires l.at.Some? ==> l.clock.read <= l.at.value && Steps(l.at.value - l.clock.read, p.frameTs) <= p.capacity
    ensures PlacingInReach(p, l, data) && Calm(p, Placing(p, w, l, data).clock)
  {
    if Outcome(p, l) == Ok {
      var k, at := l.clock, l.at.value;
      var placed := Placed(p, k, at, data);
      AdmittedFits(p.capacity, Distance(p, k, at), Chunks(data, p.frameSize));
      PlacedEnd(p, k, at, placed);
      EndIsAfter(at, p.frameTs, |placed|);
    }
  }

  /** A packet that observes `Near` is located at most capacity frames ahead of the reader. */
  lemma LocatedNear(p: Setup, read: u32, own: u32, l: Located)
    requires Moderate(p) && (own >= read ==> l.at == Some(own) && Steps(own - read, p.frameTs) <= p.capacity)
    requires own < read && l.at.Some? ==> read <= l.at.value < read + p.maxTs
    ensures l.at.Some? ==> read <= l.at.value && Steps(l.at.value - read, p.frameTs) <= p.capacity
  {
    if l.at.Some? {
      StepsBelow(l.at.value - read, p.frameTs, p.capacity + 1);
    }
  }

  lemma AudioCalm(p: Setup, w: World, data: seq<byte>, ts: u32, marker: bool)
    requires Moderate(p) && Calm(p, w.clock) && Bounded(p, w.clock) && Aligned(w.clock.read, p.frameTs)
    requires |w.ring| == p.capacity && Near(p, w, Audio(data, ts, marker))
    ensures InReach(p, w, Audio(data, ts, marker)) && Calm(p, WriteAudio(p, w, data, ts, marker).clock)
  {
    LocateLands(p, w.clock, ts, marker);
    LocateCalm(p, w.clock, ts, marker);
    var l := Locate(p, w.clock, ts, marker);
    LocatedNear(p, w.clock.read, Own(p, w.clock, ts, marker), l);
    PlacingCalm(p, w, l, data);
  }

  lemma PlaceEventCalm(p: Setup, k: Clock, pos: u32, opens: bool)
    requires Moderate(p) && Calm(p, k) && Bounded(p, k)
    ensures Calm(p, PlaceEvent(p, k, pos, opens).clock)
  {
    if pos < k.read {
      WordsInRange(k.delay + (k.read - pos));
    }
  }

  lemma EventCalm(p: Setup, w: World, ev: NamedEvent, ts: u32, marker: bool)
    requires Moderate(p) && Calm(p, w.clock) && Bounded(p, w.clock) && |w.ring| == p.capacity
    ensures Calm(p, WriteEvent(p, w, ev, ts, marker).clock)
  {
    var c := Prepared(p, w.clock, ev, ts, marker);
    PreparedCalm(p, w.clock, ev, ts, marker);
    PreparedBounded(p, w.clock, ev, ts, marker);
    PlaceEventCalm(p, c.clock, c.at, c.opens);
    PlaceEventLands(p, c.clock, c.at, c.opens);
    EventFrame(p, w.clock, ev, ts, marker);
    StoringCalm(p, w, PlaceEvent(p, c.clock, c.at, c.opens), ev, MarkOf(ev, c.opens));
  }

  lemma PreparedCalm(p: Setup, k: Clock, ev: NamedEvent, ts: u32, marker: bool)
    requires Moderate(p) && Calm(p, k) && k.delay <= p.maxTs
    ensures Calm(p, Prepared(p, k, ev, ts, marker).clock)
  {
    SyncedCalm(p, k, ts);
  }

  lemma StoringCalm(p: Setup, w: World, l: Located, ev: NamedEvent, mark: Option<Marker>)
    requires Moderate(p) && Calm(p, l.clock) && l.clock.read <= TIME_BOUND && |w.ring| == p.capacity
    requires l.at.Some? ==> l.at.value < l.clock.read + p.maxTs
    ensures Calm(p, Storing(p, w, l, ev, mark).clock)
  {
    if l.at.Some? {
      WordsInRange(l.at.value + p.frameTs);
    }
  }

  lemma FetchCalm(p: Setup, k: Clock)
    requires Moderate(p) && Calm(p, k) && k.delay <= p.maxTs && k.read + p.frameTs <= TIME_BOUND
    ensures Calm(p, Advanced(p, k))
  {
    var k1 := k.(read := k.read + p.frameTs);
    WordsInRange(k.read + p.frameTs);
    assert Advanced(p, k) == if p.skewDetection then Measured(k1) else k1;
    MeasuredCalm(p, k1);
  }

  lemma StepCalm(p: Setup, w: World, a: Action)
    requires Moderate(p) && Calm(p, w.clock) && Bounded(p, w.clock) && Aligned(w.clock.read, p.frameTs)
    requires |w.ring| == p.capacity && Near(p, w, a) && (a.Fetch? ==> w.clock.read + p.frameTs <= TIME_BOUND)
    ensures InReach(p, w, a) && Calm(p, Step(p, w, a).clock)
  {
    match a
    case Audio(data, ts, marker) => AudioCalm(p, w, data, ts, marker);
    case Event(ev, ts, marker) =>
      EventBounded(p, w, ev, ts, marker);
      EventCalm(p, w, ev, ts, marker);
    case Fetch => FetchCalm(p, w.clock);
    case Restart =>
  }

  /** A run near the reader cannot leave the reach of the ring, and keeps the lead of the writer and the lengths small. */
  lemma {:induction false} CalmRun(p: Setup, w: World, actions: seq<Action>)
    requires Moderate(p) && Calm(p, w.clock) && Bounded(p, w.clock) && Aligned(w.clock.read, p.frameTs)
    requires |w.ring| == p.capacity && NearRun(p, w, actions)
    requires After(w.clock.read, p.frameTs, Fetches(actions)) <= TIME_BOUND
    ensures Contained(p, w, actions) && Calm(p, Run(p, w, actions).clock)
    decreases |actions|
  {
    if actions != [] {
      StepBounded(p, w, actions[0]);
      StepCalm(p, w, actions[0]);
      CalmRun(p, Step(p, w, actions[0]), actions[1..]);
    }
  }

  /** Every run from a new buffer, up to the time bound, in which packets on time are at most capacity frames ahead and no
      restart leaves a frame unread: the k-th frame read is what the whole run has last written for index k. */
  lemma PlayedFaithfully(p: Setup, actions: seq<Action>)
    requires Moderate(p) && NearRun(p, Start(p), actions) && After(0, p.frameTs, Fetches(actions)) <= TIME_BOUND
    ensures var w := Run(p, Start(p), actions);
            && |w.frames| == Fetches(actions)
            && (forall k :: 0 <= k < |w.frames| ==> w.frames[k] == LastWritten(w.log, k))
            && p.initialTs <= w.clock.delay <= p.maxTs && w.clock.write <= w.clock.read + Ahead(p)
  {
    CalmRun(p, Start(p), actions);
    RunDelivers(p, actions);
    DelayInEveryRun(p, actions);
  }
}
