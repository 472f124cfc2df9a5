/** Out-of-band DTMF as state machines over values: the generator (libs/mpf/src/mpf_dtmf_generator.c), the detector
    (libs/mpf/src/mpf_dtmf_detector.c) and the event identifiers (libs/mpf/src/mpf_named_event.c; section 2.5.1 of
    RFC 4733).  `Dtmf` proves the objects against them. */
module DtmfModel {
  import opened Common
  import opened FrameRing

  const MAX_EVENT_ID: nat := 15
  const QUEUE_LENGTH: nat := 32
  const BUFFER_LENGTH: nat := 32
  const VOLUME: byte := 10
  const MAX_DURATION: u16 := 0xFFFF

  // ----- event identifiers -----

  function IdOf(c: char): byte {
    if '0' <= c <= '9' then c as int - '0' as int
    else if c == '*' then 10
    else if c == '#' then 11
    else if 'A' <= c <= 'D' then 12 + c as int - 'A' as int
    else 255
  }

  function CharOf(id: nat): char {
    if id <= 9 then ('0' as int + id) as char
    else if id == 10 then '*'
    else if id == 11 then '#'
    else if id <= 15 then ('A' as int + id - 12) as char
    else '\0'
  }

  predicate IsDigit(c: char) {
    IdOf(c) <= MAX_EVENT_ID
  }

  /** The two mappings are inverse to each other, and number the keys as RFC 4733 does. */
  lemma IdsAreInverse(c: char, id: nat)
    ensures IsDigit(c) ==> CharOf(IdOf(c)) == c
    ensures id <= MAX_EVENT_ID ==> IdOf(CharOf(id)) == id && CharOf(id) == "0123456789*#ABCD"[id]
    ensures id > MAX_EVENT_ID ==> CharOf(id) == '\0' && !IsDigit(CharOf(id))
  {
  }

  // ----- the generator -----

  datatype EventFrame = EventFrame(marker: Marker, event: NamedEvent)

  /** Durations of a tone, of the silence after it, and of a frame. */
  datatype Timing = Timing(tone: u32, silence: u32, frame: u32)
  {
    /** The counters of the generator do not overflow. */
    predicate Valid() {
      0 < frame && tone + frame < 0x1_0000_0000 && silence + frame < 0x1_0000_0000 && 3 * frame < 0x1_0000_0000
    }
  }

  datatype Phase = Idle | Tone | Ending | Quiet

  datatype Gen = Gen(queue: seq<char>, phase: Phase, id: byte, counter: u32, duration: u32, segment: bool)

  datatype Emitted = Emitted(gen: Gen, frame: Option<EventFrame>)

  const NewGen := Gen([], Idle, 0, 0, 0, false)

  predicate Fits(g: Gen, digits: seq<char>) {
    |g.queue| + |digits| <= QUEUE_LENGTH
  }

  /** Digits are queued completely or not at all. */
  function Enqueued(g: Gen, digits: seq<char>): Gen {
    if Fits(g, digits) then g.(queue := g.queue + digits) else g
  }

  /** Takes characters from the queue up to the first digit. */
  function Dialled(g: Gen): Gen
    requires g.queue != []
    decreases |g.queue|
  {
    var g := g.(queue := g.queue[1..], id := IdOf(g.queue[0]));
    if g.id <= MAX_EVENT_ID then g.(phase := Tone, counter := 0, duration := 0, segment := false)
    else if g.queue == [] then g
    else Dialled(g)
  }

  function Update(id: byte, marker: Marker, duration: u16): EventFrame {
    EventFrame(marker, NamedEvent(id, VOLUME, false, duration))
  }

  function Final(id: byte, duration: u16): EventFrame {
    EventFrame(EndOfEvent, NamedEvent(id, VOLUME, true, duration))
  }

  function Clipped(d: u32): u16 {
    if d > MAX_DURATION then MAX_DURATION else d
  }

  /** A duration beyond 16 bits closes a segment. */
  function ToneStep(t: Timing, g: Gen): Emitted {
    var c, d := U32(g.counter + t.frame), U32(g.duration + t.frame);
    var rest := if d > MAX_DURATION then 0 else d;
    if c >= t.tone
    then
      Emitted(g.(phase := Ending, counter := 0, duration := rest, segment := g.segment || d > MAX_DURATION),
              Some(Final(g.id, Clipped(d))))
    else
      var marker := if c == t.frame then StartOfEvent else if g.segment then NewSegment else NoMarker;
      var segment := (c == t.frame && g.segment) || d > MAX_DURATION;
      Emitted(g.(counter := c, duration := rest, segment := segment), Some(Update(g.id, marker, Clipped(d))))
  }

  /** The duration of the last packet when it is repeated. */
  function Repeated(g: Gen): u16 {
    if g.segment then MAX_DURATION else U16(g.duration)
  }

  function EndingStep(t: Timing, g: Gen): Emitted {
    var c := U32(g.counter + 1);
    Emitted(if c >= 2 then g.(phase := Quiet, counter := U32(c * t.frame)) else g.(counter := c),
            Some(Final(g.id, Repeated(g))))
  }

  function QuietStep(t: Timing, g: Gen): Emitted {
    var c := U32(g.counter + t.frame);
    Emitted(g.(counter := c, phase := if c >= t.silence then Idle else Quiet), None)
  }

  /** The frame for the next frame time, if there is one. */
  function Put(t: Timing, g: Gen): Emitted {
    var g := if g.phase.Idle? && g.queue != [] then Dialled(g) else g;
    match g.phase
    case Idle => Emitted(g, None)
    case Tone => ToneStep(t, g)
    case Ending => EndingStep(t, g)
    case Quiet => QuietStep(t, g)
  }

  // ----- what a digit is to sound like -----

  /** The number of frames of a tone up to its first end. */
  function Frames(t: Timing): (n: nat)
    requires t.Valid()
    ensures n > 0
  {
    if t.tone == 0 then 1 else Steps(t.tone - 1, t.frame) + 1
  }

  /** The number of frames of a segment: as many as are needed to exceed 16 bits. */
  function SegmentFrames(t: Timing): (m: nat)
    requires t.Valid()
    ensures m > 0
  {
    Steps(MAX_DURATION, t.frame) + 1
  }

  /** The frames of the current segment after j frames of a tone. */
  function InSegment(t: Timing, j: nat): nat
    requires t.Valid()
  {
    Residue(j, SegmentFrames(t))
  }

  lemma DurationFits(t: Timing, k: nat)
    requires t.Valid()
    ensures After(0, t.frame, k) <= MAX_DURATION <==> k < SegmentFrames(t)
  {
    StepsBelow(MAX_DURATION, t.frame, k);
  }

  /** The duration told by the j-th frame: the frames of the segment so far, clipped when they exceed 16 bits. */
  function DurationAt(t: Timing, j: nat): u16
    requires t.Valid()
  {
    DurationFits(t, InSegment(t, j));
    if InSegment(t, j) == 0 then MAX_DURATION else After(0, t.frame, InSegment(t, j))
  }

  /** The j-th frame of a tone, counted from 1, while the tone lasts. */
  function UpdateAt(t: Timing, id: byte, j: nat): EventFrame
    requires t.Valid() && j > 0
  {
    Update(id, if j == 1 then StartOfEvent else if InSegment(t, j - 1) == 0 then NewSegment else NoMarker, DurationAt(t, j))
  }

  /** A segment was closed by the frame before the last one. */
  predicate ClosedBeforeEnd(t: Timing)
    requires t.Valid()
  {
    Frames(t) > 1 && InSegment(t, Frames(t) - 1) == 0
  }

  /** The first end of a tone, ... */
  function FirstEnd(t: Timing, id: byte): EventFrame
    requires t.Valid()
  {
    Final(id, DurationAt(t, Frames(t)))
  }

  /** ... and its two repetitions. */
  function LaterEnd(t: Timing, id: byte): EventFrame
    requires t.Valid()
  {
    Final(id, if ClosedBeforeEnd(t) then MAX_DURATION else DurationAt(t, Frames(t)))
  }

  /** The frames of a tone after its first j. */
  function ToneFrom(t: Timing, id: byte, j: nat): seq<EventFrame>
    requires t.Valid() && j < Frames(t)
    decreases Frames(t) - j
  {
    if j + 1 == Frames(t) then [FirstEnd(t, id), LaterEnd(t, id), LaterEnd(t, id)]
    else [UpdateAt(t, id, j + 1)] + ToneFrom(t, id, j + 1)
  }

  /** A tone by frame number: updates up to its end, and three ends. */
  lemma {:induction false} ToneAt(t: Timing, id: byte, j: nat, i: nat)
    requires t.Valid() && j < Frames(t) && i < Frames(t) - j + 2
    ensures |ToneFrom(t, id, j)| == Frames(t) - j + 2
    ensures ToneFrom(t, id, j)[i] == if i + j + 1 < Frames(t) then UpdateAt(t, id, j + 1 + i)
                                     else if i + j + 1 == Frames(t) then FirstEnd(t, id) else LaterEnd(t, id)
    decreases Frames(t) - j
  {
    if j + 1 < Frames(t) {
      ToneAt(t, id, j + 1, if i == 0 then 0 else i - 1);
    }
  }

  /** The repeated ends tell the duration of the first one exactly if no segment was closed just before, or a frame is
      at least as long as a segment. */
  lemma EndsAgreeExactly(t: Timing, id: byte)
    requires t.Valid()
    ensures LaterEnd(t, id) == FirstEnd(t, id) <==> !ClosedBeforeEnd(t) || t.frame >= MAX_DURATION
  {
    var n, m := Frames(t), SegmentFrames(t);
    if ClosedBeforeEnd(t) {
      ResidueNext(n - 1, m);
      DurationFits(t, 1);
    }
  }

  /** At 8 kHz a tone of 8.21 seconds ends with a packet of 80 units that is repeated as one of 65535. */
  lemma RepeatedEndCanDiffer()
    ensures var t := Timing(65_680, 400, 80);
            t.Valid() && FirstEnd(t, 1) == Final(1, 80) && LaterEnd(t, 1) == Final(1, MAX_DURATION)
  {
    var t := Timing(65_680, 400, 80);
    StepsIsDivision(65_679, 80);
    StepsIsDivision(MAX_DURATION, 80);
    assert Frames(t) == 821 && SegmentFrames(t) == 820;
    assert Residue(820, 820) == 0 && Residue(821, 820) == 1;
    assert After(0, 80, 1) == 80;
  }

  /** The frames of a queue of digits; other characters are skipped. */
  function Tones(t: Timing, digits: seq<char>): seq<EventFrame>
    requires t.Valid()
  {
    if digits == [] then []
    else (if IsDigit(digits[0]) then ToneFrom(t, IdOf(digits[0]), 0) else []) + Tones(t, digits[1..])
  }

  lemma {:induction false} TonesConcat(t: Timing, a: seq<char>, b: seq<char>)
    requires t.Valid()
    ensures Tones(t, a + b) == Tones(t, a) + Tones(t, b)
    decreases |a|
  {
    if a == [] {
      assert a + b == b;
    } else {
      assert (a + b)[0] == a[0] && (a + b)[1..] == a[1..] + b;
      TonesConcat(t, a[1..], b);
      ConcatAssoc(if IsDigit(a[0]) then ToneFrom(t, IdOf(a[0]), 0) else [], Tones(t, a[1..]), Tones(t, b));
    }
  }

  // ----- the generator sends what is pending -----

  /** j frames of the current tone are sent. */
  predicate AtFrame(t: Timing, g: Gen, j: nat)
    requires t.Valid()
  {
    && j < Frames(t) && g.id <= MAX_EVENT_ID && g.counter == After(0, t.frame, j)
    && g.duration == After(0, t.frame, InSegment(t, j)) && (g.segment <==> j > 0 && InSegment(t, j) == 0)
  }

  predicate Sound(t: Timing, g: Gen)
    requires t.Valid()
  {
    && |g.queue| <= QUEUE_LENGTH
    && (g.phase.Tone? ==> AtFrame(t, g, Steps(g.counter, t.frame)))
    && (g.phase.Ending? ==> g.id <= MAX_EVENT_ID && g.counter < 2 && (g.segment || g.duration <= MAX_DURATION))
    && (g.phase.Quiet? ==> g.counter < t.silence || g.counter == 2 * t.frame)
  }

  /** n repeated ends. */
  function Ends(id: byte, duration: u16, n: nat): seq<EventFrame> {
    if n == 0 then [] else [Final(id, duration)] + Ends(id, duration, n - 1)
  }

  /** The frames of the current digit that are still to be sent. */
  function Current(t: Timing, g: Gen): seq<EventFrame>
    requires t.Valid() && Sound(t, g)
  {
    match g.phase
    case Tone => ToneFrom(t, g.id, Steps(g.counter, t.frame))
    case Ending => Ends(g.id, Repeated(g), 2 - g.counter)
    case _ => []
  }

  /** All frames that are still to be sent. */
  function Pending(t: Timing, g: Gen): seq<EventFrame>
    requires t.Valid() && Sound(t, g)
  {
    Current(t, g) + Tones(t, g.queue)
  }

  lemma FramesReached(t: Timing, k: nat)
    requires t.Valid() && k > 0
    ensures After(0, t.frame, k) >= t.tone <==> k >= Frames(t)
  {
    if t.tone > 0 {
      StepsBelow(t.tone - 1, t.frame, k);
    }
  }

  /** The counters after one more frame of a tone. */
  lemma CountersAfter(t: Timing, g: Gen, j: nat)
    requires t.Valid() && AtFrame(t, g, j)
    ensures var c, d := U32(g.counter + t.frame), U32(g.duration + t.frame);
            && c == After(0, t.frame, j + 1) && (c >= t.tone <==> j + 1 == Frames(t)) && (c == t.frame <==> j == 0)
            && d == After(0, t.frame, InSegment(t, j) + 1)
            && (d > MAX_DURATION <==> InSegment(t, j + 1) == 0) && Clipped(d) == DurationAt(t, j + 1)
            && (if d > MAX_DURATION then 0 else d) == After(0, t.frame, InSegment(t, j + 1))
  {
    var r := InSegment(t, j);
    AfterNext(0, t.frame, j);
    AfterNext(0, t.frame, r);
    FramesReached(t, j + 1);
    if j > 0 {
      FramesReached(t, j);
      AfterMonotone(0, t.frame, 1, j);
    }
    DurationFits(t, r);
    DurationFits(t, r + 1);
    ResidueNext(j, SegmentFrames(t));
  }

  lemma ToneStepSends(t: Timing, g: Gen, j: nat)
    requires t.Valid() && |g.queue| <= QUEUE_LENGTH && g.phase.Tone? && AtFrame(t, g, j)
    ensures var e := ToneStep(t, g);
            && e.frame == Some(ToneFrom(t, g.id, j)[0]) && e.gen.id == g.id && e.gen.queue == g.queue
            && (j + 1 < Frames(t) ==> e.gen.phase.Tone? && AtFrame(t, e.gen, j + 1))
            && (j + 1 == Frames(t) ==>
                  && e.gen.phase.Ending? && e.gen.counter == 0 && (e.gen.segment || e.gen.duration <= MAX_DURATION)
                  && Final(g.id, Repeated(e.gen)) == LaterEnd(t, g.id))
  {
    CountersAfter(t, g, j);
    DurationFits(t, InSegment(t, j + 1));
  }

  lemma TwoEnds(id: byte, duration: u16)
    ensures Ends(id, duration, 1) == [Final(id, duration)]
    ensures Ends(id, duration, 2) == [Final(id, duration), Final(id, duration)]
  {
    assert Ends(id, duration, 1) == [Final(id, duration)] + Ends(id, duration, 0);
  }

  lemma ToneStepPending(t: Timing, g: Gen)
    requires t.Valid() && Sound(t, g) && g.phase.Tone?
    ensures var e := ToneStep(t, g);
            Sound(t, e.gen) && e.frame.Some? && Current(t, g) == [e.frame.value] + Current(t, e.gen)
  {
    var j, e := Steps(g.counter, t.frame), ToneStep(t, g);
    ToneStepSends(t, g, j);
    StepsAfter(0, t.frame, j + 1);
    TonePending(t, g, j, e);
  }

  lemma TonePending(t: Timing, g: Gen, j: nat, e: Emitted)
    requires t.Valid() && Sound(t, g) && g.phase.Tone? && j == Steps(g.counter, t.frame) && j < Frames(t)
    requires e.frame == Some(ToneFrom(t, g.id, j)[0]) && e.gen.id == g.id && e.gen.queue == g.queue
    requires Steps(After(0, t.frame, j + 1), t.frame) == j + 1
    requires j + 1 < Frames(t) ==> e.gen.phase.Tone? && AtFrame(t, e.gen, j + 1)
    requires j + 1 == Frames(t) ==>
               && e.gen.phase.Ending? && e.gen.counter == 0 && (e.gen.segment || e.gen.duration <= MAX_DURATION)
               && Final(g.id, Repeated(e.gen)) == LaterEnd(t, g.id)
    ensures Sound(t, e.gen) && Current(t, g) == [e.frame.value] + Current(t, e.gen)
  {
    if j + 1 == Frames(t) {
      TwoEnds(g.id, Repeated(e.gen));
    }
  }

  lemma EndingStepPending(t: Timing, g: Gen)
    requires t.Valid() && Sound(t, g) && g.phase.Ending?
    ensures var e := EndingStep(t, g);
            Sound(t, e.gen) && e.frame.Some? && Current(t, g) == [e.frame.value] + Current(t, e.gen)
  {
    TwoEnds(g.id, Repeated(g));
  }

  lemma {:induction false} DialledPending(t: Timing, g: Gen)
    requires t.Valid() && Sound(t, g) && g.phase.Idle? && g.queue != []
    ensures var d := Dialled(g);
            && Sound(t, d) && |d.queue| < |g.queue| && Pending(t, d) == Pending(t, g)
            && (d.phase.Idle? ==> d.queue == []) && (d.phase.Idle? || d.phase.Tone?)
    decreases |g.queue|
  {
    var rest := g.(queue := g.queue[1..], id := IdOf(g.queue[0]));
    assert Pending(t, g) == Tones(t, g.queue);
    if rest.id <= MAX_EVENT_ID {
      assert InSegment(t, 0) == 0 && AtFrame(t, Dialled(g), 0);
    } else {
      assert Pending(t, rest) == Tones(t, rest.queue) == Tones(t, g.queue);
      if rest.queue != [] {
        DialledPending(t, rest);
      }
    }
  }

  function OneOf<T>(o: Option<T>): seq<T> {
    if o.Some? then [o.value] else []
  }

  /** Every frame sent is the next one pending. */
  lemma PutPending(t: Timing, g: Gen)
    requires t.Valid() && Sound(t, g)
    ensures var e := Put(t, g); Sound(t, e.gen) && Pending(t, g) == OneOf(e.frame) + Pending(t, e.gen)
  {
    var d := if g.phase.Idle? && g.queue != [] then Dialled(g) else g;
    if d != g {
      DialledPending(t, g);
    }
    PutFrom(t, d, Put(t, g));
  }

  lemma PutFrom(t: Timing, g: Gen, e: Emitted)
    requires t.Valid() && Sound(t, g)
    requires e == match g.phase case Idle => Emitted(g, None) case Tone => ToneStep(t, g)
                                case Ending => EndingStep(t, g) case Quiet => QuietStep(t, g)
    ensures Sound(t, e.gen) && Pending(t, g) == OneOf(e.frame) + Pending(t, e.gen)
  {
    match g.phase
    case Idle =>
    case Tone =>
      ToneStepPending(t, g);
      ConcatAssoc([e.frame.value], Current(t, e.gen), Tones(t, g.queue));
    case Ending =>
      EndingStepPending(t, g);
      ConcatAssoc([e.frame.value], Current(t, e.gen), Tones(t, g.queue));
    case Quiet =>
  }

  lemma EnqueuedPending(t: Timing, g: Gen, digits: seq<char>)
    requires t.Valid() && Sound(t, g)
    ensures Sound(t, Enqueued(g, digits))
    ensures Pending(t, Enqueued(g, digits)) == Pending(t, g) + if Fits(g, digits) then Tones(t, digits) else []
  {
    if Fits(g, digits) {
      TonesConcat(t, g.queue, digits);
      ConcatAssoc(Current(t, g), Tones(t, g.queue), Tones(t, digits));
    } else {
      assert Pending(t, g) + [] == Pending(t, g);
    }
  }

  // ----- progress -----

  predicate Sending(g: Gen) {
    g.queue != [] || g.phase.Tone? || g.phase.Ending?
  }

  /** How far the generator is from being ready for the next digit. */
  function Rank(g: Gen): nat {
    match g.phase case Tone => 3 case Ending => 2 case Quiet => 1 case Idle => 0
  }

  function Distance(t: Timing, g: Gen): nat {
    match g.phase
    case Tone => if t.tone > g.counter then t.tone - g.counter else 0
    case Ending => if g.counter < 2 then 2 - g.counter else 0
    case Quiet => if t.silence > g.counter then t.silence - g.counter else 0
    case Idle => 0
  }

  predicate Closer(t: Timing, g: Gen, g': Gen) {
    || |g'.queue| < |g.queue|
    || (|g'.queue| == |g.queue| && Rank(g') < Rank(g))
    || (|g'.queue| == |g.queue| && Rank(g') == Rank(g) && Distance(t, g') < Distance(t, g))
  }

  /** Every frame time brings the generator closer to the end of its queue. */
  lemma PutCloser(t: Timing, g: Gen)
    requires t.Valid() && Sound(t, g) && Sending(g)
    ensures Closer(t, g, Put(t, g).gen)
  {
    if g.phase.Idle? {
      DialledPending(t, g);
    } else if g.phase.Tone? {
      CountersAfter(t, g, Steps(g.counter, t.frame));
      FramesBelow(t, g);
    }
  }

  lemma FramesBelow(t: Timing, g: Gen)
    requires t.Valid() && AtFrame(t, g, Steps(g.counter, t.frame))
    ensures g.counter + t.frame < 0x1_0000_0000
  {
    var j := Steps(g.counter, t.frame);
    if j > 0 {
      FramesReached(t, j);
    }
  }

  // ----- the detector -----

  datatype Det = Det(digits: seq<char>, lost: nat)

  const NewDet := Det([], 0)

  function Added(d: Det, digit: char): Det {
    if digit == '\0' then d
    else if |d.digits| < BUFFER_LENGTH then d.(digits := d.digits + [digit])
    else d.(lost := d.lost + 1)
  }

  /** A digit counts when its event starts. */
  function Heard(d: Det, frame: EventFrame): Det {
    if frame.event.id <= MAX_EVENT_ID && frame.marker == StartOfEvent then Added(d, CharOf(frame.event.id)) else d
  }

  // ----- the digits of frames -----

  function StartOf(frame: EventFrame): seq<char> {
    if frame.event.id <= MAX_EVENT_ID && frame.marker == StartOfEvent then [CharOf(frame.event.id)] else []
  }

  /** The digits whose events start in a sequence of frames. */
  function Starts(frames: seq<EventFrame>): seq<char> {
    if frames == [] then [] else StartOf(frames[0]) + Starts(frames[1..])
  }

  /** The characters that are digits. */
  function Digits(s: seq<char>): seq<char> {
    if s == [] then [] else (if IsDigit(s[0]) then [s[0]] else []) + Digits(s[1..])
  }

  lemma {:induction false} StartsConcat(a: seq<EventFrame>, b: seq<EventFrame>)
    ensures Starts(a + b) == Starts(a) + Starts(b)
    decreases |a|
  {
    if a == [] {
      assert a + b == b;
    } else {
      assert (a + b)[0] == a[0] && (a + b)[1..] == a[1..] + b;
      StartsConcat(a[1..], b);
      ConcatAssoc(StartOf(a[0]), Starts(a[1..]), Starts(b));
    }
  }

  lemma EndsDoNotStart(a: EventFrame, b: EventFrame, c: EventFrame)
    requires a.marker == b.marker == c.marker == EndOfEvent
    ensures Starts([a, b, c]) == []
  {
    assert Starts([c]) == StartOf(c) + Starts([]);
    assert [b, c][1..] == [c] && [a, b, c][1..] == [b, c];
  }

  /** A tone starts its digit once, exactly when it is longer than a frame. */
  lemma {:induction false} ToneStarts(t: Timing, id: byte, j: nat)
    requires t.Valid() && j < Frames(t) && id <= MAX_EVENT_ID
    ensures Starts(ToneFrom(t, id, j)) == if j == 0 && t.tone > t.frame then [CharOf(id)] else []
    decreases Frames(t) - j
  {
    FramesReached(t, 1);
    assert After(0, t.frame, 1) == t.frame;
    if j + 1 == Frames(t) {
      EndsDoNotStart(FirstEnd(t, id), LaterEnd(t, id), LaterEnd(t, id));
    } else {
      ToneStarts(t, id, j + 1);
      assert ToneFrom(t, id, j)[1..] == ToneFrom(t, id, j + 1);
    }
  }

  /** The frames of a queue of digits start exactly those digits, if tones are longer than a frame, ... */
  lemma {:induction false} TonesStart(t: Timing, digits: seq<char>)
    requires t.Valid()
    ensures Starts(Tones(t, digits)) == if t.tone > t.frame then Digits(digits) else []
    decreases |digits|
  {
    if digits != [] {
      TonesStart(t, digits[1..]);
      if IsDigit(digits[0]) {
        IdsAreInverse(digits[0], 0);
        ToneStarts(t, IdOf(digits[0]), 0);
        StartsConcat(ToneFrom(t, IdOf(digits[0]), 0), Tones(t, digits[1..]));
      } else {
        assert [] + Tones(t, digits[1..]) == Tones(t, digits[1..]);
      }
    }
  }

  /** ... and only then, unless there is no digit at all. */
  lemma DigitsArriveExactly(t: Timing, digits: seq<char>)
    requires t.Valid()
    ensures Starts(Tones(t, digits)) == Digits(digits) <==> t.tone > t.frame || Digits(digits) == []
  {
    TonesStart(t, digits);
  }

  lemma {:induction false} DigitsConcat(a: seq<char>, b: seq<char>)
    ensures Digits(a + b) == Digits(a) + Digits(b)
    decreases |a|
  {
    if a == [] {
      assert a + b == b;
    } else {
      assert (a + b)[0] == a[0] && (a + b)[1..] == a[1..] + b;
      DigitsConcat(a[1..], b);
      ConcatAssoc(if IsDigit(a[0]) then [a[0]] else [], Digits(a[1..]), Digits(b));
    }
  }

  lemma {:induction false} DigitsBound(s: seq<char>)
    ensures |Digits(s)| <= |s|
    decreases |s|
  {
    if s != [] {
      DigitsBound(s[1..]);
    }
  }

  // ----- end to end -----

  /** A generator whose frames go to a detector: what was sent in every frame time, and the digits that were queued, that
      arrived and that were read. */
  datatype Link = Link(gen: Gen, det: Det, sent: seq<Option<EventFrame>>,
                       queued: seq<char>, arrived: seq<char>, got: seq<char>)

  const NewLink := Link(NewGen, NewDet, [], [], [], [])

  datatype Action = Queue(digits: seq<char>) | Tick | Read

  function Received(l: Link, frame: Option<EventFrame>): Link {
    var l := l.(sent := l.sent + [frame]);
    if frame.None? then l else l.(det := Heard(l.det, frame.value), arrived := l.arrived + StartOf(frame.value))
  }

  function Step(t: Timing, l: Link, a: Action): Link {
    match a
    case Queue(digits) => l.(gen := Enqueued(l.gen, digits), queued := l.queued + if Fits(l.gen, digits) then digits else [])
    case Tick => Received(l.(gen := Put(t, l.gen).gen), Put(t, l.gen).frame)
    case Read =>
      if l.det.digits == [] then l
      else l.(det := l.det.(digits := l.det.digits[1..]), got := l.got + [l.det.digits[0]])
  }

  function Run(t: Timing, l: Link, actions: seq<Action>): Link
    decreases |actions|
  {
    if actions == [] then l else Run(t, Step(t, l, actions[0]), actions[1..])
  }

  /** a comes from b by leaving elements out. */
  predicate Subsequence(a: seq<char>, b: seq<char>)
    decreases |b|
  {
    || a == []
    || (b != [] && ((a[|a| - 1] == b[|b| - 1] && Subsequence(a[..|a| - 1], b[..|b| - 1])) || Subsequence(a, b[..|b| - 1])))
  }

  lemma SubsequenceNext(a: seq<char>, b: seq<char>, c: char)
    requires Subsequence(a, b)
    ensures Subsequence(a + [c], b + [c]) && Subsequence(a, b + [c])
  {
    assert (a + [c])[..|a|] == a && (b + [c])[..|b|] == b;
  }

  /** Digits that arrived are read, buffered or lost, in order; nothing is lost before the buffer has been full. */
  ghost predicate Accounted(l: Link) {
    && |l.det.digits| <= BUFFER_LENGTH && |l.arrived| == |l.got| + |l.det.digits| + l.det.lost
    && Subsequence(l.got + l.det.digits, l.arrived)
    && (l.det.lost == 0 ==> l.arrived == l.got + l.det.digits)
    && (l.det.lost > 0 ==> |l.got| + |l.det.digits| >= BUFFER_LENGTH)
  }

  /** Digits that were queued have arrived or are still to come. */
  ghost predicate Conserved(t: Timing, l: Link)
    requires t.Valid()
  {
    && Sound(t, l.gen) && Accounted(l)
    && Digits(l.queued) == l.arrived + Starts(Pending(t, l.gen))
  }

  lemma AddedAccounted(l: Link, c: char)
    requires Accounted(l) && c != '\0'
    ensures Accounted(l.(det := Added(l.det, c), arrived := l.arrived + [c]))
  {
    SubsequenceNext(l.got + l.det.digits, l.arrived, c);
    ConcatAssoc(l.got, l.det.digits, [c]);
  }

  lemma ReceivedAccounted(l: Link, frame: Option<EventFrame>)
    requires Accounted(l)
    ensures Accounted(Received(l, frame))
  {
    if frame.Some? {
      var f := frame.value;
      if f.event.id <= MAX_EVENT_ID && f.marker == StartOfEvent {
        AddedAccounted(l, CharOf(f.event.id));
      } else {
        assert l.arrived + [] == l.arrived;
      }
    }
  }

  lemma ReadAccounted(t: Timing, l: Link)
    requires Accounted(l)
    ensures Accounted(Step(t, l, Read))
  {
    if l.det.digits != [] {
      assert l.det.digits == [l.det.digits[0]] + l.det.digits[1..];
      ConcatAssoc(l.got, [l.det.digits[0]], l.det.digits[1..]);
    }
  }

  lemma QueueConserves(t: Timing, l: Link, digits: seq<char>)
    requires t.Valid() && t.tone > t.frame && Conserved(t, l)
    ensures Conserved(t, Step(t, l, Queue(digits)))
  {
    var before := Pending(t, l.gen);
    EnqueuedPending(t, l.gen, digits);
    if Fits(l.gen, digits) {
      StartsConcat(before, Tones(t, digits));
      TonesStart(t, digits);
      DigitsConcat(l.queued, digits);
      ConcatAssoc(l.arrived, Starts(before), Digits(digits));
    } else {
      assert before + [] == before && l.queued + [] == l.queued;
    }
  }

  lemma TickConserves(t: Timing, l: Link)
    requires t.Valid() && Conserved(t, l)
    ensures Conserved(t, Step(t, l, Tick))
  {
    var e := Put(t, l.gen);
    PutPending(t, l.gen);
    ReceivedAccounted(l.(gen := e.gen), e.frame);
    var rest := Pending(t, e.gen);
    if e.frame.Some? {
      assert Pending(t, l.gen)[0] == e.frame.value && Pending(t, l.gen)[1..] == rest;
      ConcatAssoc(l.arrived, StartOf(e.frame.value), Starts(rest));
    } else {
      assert [] + rest == rest;
    }
  }

  lemma StepConserves(t: Timing, l: Link, a: Action)
    requires t.Valid() && t.tone > t.frame && Conserved(t, l)
    ensures Conserved(t, Step(t, l, a))
  {
    match a
    case Queue(digits) => QueueConserves(t, l, digits);
    case Tick => TickConserves(t, l);
    case Read => ReadAccounted(t, l);
  }

  lemma {:induction false} RunConserves(t: Timing, l: Link, actions: seq<Action>)
    requires t.Valid() && t.tone > t.frame && Conserved(t, l)
    ensures Conserved(t, Run(t, l, actions))
    decreases |actions|
  {
    if actions != [] {
      StepConserves(t, l, actions[0]);
      RunConserves(t, Step(t, l, actions[0]), actions[1..]);
    }
  }

  lemma NewLinkConserved(t: Timing)
    requires t.Valid()
    ensures Conserved(t, NewLink)
  {
    assert Pending(t, NewGen) == [];
  }

  /** The digits of all queues that were accepted in a run. */
  function AcceptedIn(t: Timing, l: Link, actions: seq<Action>): seq<char>
    decreases |actions|
  {
    if actions == [] then []
    else (if actions[0].Queue? && Fits(l.gen, actions[0].digits) then actions[0].digits else []) +
         AcceptedIn(t, Step(t, l, actions[0]), actions[1..])
  }

  lemma {:induction false} QueuedIsAccepted(t: Timing, l: Link, actions: seq<Action>)
    ensures Run(t, l, actions).queued == l.queued + AcceptedIn(t, l, actions)
    decreases |actions|
  {
    if actions == [] {
      assert l.queued + [] == l.queued;
    } else {
      var first := if actions[0].Queue? && Fits(l.gen, actions[0].digits) then actions[0].digits else [];
      QueuedIsAccepted(t, Step(t, l, actions[0]), actions[1..]);
      ConcatAssoc(l.queued, first, AcceptedIn(t, Step(t, l, actions[0]), actions[1..]));
      assert l.queued + [] == l.queued;
    }
  }

  /** In every run, the digits of the queues that were accepted are read, buffered, lost or still to come; what is read
      and buffered is in the order of the queues, and complete if nothing is lost. */
  lemma RunAccounts(t: Timing, actions: seq<Action>)
    requires t.Valid() && t.tone > t.frame
    ensures var l := Run(t, NewLink, actions);
            var queued := Digits(AcceptedIn(t, NewLink, actions));
            && Sound(t, l.gen) && l.arrived + Starts(Pending(t, l.gen)) == queued
            && |queued| == |l.got| + |l.det.digits| + l.det.lost + |Starts(Pending(t, l.gen))|
            && Subsequence(l.got + l.det.digits, l.arrived)
            && (l.det.lost == 0 ==> l.got + l.det.digits == l.arrived)
            && (l.det.lost > 0 ==> |l.got| + |l.det.digits| >= BUFFER_LENGTH)
  {
    NewLinkConserved(t);
    RunConserves(t, NewLink, actions);
    QueuedIsAccepted(t, NewLink, actions);
    assert [] + AcceptedIn(t, NewLink, actions) == AcceptedIn(t, NewLink, actions);
  }
}
