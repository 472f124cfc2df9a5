/** What the DTMF generator sends in every frame time: the packets of a tone by their fields, and when tones follow each
    other. */
module DtmfOnAir {
  import opened Common
  import opened FrameRing
  import opened DtmfModel

  // ----- the packets of a tone -----

  /** The least number of frames that last at least d. */
  function Covering(d: u32, frame: u32): nat
    requires frame > 0
  {
    if d == 0 then 0 else (d - 1) / frame + 1
  }

  /** A tone takes at least one frame. */
  function ToneFrames(t: Timing): nat
    requires t.Valid()
  {
    if t.tone == 0 then 1 else Covering(t.tone, t.frame)
  }

  /** The duration told after j frames: that of the frames of the current segment, or 0xFFFF at its end. */
  function Length(t: Timing, j: nat): int
    requires t.Valid()
  {
    var inSegment := j % (0xFFFF / t.frame + 1);
    if inSegment == 0 then 0xFFFF else inSegment * t.frame
  }

  /** Packet i of a tone.  The end bit and the end marker are set from the frame on that reaches the end of the tone; the
      last packet is sent three times. */
  predicate IsPacket(t: Timing, id: byte, i: nat, f: EventFrame)
    requires t.Valid()
  {
    var n, segment := ToneFrames(t), 0xFFFF / t.frame + 1;
    && f.event.id == id && f.event.volume == 10 && (f.event.edge <==> i + 1 >= n)
    && f.marker == (if i + 1 >= n then EndOfEvent
                    else if i == 0 then StartOfEvent
                    else if i % segment == 0 then NewSegment
                    else NoMarker)
    && f.event.duration == if i + 1 <= n then Length(t, i + 1)
                           else if n > 1 && (n - 1) % segment == 0 then 0xFFFF
                           else Length(t, n)
  }

  lemma FramesNumber(t: Timing)
    requires t.Valid()
    ensures Frames(t) == ToneFrames(t) && SegmentFrames(t) == 0xFFFF / t.frame + 1
  {
    StepsIsDivision(MAX_DURATION, t.frame);
    if t.tone > 0 {
      StepsIsDivision(t.tone - 1, t.frame);
    }
  }

  lemma DurationNumber(t: Timing, j: nat)
    requires t.Valid()
    ensures DurationAt(t, j) == Length(t, j) && InSegment(t, j) == j % (0xFFFF / t.frame + 1)
  {
    FramesNumber(t);
    StepsIsDivision(j, SegmentFrames(t));
    AfterIsSum(0, t.frame, InSegment(t, j));
  }

  /** Every frame of a tone by its fields. */
  lemma ToneShape(t: Timing, id: byte, i: nat)
    requires t.Valid() && i < ToneFrames(t) + 2
    ensures |ToneFrom(t, id, 0)| == ToneFrames(t) + 2 && IsPacket(t, id, i, ToneFrom(t, id, 0)[i])
  {
    var n := ToneFrames(t);
    FramesNumber(t);
    ToneAt(t, id, 0, i);
    DurationNumber(t, i);
    DurationNumber(t, i + 1);
    DurationNumber(t, n);
    DurationNumber(t, n - 1);
  }

  /** In a tone that fits 16 bits, durations grow by a frame up to the whole tone, which is told three times. */
  lemma ShortTone(t: Timing, id: byte, i: nat)
    requires t.Valid() && i < ToneFrames(t) + 2 && ToneFrames(t) * t.frame <= 0xFFFF
    ensures |ToneFrom(t, id, 0)| == ToneFrames(t) + 2
    ensures ToneFrom(t, id, 0)[i].event.duration == t.frame * Min(i + 1, ToneFrames(t))
  {
    var n, segment, j := ToneFrames(t), 0xFFFF / t.frame + 1, Min(i + 1, ToneFrames(t));
    ToneShape(t, id, i);
    FitsSegment(n, t.frame);
    DivUnique(j, segment, 0, j);
    DivUnique(n - 1, segment, 0, n - 1);
  }

  lemma FitsSegment(n: nat, frame: nat)
    requires frame > 0 && n * frame <= 0xFFFF
    ensures n < 0xFFFF / frame + 1
  {
    if n >= 0xFFFF / frame + 1 {
      MulMonotone(0xFFFF / frame + 1, n, frame);
    }
  }

  // ----- when tones follow each other -----

  /** The frame times without a packet after a tone: two frames of the silence are spent on repeating the last packet,
      and the next digit takes one more frame time to be noticed. */
  function Pause(t: Timing): nat
    requires t.Valid()
  {
    if Covering(t.silence, t.frame) <= 3 then 1 else Covering(t.silence, t.frame) - 2
  }

  function Period(t: Timing): (p: nat)
    requires t.Valid()
    ensures p > ToneFrames(t) + 2
  {
    ToneFrames(t) + 2 + Pause(t)
  }

  lemma Covers(t: Timing, d: u32, k: nat)
    requires t.Valid()
    ensures After(0, t.frame, k) >= d <==> k >= Covering(d, t.frame)
  {
    if d > 0 {
      StepsIsDivision(d - 1, t.frame);
      StepsBelow(d - 1, t.frame, k);
    }
  }

  /** The generator is in frame time q of the first of `digits`, and the others are queued. */
  ghost predicate At(t: Timing, g: Gen, digits: seq<char>, q: nat)
    requires t.Valid()
  {
    var n := ToneFrames(t);
    if q == 0 then g.phase.Idle? && Digits(g.queue) == digits
    else
      && digits != [] && g.id == IdOf(digits[0]) && g.id <= MAX_EVENT_ID && Digits(g.queue) == digits[1..]
      && if q < n then g.phase.Tone? && AtFrame(t, g, q)
         else if q < n + 2 then g.phase.Ending? && g.counter == q - n && Final(g.id, Repeated(g)) == LaterEnd(t, g.id)
         else q < Period(t) && g.phase.Quiet? && g.counter == After(0, t.frame, q - n)
  }

  /** What is sent in frame time q of the first of `digits`. */
  predicate IsSent(t: Timing, digits: seq<char>, q: nat, frame: Option<EventFrame>)
    requires t.Valid()
  {
    if digits != [] && q < ToneFrames(t) + 2
    then frame.Some? && IsPacket(t, IdOf(digits[0]), q, frame.value)
    else frame.None?
  }

  lemma {:induction false} DialledDigits(g: Gen)
    requires g.queue != []
    ensures var d, digits := Dialled(g), Digits(g.queue);
            if digits == [] then d.phase == g.phase && d.queue == []
            else && d == Gen(d.queue, Tone, IdOf(digits[0]), 0, 0, false) && Digits(d.queue) == digits[1..]
                 && d.id <= MAX_EVENT_ID
    decreases |g.queue|
  {
    var rest := g.(queue := g.queue[1..], id := IdOf(g.queue[0]));
    if rest.id <= MAX_EVENT_ID {
      assert Digits(g.queue) == [g.queue[0]] + Digits(rest.queue);
    } else {
      assert Digits(g.queue) == Digits(rest.queue);
      if rest.queue != [] {
        DialledDigits(rest);
      }
    }
  }

  /** A frame of a tone. */
  lemma ToneTick(t: Timing, g: Gen, digits: seq<char>, q: nat)
    requires t.Valid() && digits != [] && q < ToneFrames(t) && g.phase.Tone? && AtFrame(t, g, q)
    requires g.id == IdOf(digits[0]) && Digits(g.queue) == digits[1..] && |g.queue| <= QUEUE_LENGTH
    ensures var e := ToneStep(t, g); IsSent(t, digits, q, e.frame) && At(t, e.gen, digits, q + 1)
  {
    FramesNumber(t);
    ToneStepSends(t, g, q);
    ToneAt(t, g.id, q, 0);
    ToneAt(t, g.id, 0, q);
    ToneShape(t, g.id, q);
  }

  lemma EndingTick(t: Timing, g: Gen, digits: seq<char>, q: nat)
    requires t.Valid() && At(t, g, digits, q) && ToneFrames(t) <= q < ToneFrames(t) + 2
    ensures var e := EndingStep(t, g); IsSent(t, digits, q, e.frame) && At(t, e.gen, digits, q + 1)
  {
    FramesNumber(t);
    ToneAt(t, g.id, 0, q);
    ToneShape(t, g.id, q);
    AfterIsSum(0, t.frame, 2);
  }

  lemma QuietTick(t: Timing, g: Gen, digits: seq<char>, q: nat)
    requires t.Valid() && At(t, g, digits, q) && ToneFrames(t) + 2 <= q
    ensures var e := QuietStep(t, g);
            && e.frame == None
            && if q + 1 < Period(t) then At(t, e.gen, digits, q + 1) else At(t, e.gen, digits[1..], 0)
  {
    var k := q - ToneFrames(t);
    AfterNext(0, t.frame, k);
    Covers(t, t.silence, k);
    Covers(t, t.silence, k + 1);
    AfterIsSum(0, t.frame, 2);
    assert g.counter < t.silence || k == 2;
    assert U32(g.counter + t.frame) == After(0, t.frame, k + 1);
  }

  /** An idle generator takes the next digit from its queue, if there is one. */
  lemma IdleTick(t: Timing, g: Gen, digits: seq<char>)
    requires t.Valid() && At(t, g, digits, 0) && |g.queue| <= QUEUE_LENGTH
    ensures var e := Put(t, g);
            IsSent(t, digits, 0, e.frame) && if digits == [] then At(t, e.gen, [], 0) else At(t, e.gen, digits, 1)
  {
    if g.queue != [] {
      var d := Dialled(g);
      DialledDigits(g);
      DialledShorter(g);
      if digits != [] {
        FramesNumber(t);
        assert InSegment(t, 0) == 0 && AtFrame(t, d, 0);
        ToneTick(t, d, digits, 0);
      }
    }
  }

  lemma {:induction false} DialledShorter(g: Gen)
    requires g.queue != []
    ensures |Dialled(g).queue| < |g.queue|
    decreases |g.queue|
  {
    var rest := g.(queue := g.queue[1..], id := IdOf(g.queue[0]));
    if rest.id > MAX_EVENT_ID && rest.queue != [] {
      DialledShorter(rest);
    }
  }

  lemma PutShorter(t: Timing, g: Gen)
    requires |g.queue| <= QUEUE_LENGTH
    ensures |Put(t, g).gen.queue| <= QUEUE_LENGTH
  {
    if g.queue != [] {
      DialledShorter(g);
    }
  }

  /** The frame time after frame time q of the first of `digits`. */
  function NextDigits(t: Timing, digits: seq<char>, q: nat): seq<char>
    requires t.Valid()
  {
    if digits != [] && q + 1 == Period(t) then digits[1..] else digits
  }

  function NextTime(t: Timing, digits: seq<char>, q: nat): nat
    requires t.Valid()
  {
    if digits == [] || q + 1 == Period(t) then 0 else q + 1
  }

  /** Every frame time sends what is to be sent in it, and leads to the next one. */
  lemma Tick(t: Timing, g: Gen, digits: seq<char>, q: nat)
    requires t.Valid() && At(t, g, digits, q) && |g.queue| <= QUEUE_LENGTH
    ensures var e := Put(t, g);
            IsSent(t, digits, q, e.frame) && At(t, e.gen, NextDigits(t, digits, q), NextTime(t, digits, q))
  {
    var n := ToneFrames(t);
    if q == 0 {
      IdleTick(t, g, digits);
    } else if q < n {
      ToneTick(t, g, digits, q);
    } else if q < n + 2 {
      EndingTick(t, g, digits, q);
    } else {
      QuietTick(t, g, digits, q);
    }
  }

  function Ticks(n: nat): seq<Action> {
    if n == 0 then [] else [Action.Tick] + Ticks(n - 1)
  }

  /** The generator after k frame times, each of which does what `put` does. */
  function GenAfter(put: Gen -> Emitted, g: Gen, k: nat): Gen {
    if k == 0 then g else put(GenAfter(put, g, k - 1)).gen
  }

  /** What is sent in n frame times. */
  function Sends(put: Gen -> Emitted, g: Gen, n: nat): (sent: seq<Option<EventFrame>>)
    ensures |sent| == n
    decreases n
  {
    if n == 0 then [] else [put(g).frame] + Sends(put, put(g).gen, n - 1)
  }

  lemma {:induction false} AfterShift(put: Gen -> Emitted, g: Gen, k: nat)
    ensures GenAfter(put, g, k + 1) == GenAfter(put, put(g).gen, k)
    decreases k
  {
    if k > 0 {
      AfterShift(put, g, k - 1);
    }
  }

  lemma {:induction false} SendsAt(put: Gen -> Emitted, g: Gen, n: nat, k: nat)
    requires k < n
    ensures Sends(put, g, n)[k] == put(GenAfter(put, g, k)).frame
    decreases n
  {
    if k > 0 {
      SendsAt(put, put(g).gen, n - 1, k - 1);
      AfterShift(put, g, k - 1);
    }
  }

  /** What every frame time keeps holds after all of them. */
  lemma {:induction false} KeptAfter(put: Gen -> Emitted, kept: (Gen, nat) -> bool, g: Gen, k: nat)
    requires kept(g, 0) && forall h: Gen, j: nat :: kept(h, j) ==> kept(put(h).gen, j + 1)
    ensures kept(GenAfter(put, g, k), k)
    decreases k
  {
    if k > 0 {
      KeptAfter(put, kept, g, k - 1);
    }
  }

  function PutOf(t: Timing): Gen -> Emitted {
    g => Put(t, g)
  }

  lemma FirstTick(t: Timing, l: Link, n: nat) returns (l1: Link)
    requires n > 0
    ensures l1.gen == PutOf(t)(l.gen).gen && l1.sent == l.sent + [PutOf(t)(l.gen).frame]
    ensures Run(t, l, Ticks(n)) == Run(t, l1, Ticks(n - 1))
  {
    l1 := Step(t, l, Action.Tick);
    assert Ticks(n)[0] == Action.Tick && Ticks(n)[1..] == Ticks(n - 1);
  }

  /** Frame times send what the generator puts. */
  lemma {:induction false} TicksSend(t: Timing, l: Link, n: nat)
    ensures Run(t, l, Ticks(n)).sent == l.sent + Sends(PutOf(t), l.gen, n)
    decreases n
  {
    if n == 0 {
      assert l.sent + [] == l.sent;
    } else {
      var l1 := FirstTick(t, l, n);
      TicksSend(t, l1, n - 1);
      ConcatAssoc(l.sent, [PutOf(t)(l.gen).frame], Sends(PutOf(t), l1.gen, n - 1));
    }
  }

  /** The digits that are left after i periods. */
  function Rest(digits: seq<char>, i: nat): seq<char> {
    if i < |digits| then digits[i..] else []
  }

  function TimeIn(digits: seq<char>, i: nat, q: nat): nat {
    if i < |digits| then q else 0
  }

  lemma {:induction false} StepsNext(x: nat, n: nat)
    requires n > 0
    ensures Steps(x + 1, n) == if Residue(x, n) + 1 == n then Steps(x, n) + 1 else Steps(x, n)
    decreases x
  {
    if x >= n {
      StepsNext(x - n, n);
    }
  }

  /** Periods follow each other. */
  lemma RestNext(t: Timing, digits: seq<char>, i: nat, q: nat, i': nat, q': nat)
    requires t.Valid() && q < Period(t)
    requires if q + 1 == Period(t) then i' == i + 1 && q' == 0 else i' == i && q' == q + 1
    ensures NextDigits(t, Rest(digits, i), TimeIn(digits, i, q)) == Rest(digits, i')
    ensures NextTime(t, Rest(digits, i), TimeIn(digits, i, q)) == TimeIn(digits, i', q')
  {
  }

  lemma AtNext(t: Timing, g: Gen, digits: seq<char>, i: nat, q: nat, i': nat, q': nat)
    requires t.Valid() && q < Period(t) && At(t, g, Rest(digits, i), TimeIn(digits, i, q)) && |g.queue| <= QUEUE_LENGTH
    requires if q + 1 == Period(t) then i' == i + 1 && q' == 0 else i' == i && q' == q + 1
    ensures var g' := Put(t, g).gen; At(t, g', Rest(digits, i'), TimeIn(digits, i', q')) && |g'.queue| <= QUEUE_LENGTH
  {
    Tick(t, g, Rest(digits, i), TimeIn(digits, i, q));
    PutShorter(t, g);
    RestNext(t, digits, i, q, i', q');
  }

  /** The generator is where frame time k finds it. */
  ghost predicate AtTime(t: Timing, digits: seq<char>, g: Gen, k: nat)
    requires t.Valid()
  {
    var i, q := Steps(k, Period(t)), Residue(k, Period(t));
    At(t, g, Rest(digits, i), TimeIn(digits, i, q)) && |g.queue| <= QUEUE_LENGTH
  }

  lemma AtTimeNext(t: Timing, digits: seq<char>, g: Gen, k: nat)
    requires t.Valid() && AtTime(t, digits, g, k)
    ensures AtTime(t, digits, Put(t, g).gen, k + 1)
  {
    var p := Period(t);
    StepsNext(k, p);
    ResidueNext(k, p);
    AtNext(t, g, digits, Steps(k, p), Residue(k, p), Steps(k + 1, p), Residue(k + 1, p));
  }

  lemma AtAfter(t: Timing, g: Gen, digits: seq<char>, k: nat)
    requires t.Valid() && AtTime(t, digits, g, 0)
    ensures AtTime(t, digits, GenAfter(PutOf(t), g, k), k)
  {
    var kept := (h: Gen, j: nat) => AtTime(t, digits, h, j);
    forall h: Gen, j: nat | kept(h, j)
      ensures kept(PutOf(t)(h).gen, j + 1)
    {
      AtTimeNext(t, digits, h, j);
    }
    KeptAfter(PutOf(t), kept, g, k);
  }

  /** In frame time q of period i, the q-th packet of digit i is sent, and nothing in the pause or after the last digit. */
  predicate OnAirIn(t: Timing, digits: seq<char>, i: int, q: int, frame: Option<EventFrame>)
    requires t.Valid()
  {
    if 0 <= i < |digits| && 0 <= q < ToneFrames(t) + 2
    then frame.Some? && IsPacket(t, IdOf(digits[i]), q, frame.value)
    else frame.None?
  }

  predicate OnAir(t: Timing, digits: seq<char>, k: nat, frame: Option<EventFrame>)
    requires t.Valid()
  {
    OnAirIn(t, digits, k / Period(t), k % Period(t), frame)
  }

  lemma SentIsOnAir(t: Timing, digits: seq<char>, k: nat, frame: Option<EventFrame>)
    requires t.Valid()
    requires var i, q := Steps(k, Period(t)), Residue(k, Period(t)); IsSent(t, Rest(digits, i), TimeIn(digits, i, q), frame)
    ensures OnAir(t, digits, k, frame)
  {
    StepsIsDivision(k, Period(t));
  }

  lemma GenOnAir(t: Timing, g: Gen, digits: seq<char>, k: nat)
    requires t.Valid() && AtTime(t, digits, g, k)
    ensures OnAir(t, digits, k, Put(t, g).frame)
  {
    var i, q := Steps(k, Period(t)), Residue(k, Period(t));
    Tick(t, g, Rest(digits, i), TimeIn(digits, i, q));
    SentIsOnAir(t, digits, k, Put(t, g).frame);
  }

  lemma QueuedFirst(t: Timing, queue: seq<char>, n: nat) returns (l: Link)
    requires |queue| <= QUEUE_LENGTH
    ensures l.gen.phase.Idle? && l.gen.queue == queue && l.sent == []
    ensures Run(t, NewLink, [Queue(queue)] + Ticks(n)) == Run(t, l, Ticks(n))
  {
    l := Step(t, NewLink, Queue(queue));
    assert [] + queue == queue;
    var actions := [Queue(queue)] + Ticks(n);
    assert actions[0] == Queue(queue) && actions[1..] == Ticks(n);
  }

  lemma OnAirAfter(t: Timing, g: Gen, digits: seq<char>, k: nat)
    requires t.Valid() && g.phase.Idle? && Digits(g.queue) == digits && |g.queue| <= QUEUE_LENGTH
    ensures OnAir(t, digits, k, PutOf(t)(GenAfter(PutOf(t), g, k)).frame)
  {
    assert Rest(digits, 0) == digits;
    AtAfter(t, g, digits, k);
    GenOnAir(t, GenAfter(PutOf(t), g, k), digits, k);
  }

  lemma SendsOnAir(t: Timing, g: Gen, digits: seq<char>, n: nat, k: nat)
    requires t.Valid() && g.phase.Idle? && Digits(g.queue) == digits && |g.queue| <= QUEUE_LENGTH && k < n
    ensures OnAir(t, digits, k, Sends(PutOf(t), g, n)[k])
  {
    SendsAt(PutOf(t), g, n, k);
    OnAirAfter(t, g, digits, k);
  }

  /** A queue of digits on the air. */
  lemma QueueOnAir(t: Timing, queue: seq<char>, n: nat, k: nat)
    requires t.Valid() && |queue| <= QUEUE_LENGTH && k < n
    ensures var sent := Run(t, NewLink, [Queue(queue)] + Ticks(n)).sent;
            |sent| == n && OnAir(t, Digits(queue), k, sent[k])
  {
    var l := QueuedFirst(t, queue, n);
    TicksSend(t, l, n);
    SendsOnAir(t, l.gen, Digits(queue), n, k);
  }

  // ----- every run -----

  /** The packets that were sent. */
  function Packets(sent: seq<Option<EventFrame>>): seq<EventFrame> {
    if sent == [] then [] else Packets(sent[..|sent| - 1]) + OneOf(sent[|sent| - 1])
  }

  lemma PacketsAfter(sent: seq<Option<EventFrame>>, frame: Option<EventFrame>)
    ensures Packets(sent + [frame]) == Packets(sent) + OneOf(frame)
  {
    assert (sent + [frame])[..|sent|] == sent;
  }

  lemma StepSends(t: Timing, l: Link, a: Action)
    requires t.Valid() && Sound(t, l.gen) && Packets(l.sent) + Pending(t, l.gen) == Tones(t, l.queued)
    ensures var l' := Step(t, l, a);
            Sound(t, l'.gen) && Packets(l'.sent) + Pending(t, l'.gen) == Tones(t, l'.queued)
  {
    match a
    case Queue(digits) =>
      EnqueuedPending(t, l.gen, digits);
      if Fits(l.gen, digits) {
        TonesConcat(t, l.queued, digits);
        ConcatAssoc(Packets(l.sent), Pending(t, l.gen), Tones(t, digits));
      } else {
        assert Pending(t, l.gen) + [] == Pending(t, l.gen) && l.queued + [] == l.queued;
      }
    case Tick =>
      var e := Put(t, l.gen);
      PutPending(t, l.gen);
      PacketsAfter(l.sent, e.frame);
      ConcatAssoc(Packets(l.sent), OneOf(e.frame), Pending(t, e.gen));
    case Read =>
  }

  lemma {:induction false} RunSendsFrom(t: Timing, l: Link, actions: seq<Action>)
    requires t.Valid() && Sound(t, l.gen) && Packets(l.sent) + Pending(t, l.gen) == Tones(t, l.queued)
    ensures var l' := Run(t, l, actions);
            Sound(t, l'.gen) && Packets(l'.sent) + Pending(t, l'.gen) == Tones(t, l'.queued)
    decreases |actions|
  {
    if actions != [] {
      StepSends(t, l, actions[0]);
      RunSendsFrom(t, Step(t, l, actions[0]), actions[1..]);
    }
  }

  /** In every run, the packets sent are the first of those of the digits that were accepted, and the rest is pending. */
  lemma RunSends(t: Timing, actions: seq<Action>)
    requires t.Valid()
    ensures var l := Run(t, NewLink, actions);
            && Sound(t, l.gen)
            && Packets(l.sent) + Pending(t, l.gen) == Tones(t, AcceptedIn(t, NewLink, actions))
  {
    assert Packets([]) + Pending(t, NewGen) == Tones(t, []);
    RunSendsFrom(t, NewLink, actions);
    QueuedIsAccepted(t, NewLink, actions);
    assert [] + AcceptedIn(t, NewLink, actions) == AcceptedIn(t, NewLink, actions);
  }
}
