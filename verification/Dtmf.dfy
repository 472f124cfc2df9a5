/** The DTMF generator and detector objects: every operation updates the fields as the step of the same name in
    `DtmfModel` says. */
module Dtmf {
  import opened Common
  import opened FrameRing
  import opened DtmfModel
  import opened DtmfOnAir

  class Generator {
    const timing: Timing
    var queue: seq<char>
    var phase: Phase
    var id: byte
    var counter: u32
    var duration: u32
    var newSegment: bool

    function State(): Gen
      reads this
    {
      Gen(queue, phase, id, counter, duration, newSegment)
    }

    constructor (timing: Timing)
      ensures this.timing == timing && State() == NewGen
    {
      this.timing, queue, phase, id, counter, duration, newSegment := timing, [], Idle, 0, 0, 0, false;
    }

    method Enqueue(digits: seq<char>) returns (ok: bool)
      modifies this`queue
      ensures ok == Fits(old(State()), digits) && State() == Enqueued(old(State()), digits)
      ensures timing.Valid() && Sound(timing, old(State())) ==>
                Sound(timing, State()) && Pending(timing, State()) == Pending(timing, old(State())) + if ok then Tones(timing, digits) else []
    {
      if timing.Valid() && Sound(timing, State()) {
        EnqueuedPending(timing, State(), digits);
      }
      ok := |queue| + |digits| <= QUEUE_LENGTH;
      if ok {
        queue := queue + digits;
      }
    }

    /** Takes digits from the queue up to the first valid one. */
    method NextDigit()
      requires phase.Idle? && queue != []
      modifies this`queue, this`phase, this`id, this`counter, this`duration, this`newSegment
      ensures State() == Dialled(old(State()))
    {
      ghost var goal := Dialled(State());
      id, queue := IdOf(queue[0]), queue[1..];
      while queue != [] && id > MAX_EVENT_ID
        invariant phase == old(phase) && counter == old(counter) && duration == old(duration) && newSegment == old(newSegment)
        invariant goal == if id <= MAX_EVENT_ID then State().(phase := Tone, counter := 0, duration := 0, segment := false)
                          else if queue == [] then State() else Dialled(State())
        decreases |queue|
      {
        id, queue := IdOf(queue[0]), queue[1..];
      }
      if id <= MAX_EVENT_ID {
        phase, counter, duration, newSegment := Tone, 0, 0, false;
      }
    }

    method PutTone() returns (frame: EventFrame)
      modifies this`phase, this`counter, this`duration, this`newSegment
      ensures Emitted(State(), Some(frame)) == ToneStep(timing, old(State()))
    {
      counter, duration := U32(counter + timing.frame), U32(duration + timing.frame);
      if counter >= timing.tone {
        phase, counter := Ending, 0;
        if duration > MAX_DURATION {
          frame := Final(id, MAX_DURATION);
          newSegment, duration := true, 0;
        } else {
          frame := Final(id, duration);
        }
      } else {
        var marker := NoMarker;
        if counter == timing.frame {
          marker := StartOfEvent;
        } else if newSegment {
          marker, newSegment := NewSegment, false;
        }
        if duration > MAX_DURATION {
          frame := Update(id, marker, MAX_DURATION);
          newSegment, duration := true, 0;
        } else {
          frame := Update(id, marker, duration);
        }
      }
    }

    method PutEnding() returns (frame: EventFrame)
      modifies this`phase, this`counter
      ensures Emitted(State(), Some(frame)) == EndingStep(timing, old(State()))
    {
      counter := U32(counter + 1);
      frame := Final(id, if newSegment then MAX_DURATION else U16(duration));
      if counter >= 2 {
        phase, counter := Quiet, U32(counter * timing.frame);
      }
    }

    /** Produces the frame for the next frame time, if there is one. */
    method PutFrame() returns (frame: Option<EventFrame>)
      modifies this`queue, this`phase, this`id, this`counter, this`duration, this`newSegment
      ensures Emitted(State(), frame) == Put(timing, old(State()))
      ensures timing.Valid() && Sound(timing, old(State())) ==>
                Sound(timing, State()) && Pending(timing, old(State())) == OneOf(frame) + Pending(timing, State())
    {
      if timing.Valid() && Sound(timing, State()) {
        PutPending(timing, State());
      }
      frame := None;
      if phase.Idle? && queue != [] {
        NextDigit();
      }
      match phase
      case Idle =>
      case Tone =>
        var f := PutTone();
        frame := Some(f);
      case Ending =>
        var f := PutEnding();
        frame := Some(f);
      case Quiet =>
        counter := U32(counter + timing.frame);
        if counter >= timing.silence {
          phase := Idle;
        }
    }
  }

  class Detector {
    var digits: seq<char>
    var lost: nat

    function State(): Det
      reads this
    {
      Det(digits, lost)
    }

    constructor ()
      ensures State() == NewDet
    {
      digits, lost := [], 0;
    }

    method AddDigit(digit: char)
      modifies this
      ensures State() == Added(old(State()), digit)
    {
      if digit == '\0' {
        return;
      }
      if |digits| < BUFFER_LENGTH {
        digits := digits + [digit];
      } else {
        lost := lost + 1;
      }
    }

    method GetFrame(frame: EventFrame)
      modifies this
      ensures State() == Heard(old(State()), frame)
    {
      if frame.event.id <= MAX_EVENT_ID && frame.marker == StartOfEvent {
        AddDigit(CharOf(frame.event.id));
      }
    }

    method DigitGet() returns (digit: char)
      modifies this`digits
      ensures old(digits) == [] ==> digit == '\0' && digits == []
      ensures old(digits) != [] ==> old(digits) == [digit] + digits
    {
      digit := '\0';
      if digits != [] {
        digit, digits := digits[0], digits[1..];
      }
    }
  }

  /** One step of a generator whose frames go to a detector. */
  method Perform(gen: Generator, det: Detector, a: Action, got: seq<char>, sent: seq<Option<EventFrame>>, ghost l: Link)
    returns (got': seq<char>, sent': seq<Option<EventFrame>>, ghost l': Link)
    requires l.gen == gen.State() && l.det == det.State() && l.got == got && l.sent == sent
    modifies gen, det
    ensures l' == Step(gen.timing, l, a) && l'.gen == gen.State() && l'.det == det.State()
    ensures l'.got == got' && l'.sent == sent'
  {
    got', sent', l' := got, sent, Step(gen.timing, l, a);
    match a
    case Queue(digits) =>
      var _ := gen.Enqueue(digits);
    case Tick =>
      var frame := gen.PutFrame();
      sent' := sent + [frame];
      if frame.Some? {
        det.GetFrame(frame.value);
      }
    case Read =>
      if det.digits != [] {
        var digit := det.DigitGet();
        got' := got + [digit];
      }
  }

  /** Drives a generator and a detector through a run.  The packets sent are the first of those of the digits that were
      accepted; if none of these digits is lost, those read come first, in order. */
  method Exchange(t: Timing, actions: seq<Action>) returns (got: seq<char>, sent: seq<Option<EventFrame>>, lost: nat)
    ensures var l := Run(t, NewLink, actions); got == l.got && sent == l.sent && lost == l.det.lost
    ensures t.Valid() ==> Packets(sent) <= Tones(t, AcceptedIn(t, NewLink, actions))
    ensures t.Valid() && t.tone > t.frame && lost == 0 ==> got <= Digits(AcceptedIn(t, NewLink, actions))
  {
    var gen := new Generator(t);
    var det := new Detector();
    ghost var l := NewLink;
    got, sent := [], [];
    for i := 0 to |actions|
      invariant fresh(gen) && fresh(det) && gen.timing == t
      invariant l.gen == gen.State() && l.det == det.State() && l.got == got && l.sent == sent
      invariant Run(t, l, actions[i..]) == Run(t, NewLink, actions)
    {
      assert actions[i..][1..] == actions[i + 1..];
      got, sent, l := Perform(gen, det, actions[i], got, sent, l);
    }
    lost := det.lost;
    if t.Valid() {
      RunSends(t, actions);
      if t.tone > t.frame {
        RunAccounts(t, actions);
      }
    }
  }

  /** Sends a queue of digits in n frame times: digit after digit, a period each. */
  method Dial(t: Timing, queue: seq<char>, n: nat) returns (sent: seq<Option<EventFrame>>)
    requires t.Valid() && |queue| <= QUEUE_LENGTH
    ensures |sent| == n && forall k :: 0 <= k < n ==> OnAir(t, Digits(queue), k, sent[k])
  {
    var _, all, _ := Exchange(t, [Queue(queue)] + Ticks(n));
    sent := all;
    AllOnAir(t, queue, n);
  }

  lemma AllOnAir(t: Timing, queue: seq<char>, n: nat)
    requires t.Valid() && |queue| <= QUEUE_LENGTH
    ensures var sent := Run(t, NewLink, [Queue(queue)] + Ticks(n)).sent;
            |sent| == n && forall k :: 0 <= k < n ==> OnAir(t, Digits(queue), k, sent[k])
  {
    if n == 0 {
      NothingSent(t, queue);
    } else {
      QueueOnAir(t, queue, n, 0);
      var sent := Run(t, NewLink, [Queue(queue)] + Ticks(n)).sent;
      forall k | 0 <= k < n
        ensures OnAir(t, Digits(queue), k, sent[k])
      {
        QueueOnAir(t, queue, n, k);
      }
    }
  }

  lemma NothingSent(t: Timing, queue: seq<char>)
    ensures Run(t, NewLink, [Queue(queue)] + Ticks(0)).sent == []
  {
    assert ([Queue(queue)] + Ticks(0))[1..] == [];
  }

  /** A queue of digits comes out complete and in order. */
  method Transmit(t: Timing, digits: seq<char>) returns (got: seq<char>)
    requires t.Valid() && t.tone > t.frame && |digits| <= QUEUE_LENGTH
    ensures got == Digits(digits)
  {
    var gen := new Generator(t);
    var det := new Detector();
    ghost var l := NewLink;
    QueuedUnread(t, digits);
    var sent: seq<Option<EventFrame>> := [];
    got, sent, l := Perform(gen, det, Queue(digits), [], sent, l);
    while gen.queue != [] || gen.phase.Tone? || gen.phase.Ending?
      invariant fresh(gen) && fresh(det) && gen.timing == t
      invariant l.gen == gen.State() && l.det == det.State() && l.got == got && l.sent == sent && Unread(t, l, digits)
      decreases |l.gen.queue|, Rank(l.gen), DtmfModel.Distance(t, l.gen)
    {
      TickUnread(t, l, digits);
      got, sent, l := Perform(gen, det, Action.Tick, got, sent, l);
    }
    AllArrived(t, l, digits);
    got := det.digits;
  }

  /** Only `digits` were queued, and nothing was read. */
  ghost predicate Unread(t: Timing, l: Link, digits: seq<char>) {
    t.Valid() && t.tone > t.frame && Conserved(t, l) && l.got == [] && l.queued == digits
  }

  lemma QueuedUnread(t: Timing, digits: seq<char>)
    requires t.Valid() && t.tone > t.frame && |digits| <= QUEUE_LENGTH
    ensures Unread(t, Step(t, NewLink, Queue(digits)), digits)
  {
    NewLinkConserved(t);
    StepConserves(t, NewLink, Queue(digits));
    assert [] + digits == digits;
  }

  lemma TickUnread(t: Timing, l: Link, digits: seq<char>)
    requires Unread(t, l, digits) && Sending(l.gen)
    ensures Unread(t, Step(t, l, Action.Tick), digits) && Closer(t, l.gen, Step(t, l, Action.Tick).gen)
  {
    PutCloser(t, l.gen);
    StepConserves(t, l, Action.Tick);
  }

  /** When nothing is to come and nothing was read, the buffer holds all digits. */
  lemma AllArrived(t: Timing, l: Link, digits: seq<char>)
    requires Unread(t, l, digits) && !Sending(l.gen) && |digits| <= BUFFER_LENGTH
    ensures l.det.digits == Digits(digits)
  {
    DigitsBound(digits);
    assert Pending(t, l.gen) == [];
    assert [] + l.det.digits == l.det.digits;
  }
}
