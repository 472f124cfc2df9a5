/** The recorder state machine of the server (libs/mrcp-engine/src/mrcp_recorder_state_machine.c; section 10.1 of
    RFC 6787) as a state machine over values. */
module RecorderModel {
  import opened Common

  datatype Verb = SetParams | GetParams | Record | Stop | StartTimers

  datatype Request = Request(id: nat, verb: Verb)

  /** A response of the recorder engine; inProgress tells that recording goes on. */
  datatype Response = Response(id: nat, verb: Verb, inProgress: bool)

  datatype EventKind = StartOfInput | RecordComplete

  datatype Input =
    | ClientRequest(request: Request)
    | EngineResponse(response: Response)
    | EngineEvent(kind: EventKind, id: nat)
    | Shutdown

  /** What the state machine passes on: a request to the engine; a response (the engine's, a rejection or an
      immediate success) or an event to the client; or the end of the deactivation. */
  datatype Output =
    | Forward(request: Request)
    | Answer(response: Response, activeIds: seq<nat>)
    | Reject(request: Request)
    | Succeed(request: Request)
    | Notify(event: EventKind, id: nat)
    | Deactivated

  /** `faulted` stands for the access through a null record pointer, after which nothing happens any more. */
  datatype State = State(recording: bool, pending: Option<Request>, record: Option<Request>, active: bool, faulted: bool)

  const Initial := State(false, None, None, true, false)

  datatype Reaction = Reaction(state: State, outputs: seq<Output>)

  function Forwarding(s: State, r: Request): Reaction {
    Reaction(s.(pending := Some(r)), [Forward(r)])
  }

  /** A response is the end of the pending request, and of the deactivation if there is one. */
  function Responding(s: State, o: Output): Reaction {
    Reaction(s.(pending := None), [if s.active then o else Deactivated])
  }

  function Ended(s: State): State {
    s.(recording := false, record := None)
  }

  /** A RECORD is rejected while recording, STOP and START-INPUT-TIMERS have no use while not recording, and everything
      else goes to the engine. */
  function OnRequest(s: State, r: Request): Reaction {
    match r.verb
    case SetParams => Forwarding(s, r)
    case GetParams => Forwarding(s, r)
    case Record => if s.recording then Responding(s, Reject(r)) else Forwarding(s, r)
    case Stop => if s.recording then Forwarding(s, r) else Responding(s, Succeed(r))
    case StartTimers => if s.recording then Forwarding(s, r) else Responding(s, Reject(r))
  }

  /** Only the response to the pending request counts; that to a STOP names the record that is held. */
  function OnResponse(s: State, m: Response): Reaction {
    if s.pending.None? || s.pending.value.id != m.id then Reaction(s, [])
    else if m.verb.Record? && m.inProgress then Responding(s.(record := s.pending, recording := true), Answer(m, []))
    else if !m.verb.Stop? then Responding(s, Answer(m, []))
    else if s.record.None? then Reaction(s.(faulted := true), [])
    else Responding(Ended(s), Answer(m, [s.record.value.id]))
  }

  function Notifying(s: State, kind: EventKind, id: nat): Reaction {
    Reaction(s, if s.active then [Notify(kind, id)] else [])
  }

  /** Only an event of the record that is held counts, and its completion is ignored while a STOP is outstanding. */
  function OnEvent(s: State, kind: EventKind, id: nat): Reaction {
    if s.record.None? || s.record.value.id != id then Reaction(s, [])
    else if kind.StartOfInput? then Notifying(s, kind, id)
    else if s.pending.Some? && s.pending.value.verb.Stop? then Reaction(s, [])
    else Notifying(Ended(s), kind, id)
  }

  /** Deactivation stops the record that is held. */
  function OnShutdown(s: State): Reaction {
    var s := s.(active := false);
    if s.recording && s.record.Some? then Forwarding(s, Request(s.record.value.id + 1, Stop)) else Reaction(s, [])
  }

  function Step(s: State, i: Input): Reaction {
    if s.faulted then Reaction(s, [])
    else
      match i
      case ClientRequest(r) => OnRequest(s, r)
      case EngineResponse(m) => OnResponse(s, m)
      case EngineEvent(kind, id) => OnEvent(s, kind, id)
      case Shutdown => OnShutdown(s)
  }

  /** The reaction to a sequence of inputs. */
  function Run(s: State, inputs: seq<Input>): Reaction
    decreases |inputs|
  {
    if inputs == [] then Reaction(s, [])
    else
      var first := Step(s, inputs[0]);
      var rest := Run(first.state, inputs[1..]);
      Reaction(rest.state, first.outputs + rest.outputs)
  }

  lemma {:induction false} RunConcat(s: State, a: seq<Input>, b: seq<Input>)
    ensures var ra := Run(s, a);
            var rb := Run(ra.state, b);
            Run(s, a + b) == Reaction(rb.state, ra.outputs + rb.outputs)
    decreases |a|
  {
    if a == [] {
      assert a + b == b;
    } else {
      assert (a + b)[0] == a[0] && (a + b)[1..] == a[1..] + b;
      var first := Step(s, a[0]);
      RunConcat(first.state, a[1..], b);
      ConcatAssoc(first.outputs, Run(first.state, a[1..]).outputs, Run(Run(s, a).state, b).outputs);
    }
  }

  // ----- the state in every run -----

  /** A response carries the method of the request that it answers. */
  predicate Matched(s: State, i: Input) {
    i.EngineResponse? && s.pending.Some? && s.pending.value.id == i.response.id ==> s.pending.value.verb == i.response.verb
  }

  predicate MatchedRun(s: State, inputs: seq<Input>)
    decreases |inputs|
  {
    inputs == [] || (Matched(s, inputs[0]) && MatchedRun(Step(s, inputs[0]).state, inputs[1..]))
  }

  /** Recording means that a record is held; a STOP is outstanding only while one is held, and a RECORD only while none
      is; and there was no fault. */
  predicate Sound(s: State) {
    && !s.faulted && (s.recording <==> s.record.Some?)
    && (s.pending.Some? && s.pending.value.verb.Stop? ==> s.record.Some?)
    && (s.pending.Some? && s.pending.value.verb.Record? ==> s.record.None?)
    && (s.record.Some? ==> s.record.value.verb.Record?)
  }

  lemma StepSound(s: State, i: Input)
    requires Sound(s) && Matched(s, i)
    ensures Sound(Step(s, i).state)
  {
  }

  /** Whatever happens, and in whatever order: no response to a STOP is without a record, and RECORDING holds exactly
      if a record is held. */
  lemma {:induction false} RunSound(s: State, inputs: seq<Input>)
    requires Sound(s) && MatchedRun(s, inputs)
    ensures Sound(Run(s, inputs).state)
    decreases |inputs|
  {
    if inputs != [] {
      StepSound(s, inputs[0]);
      RunSound(Step(s, inputs[0]).state, inputs[1..]);
    }
  }

  /** Without matching methods, a STOP response to another request finds no record. */
  lemma MismatchFaults()
    ensures Run(Initial, [ClientRequest(Request(1, GetParams)), EngineResponse(Response(1, Stop, false))]).state.faulted
  {
    var inputs := [ClientRequest(Request(1, GetParams)), EngineResponse(Response(1, Stop, false))];
    var s := Step(Initial, inputs[0]).state;
    assert s == State(false, Some(Request(1, GetParams)), None, true, false);
    assert inputs[1..][0] == inputs[1] && inputs[1..][1..] == [];
    assert Run(s, inputs[1..]).state == Step(s, inputs[1]).state;
  }

  /** A STOP response to the pending request while no record is held. */
  predicate FaultsOn(s: State, i: Input) {
    i.EngineResponse? && i.response.verb.Stop? && s.record.None? && s.pending.Some? && s.pending.value.id == i.response.id
  }

  lemma FaultsExactly(s: State, i: Input)
    requires !s.faulted
    ensures Step(s, i).state.faulted <==> FaultsOn(s, i)
  {
  }

  predicate FaultsIn(s: State, inputs: seq<Input>)
    decreases |inputs|
  {
    inputs != [] && (FaultsOn(s, inputs[0]) || FaultsIn(Step(s, inputs[0]).state, inputs[1..]))
  }

  lemma {:induction false} StaysFaulted(s: State, inputs: seq<Input>)
    requires s.faulted
    ensures Run(s, inputs) == Reaction(s, [])
    decreases |inputs|
  {
    if inputs != [] {
      StaysFaulted(Step(s, inputs[0]).state, inputs[1..]);
    }
  }

  /** A run uses a null record exactly if some response to the pending request says STOP while no record is held. */
  lemma {:induction false} RunFaultsExactly(s: State, inputs: seq<Input>)
    requires !s.faulted
    ensures Run(s, inputs).state.faulted <==> FaultsIn(s, inputs)
    decreases |inputs|
  {
    if inputs != [] {
      var s1 := Step(s, inputs[0]).state;
      FaultsExactly(s, inputs[0]);
      if s1.faulted {
        StaysFaulted(s1, inputs[1..]);
      } else {
        RunFaultsExactly(s1, inputs[1..]);
      }
    }
  }

  // ----- every record that starts ends once -----

  /** The records that the client was told have started, ... */
  function StartsIn(outputs: seq<Output>): seq<nat> {
    if outputs == [] then []
    else StartedBy(outputs[0]) + StartsIn(outputs[1..])
  }

  function StartedBy(o: Output): seq<nat> {
    if o.Answer? && o.response.verb.Record? && o.response.inProgress then [o.response.id] else []
  }

  /** ... and that they have ended: by the answer to a STOP, or by a RECORD-COMPLETE. */
  function EndsIn(outputs: seq<Output>): seq<nat> {
    if outputs == [] then []
    else EndedBy(outputs[0]) + EndsIn(outputs[1..])
  }

  function EndedBy(o: Output): seq<nat> {
    match o
    case Answer(_, ids) => ids
    case Notify(kind, id) => if kind.RecordComplete? then [id] else []
    case _ => []
  }

  lemma OfOne(o: Output)
    ensures StartsIn([o]) == StartedBy(o) && EndsIn([o]) == EndedBy(o)
  {
    assert [o][1..] == [];
    assert StartsIn([o]) == StartedBy(o) + [] && EndsIn([o]) == EndedBy(o) + [];
  }

  lemma {:induction false} StartsConcat(a: seq<Output>, b: seq<Output>)
    ensures StartsIn(a + b) == StartsIn(a) + StartsIn(b)
    decreases |a|
  {
    if a == [] {
      assert a + b == b;
    } else {
      assert (a + b)[0] == a[0] && (a + b)[1..] == a[1..] + b;
      StartsConcat(a[1..], b);
      ConcatAssoc(StartedBy(a[0]), StartsIn(a[1..]), StartsIn(b));
    }
  }

  lemma {:induction false} EndsConcat(a: seq<Output>, b: seq<Output>)
    ensures EndsIn(a + b) == EndsIn(a) + EndsIn(b)
    decreases |a|
  {
    if a == [] {
      assert a + b == b;
    } else {
      assert (a + b)[0] == a[0] && (a + b)[1..] == a[1..] + b;
      EndsConcat(a[1..], b);
      ConcatAssoc(EndedBy(a[0]), EndsIn(a[1..]), EndsIn(b));
    }
  }

  function IdOf(r: Option<Request>): seq<nat> {
    if r.Some? then [r.value.id] else []
  }

  /** While the machine is active, what it tells of a step is what it holds before and after. */
  lemma StepBalances(s: State, i: Input)
    requires Sound(s) && Matched(s, i) && s.active && !i.Shutdown?
    ensures Step(s, i).state.active
    ensures IdOf(s.record) + StartsIn(Step(s, i).outputs) == EndsIn(Step(s, i).outputs) + IdOf(Step(s, i).state.record)
  {
    var r := Step(s, i);
    if |r.outputs| == 1 {
      assert r.outputs == [r.outputs[0]];
      OfOne(r.outputs[0]);
    } else {
      assert r.outputs == [];
    }
  }

  /** In every run of an active machine, the records told to have started are those told to have ended, in this order,
      and possibly one more that is held. */
  lemma {:induction false} RunBalances(s: State, inputs: seq<Input>)
    requires Sound(s) && s.active && MatchedRun(s, inputs) && forall i :: i in inputs ==> !i.Shutdown?
    ensures var r := Run(s, inputs);
            IdOf(s.record) + StartsIn(r.outputs) == EndsIn(r.outputs) + IdOf(r.state.record)
    decreases |inputs|
  {
    if inputs == [] {
      assert IdOf(s.record) + [] == [] + IdOf(s.record);
    } else {
      var first := Step(s, inputs[0]);
      var rest := Run(first.state, inputs[1..]);
      StepBalances(s, inputs[0]);
      StepSound(s, inputs[0]);
      RunBalances(first.state, inputs[1..]);
      StartsConcat(first.outputs, rest.outputs);
      EndsConcat(first.outputs, rest.outputs);
      Balanced(IdOf(s.record), StartsIn(first.outputs), EndsIn(first.outputs), IdOf(first.state.record),
               StartsIn(rest.outputs), EndsIn(rest.outputs), IdOf(rest.state.record));
    }
  }

  lemma Balanced(h: seq<nat>, s1: seq<nat>, e1: seq<nat>, h1: seq<nat>, s2: seq<nat>, e2: seq<nat>, h2: seq<nat>)
    requires h + s1 == e1 + h1 && h1 + s2 == e2 + h2
    ensures h + (s1 + s2) == e1 + e2 + h2
  {
    ConcatAssoc(h, s1, s2);
    ConcatAssoc(e1, h1, s2);
    ConcatAssoc(e1, e2, h2);
  }

  // ----- what each input is answered with -----

  /** The request that waits for the engine, as told by the outputs so far: the last one forwarded, unless a response was
      given after it. */
  function Waiting(told: seq<Output>): Option<Request>
    decreases |told|
  {
    if told == [] then None
    else
      match told[|told| - 1]
      case Forward(r) => Some(r)
      case Notify(_, _) => Waiting(told[..|told| - 1])
      case _ => None
  }

  /** The record that the client was told has started and was not told has ended. */
  function OpenIn(told: seq<Output>): seq<nat> {
    var starts, ends := StartsIn(told), EndsIn(told);
    if |ends| <= |starts| then starts[|ends|..] else []
  }

  /** What an active machine owes for an input, by the outputs so far alone.  A RECORD needs that no record is open; STOP
      and START-INPUT-TIMERS need an open one, without which a STOP has nothing to do and START-INPUT-TIMERS is rejected. */
  function Due(told: seq<Output>, i: Input): seq<Output> {
    var open := OpenIn(told);
    match i
    case ClientRequest(r) =>
      (match r.verb
       case SetParams => [Forward(r)]
       case GetParams => [Forward(r)]
       case Record => [if open == [] then Forward(r) else Reject(r)]
       case Stop => [if open == [] then Succeed(r) else Forward(r)]
       case StartTimers => [if open == [] then Reject(r) else Forward(r)])
    case EngineResponse(m) =>
      if Waiting(told).None? || Waiting(told).value.id != m.id then []
      else [Answer(m, if m.verb.Stop? then open else [])]
    case EngineEvent(kind, id) =>
      if open != [id] then []
      else if kind.RecordComplete? && Waiting(told).Some? && Waiting(told).value.verb.Stop? then []
      else [Notify(kind, id)]
    case Shutdown =>
      if open == [] then [] else [Forward(Request(open[0] + 1, Stop))]
  }

  /** The outputs of a run by this rule; there is no state but the outputs themselves. */
  function Told(inputs: seq<Input>): seq<Output>
    decreases |inputs|
  {
    if inputs == [] then []
    else
      var before := Told(inputs[..|inputs| - 1]);
      before + Due(before, inputs[|inputs| - 1])
  }

  /** The state is what the outputs tell. */
  ghost predicate Reflects(s: State, told: seq<Output>) {
    s.pending == Waiting(told) && StartsIn(told) == EndsIn(told) + IdOf(s.record)
  }

  lemma ReflectsOpen(s: State, told: seq<Output>)
    requires Reflects(s, told)
    ensures OpenIn(told) == IdOf(s.record)
  {
  }

  lemma RequestDue(s: State, r: Request, told: seq<Output>)
    requires Sound(s) && s.active && OpenIn(told) == IdOf(s.record)
    ensures OnRequest(s, r).outputs == Due(told, ClientRequest(r))
  {
  }

  lemma ResponseDue(s: State, m: Response, told: seq<Output>)
    requires Sound(s) && s.active && Matched(s, EngineResponse(m)) && s.pending == Waiting(told) && OpenIn(told) == IdOf(s.record)
    ensures OnResponse(s, m).outputs == Due(told, EngineResponse(m))
  {
  }

  lemma EventDue(s: State, kind: EventKind, id: nat, told: seq<Output>)
    requires Sound(s) && s.active && s.pending == Waiting(told) && OpenIn(told) == IdOf(s.record)
    ensures OnEvent(s, kind, id).outputs == Due(told, EngineEvent(kind, id))
  {
  }

  lemma StepIsDue(s: State, i: Input, told: seq<Output>)
    requires Sound(s) && s.active && Matched(s, i) && Reflects(s, told)
    ensures Step(s, i).outputs == Due(told, i)
  {
    ReflectsOpen(s, told);
    match i
    case ClientRequest(r) => RequestDue(s, r, told);
    case EngineResponse(m) => ResponseDue(s, m, told);
    case EngineEvent(kind, id) => EventDue(s, kind, id, told);
    case Shutdown =>
  }

  lemma WaitingAfter(told: seq<Output>, o: Output)
    ensures Waiting(told + [o]) == if o.Forward? then Some(o.request) else if o.Notify? then Waiting(told) else None
  {
    assert (told + [o])[..|told|] == told;
  }

  /** Every input has at most one output, which tells what becomes of the request that waits. */
  lemma StepTells(s: State, i: Input)
    requires Sound(s) && s.active && Matched(s, i) && !i.Shutdown?
    ensures var r := Step(s, i);
            || (r.outputs == [] && r.state.pending == s.pending)
            || (|r.outputs| == 1
                && var o := r.outputs[0];
                   r.state.pending == if o.Forward? then Some(o.request) else if o.Notify? then s.pending else None)
  {
    match i
    case ClientRequest(_) =>
    case EngineResponse(_) =>
    case EngineEvent(_, _) =>
  }

  lemma StepWaits(s: State, i: Input, told: seq<Output>)
    requires Sound(s) && s.active && Matched(s, i) && s.pending == Waiting(told) && !i.Shutdown?
    ensures Step(s, i).state.pending == Waiting(told + Step(s, i).outputs)
  {
    var outputs := Step(s, i).outputs;
    StepTells(s, i);
    if outputs == [] {
      assert told + [] == told;
    } else {
      assert outputs == [outputs[0]];
      WaitingAfter(told, outputs[0]);
    }
  }

  lemma CarriesOver(starts: seq<nat>, ends: seq<nat>, h: seq<nat>, s1: seq<nat>, e1: seq<nat>, h1: seq<nat>)
    requires starts == ends + h && h + s1 == e1 + h1
    ensures starts + s1 == ends + e1 + h1
  {
    ConcatAssoc(ends, h, s1);
    ConcatAssoc(ends, e1, h1);
  }

  lemma StepReflects(s: State, i: Input, told: seq<Output>)
    requires Sound(s) && s.active && Matched(s, i) && Reflects(s, told) && !i.Shutdown?
    ensures Reflects(Step(s, i).state, told + Step(s, i).outputs)
  {
    var r := Step(s, i);
    StepWaits(s, i, told);
    StepBalances(s, i);
    StartsConcat(told, r.outputs);
    EndsConcat(told, r.outputs);
    CarriesOver(StartsIn(told), EndsIn(told), IdOf(s.record), StartsIn(r.outputs), EndsIn(r.outputs), IdOf(r.state.record));
  }

  lemma {:induction false} MatchedConcat(s: State, a: seq<Input>, b: seq<Input>)
    ensures MatchedRun(s, a + b) <==> MatchedRun(s, a) && MatchedRun(Run(s, a).state, b)
    decreases |a|
  {
    if a == [] {
      assert a + b == b;
    } else {
      assert (a + b)[0] == a[0] && (a + b)[1..] == a[1..] + b;
      MatchedConcat(Step(s, a[0]).state, a[1..], b);
    }
  }

  predicate NoShutdown(inputs: seq<Input>) {
    forall i :: i in inputs ==> !i.Shutdown?
  }

  lemma RunOne(s: State, i: Input)
    ensures Run(s, [i]) == Step(s, i)
  {
    assert [i][1..] == [];
    assert Step(s, i).outputs + [] == Step(s, i).outputs;
  }

  lemma {:induction false} RunReflects(inputs: seq<Input>)
    requires MatchedRun(Initial, inputs) && NoShutdown(inputs)
    ensures var r := Run(Initial, inputs);
            Sound(r.state) && r.state.active && Reflects(r.state, r.outputs) && r.outputs == Told(inputs)
    decreases |inputs|
  {
    if inputs != [] {
      var before, i := inputs[..|inputs| - 1], inputs[|inputs| - 1];
      assert inputs == before + [i];
      MatchedConcat(Initial, before, [i]);
      RunConcat(Initial, before, [i]);
      RunReflects(before);
      var r := Run(Initial, before);
      RunOne(r.state, i);
      StepSound(r.state, i);
      StepBalances(r.state, i);
      StepIsDue(r.state, i, r.outputs);
      StepReflects(r.state, i, r.outputs);
    }
  }

  /** In every run of an active machine, every input is answered with exactly what is due by the outputs before it. */
  lemma AnsweredAsDue(inputs: seq<Input>, i: Input)
    requires MatchedRun(Initial, inputs + [i]) && NoShutdown(inputs)
    ensures Run(Initial, inputs).outputs == Told(inputs)
    ensures Run(Initial, inputs + [i]).outputs == Told(inputs) + Due(Told(inputs), i)
  {
    MatchedConcat(Initial, inputs, [i]);
    RunConcat(Initial, inputs, [i]);
    RunReflects(inputs);
    RunOne(Run(Initial, inputs).state, i);
    StepIsDue(Run(Initial, inputs).state, i, Told(inputs));
  }

  lemma RunTwo(inputs: seq<Input>, a: Input, b: Input)
    ensures var r := Run(Initial, inputs);
            var ra := Step(r.state, a);
            var rb := Step(ra.state, b);
            Run(Initial, inputs + [a] + [b]) == Reaction(rb.state, r.outputs + ra.outputs + rb.outputs)
  {
    RunConcat(Initial, inputs, [a]);
    RunOne(Run(Initial, inputs).state, a);
    RunConcat(Initial, inputs + [a], [b]);
    RunOne(Run(Initial, inputs + [a]).state, b);
  }

  /** A RECORD without open record, and its in-progress response. */
  lemma RecordSteps(s: State, id: nat)
    requires Sound(s) && s.active && s.record.None?
    ensures var r, m := Request(id, Record), Response(id, Record, true);
            var s1 := s.(pending := Some(r));
            && Step(s, ClientRequest(r)) == Reaction(s1, [Forward(r)]) && Sound(s1)
            && Step(s1, EngineResponse(m)) == Reaction(State(true, None, Some(r), true, false), [Answer(m, [])])
  {
  }

  /** So a RECORD that finds no open record goes to the engine; with its in-progress response it is answered, and is the
      open record. */
  lemma RecordOpens(inputs: seq<Input>, id: nat)
    requires MatchedRun(Initial, inputs) && NoShutdown(inputs) && OpenIn(Told(inputs)) == []
    ensures var r, m := Request(id, Record), Response(id, Record, true);
            var told := Run(Initial, inputs + [ClientRequest(r)] + [EngineResponse(m)]).outputs;
            told == Told(inputs) + [Forward(r)] + [Answer(m, [])] && OpenIn(told) == [id]
  {
    var r, m := Request(id, Record), Response(id, Record, true);
    var s, told := Run(Initial, inputs).state, Told(inputs);
    RunReflects(inputs);
    ReflectsOpen(s, told);
    RecordSteps(s, id);
    RunTwo(inputs, ClientRequest(r), EngineResponse(m));
    var s1 := s.(pending := Some(r));
    StepReflects(s, ClientRequest(r), told);
    StepReflects(s1, EngineResponse(m), told + [Forward(r)]);
    ReflectsOpen(State(true, None, Some(r), true, false), told + [Forward(r)] + [Answer(m, [])]);
  }

  lemma ShutdownSteps(s: State, m: Response)
    requires Sound(s) && s.active && s.record.Some? && m.verb.Stop? && m.id == s.record.value.id + 1
    ensures var s1 := s.(active := false, pending := Some(Request(m.id, Stop)));
            && Step(s, Shutdown) == Reaction(s1, [Forward(Request(m.id, Stop))])
            && Step(s1, EngineResponse(m)).outputs == [Deactivated]
  {
  }

  /** A deactivation with an open record stops it, and is over with the response to that STOP. */
  lemma ShutdownStops(inputs: seq<Input>, m: Response)
    requires MatchedRun(Initial, inputs) && NoShutdown(inputs) && OpenIn(Told(inputs)) != []
    requires m.id == OpenIn(Told(inputs))[0] + 1 && m.verb.Stop?
    ensures Run(Initial, inputs + [Shutdown] + [EngineResponse(m)]).outputs
            == Told(inputs) + [Forward(Request(m.id, Stop))] + [Deactivated]
  {
    var s := Run(Initial, inputs).state;
    RunReflects(inputs);
    ReflectsOpen(s, Told(inputs));
    ShutdownSteps(s, m);
    RunTwo(inputs, Shutdown, EngineResponse(m));
  }

  // ----- identifiers -----

  predicate Distinct(s: seq<nat>) {
    forall i, j :: 0 <= i < j < |s| ==> s[i] != s[j]
  }

  lemma DistinctParts(a: seq<nat>, b: seq<nat>, c: seq<nat>)
    requires Distinct(a + b + c)
    ensures Distinct(a + c) && Distinct(a + b) && Distinct(b + c)
  {
    var s := a + b + c;
    assert forall i :: 0 <= i < |a + c| ==> (a + c)[i] == s[if i < |a| then i else i + |b|];
    assert forall i :: 0 <= i < |a + b| ==> (a + b)[i] == s[i];
    assert forall i :: 0 <= i < |b + c| ==> (b + c)[i] == s[i + |a|];
  }

  /** The identifiers of the RECORD requests of the client. */
  function RecordIds(inputs: seq<Input>): seq<nat> {
    if inputs == [] then [] else RecordId(inputs[0]) + RecordIds(inputs[1..])
  }

  function RecordId(i: Input): seq<nat> {
    if i.ClientRequest? && i.request.verb.Record? then [i.request.id] else []
  }

  /** The RECORD that is held or outstanding. */
  function Open(s: State): seq<nat> {
    if s.record.Some? then [s.record.value.id]
    else if s.pending.Some? && s.pending.value.verb.Record? then [s.pending.value.id]
    else []
  }

  function EndsOf(r: Reaction): seq<nat> {
    if r.outputs == [] then [] else EndedBy(r.outputs[0])
  }

  /** A step passes on at most one output; it ends the open record, keeps it, drops it or replaces it by a new one. */
  lemma StepOpen(s: State, i: Input)
    requires Sound(s) && Matched(s, i)
    ensures var r := Step(s, i);
            && |r.outputs| <= 1
            && (EndsOf(r) == [] ==> Open(r.state) == Open(s) || Open(r.state) == RecordId(i) || Open(r.state) == [])
            && (EndsOf(r) != [] ==> EndsOf(r) == Open(s) && Open(r.state) == [])
  {
    match i
    case ClientRequest(_) =>
    case EngineResponse(_) =>
    case EngineEvent(_, _) =>
    case Shutdown =>
  }

  lemma StepMoves(s: State, i: Input)
    requires Sound(s) && Matched(s, i)
    ensures var r := Step(s, i);
            || EndsIn(r.outputs) + Open(r.state) == Open(s)
            || EndsIn(r.outputs) + Open(r.state) == RecordId(i)
            || EndsIn(r.outputs) + Open(r.state) == []
  {
    var r := Step(s, i);
    StepOpen(s, i);
    Single(r, Open(r.state), Open(s));
  }

  lemma Single(r: Reaction, open': seq<nat>, open: seq<nat>)
    requires |r.outputs| <= 1
    ensures EndsOf(r) == [] ==> EndsIn(r.outputs) + open' == open'
    ensures EndsOf(r) == open && open' == [] ==> EndsIn(r.outputs) + open' == open
  {
    if r.outputs != [] {
      assert r.outputs == [r.outputs[0]];
      OfOne(r.outputs[0]);
    }
  }

  lemma StepKeepsDistinct(done: seq<nat>, open: seq<nat>, new': seq<nat>, rest: seq<nat>, ends: seq<nat>, open': seq<nat>)
    requires Distinct(done + open + (new' + rest))
    requires ends + open' == open || ends + open' == new' || ends + open' == []
    ensures Distinct(done + ends + open' + rest)
  {
    assert done + ends + open' + rest == done + (ends + open') + rest;
    ConcatAssoc(done + open, new', rest);
    DistinctParts(done + open, new', rest);
    ConcatAssoc(done, open, new' + rest);
    DistinctParts(done, open, new' + rest);
    ConcatAssoc(done, new', rest);
    DistinctParts(done, new', rest);
    assert done + [] + rest == done + rest;
  }

  lemma {:induction false} RunEndsOnce(s: State, inputs: seq<Input>, done: seq<nat>)
    requires Sound(s) && MatchedRun(s, inputs) && Distinct(done + Open(s) + RecordIds(inputs))
    ensures Distinct(done + EndsIn(Run(s, inputs).outputs))
    decreases |inputs|
  {
    if inputs == [] {
      assert done + [] == done;
      DistinctParts(done, Open(s), []);
    } else {
      var first := Step(s, inputs[0]);
      var rest := Run(first.state, inputs[1..]);
      var ends := EndsIn(first.outputs);
      StepMoves(s, inputs[0]);
      StepSound(s, inputs[0]);
      StepKeepsDistinct(done, Open(s), RecordId(inputs[0]), RecordIds(inputs[1..]), ends, Open(first.state));
      RunEndsOnce(first.state, inputs[1..], done + ends);
      EndsConcat(first.outputs, rest.outputs);
      ConcatAssoc(done, ends, EndsIn(rest.outputs));
    }
  }

  /** If the RECORD requests of a run have distinct identifiers, each occurs in at most one of the answers to a STOP and
      the RECORD-COMPLETE notifications. */
  lemma EndedOnce(inputs: seq<Input>)
    requires MatchedRun(Initial, inputs) && Distinct(RecordIds(inputs))
    ensures Distinct(EndsIn(Run(Initial, inputs).outputs))
  {
    assert [] + Open(Initial) + RecordIds(inputs) == RecordIds(inputs);
    RunEndsOnce(Initial, inputs, []);
    assert [] + EndsIn(Run(Initial, inputs).outputs) == EndsIn(Run(Initial, inputs).outputs);
  }

  // ----- every request is answered once -----

  function RequestIds(inputs: seq<Input>): seq<nat> {
    if inputs == [] then [] else RequestId(inputs[0]) + RequestIds(inputs[1..])
  }

  function RequestId(i: Input): seq<nat> {
    if i.ClientRequest? then [i.request.id] else []
  }

  /** The requests that the client was given a response to. */
  function AnswersIn(outputs: seq<Output>): seq<nat> {
    if outputs == [] then [] else AnsweredBy(outputs[0]) + AnswersIn(outputs[1..])
  }

  function AnsweredBy(o: Output): seq<nat> {
    match o
    case Answer(m, _) => [m.id]
    case Reject(r) => [r.id]
    case Succeed(r) => [r.id]
    case _ => []
  }

  lemma {:induction false} AnswersConcat(a: seq<Output>, b: seq<Output>)
    ensures AnswersIn(a + b) == AnswersIn(a) + AnswersIn(b)
    decreases |a|
  {
    if a == [] {
      assert a + b == b;
    } else {
      assert (a + b)[0] == a[0] && (a + b)[1..] == a[1..] + b;
      AnswersConcat(a[1..], b);
      ConcatAssoc(AnsweredBy(a[0]), AnswersIn(a[1..]), AnswersIn(b));
    }
  }

  /** The request that the client can still be given an answer to by the engine. */
  function Outstanding(s: State): seq<nat> {
    if s.active then IdOf(s.pending) else []
  }

  lemma StepAnswers(s: State, i: Input)
    ensures var r := Step(s, i);
            || AnswersIn(r.outputs) + Outstanding(r.state) == Outstanding(s)
            || AnswersIn(r.outputs) + Outstanding(r.state) == RequestId(i)
            || AnswersIn(r.outputs) + Outstanding(r.state) == []
  {
    var r := Step(s, i);
    if |r.outputs| == 1 {
      var o := r.outputs[0];
      assert r.outputs == [o] && [o][1..] == [];
      assert AnswersIn([o]) == AnsweredBy(o) + [] == AnsweredBy(o);
    } else {
      assert r.outputs == [];
    }
  }

  lemma {:induction false} RunAnswersOnce(s: State, inputs: seq<Input>, done: seq<nat>)
    requires Distinct(done + Outstanding(s) + RequestIds(inputs))
    ensures Distinct(done + AnswersIn(Run(s, inputs).outputs))
    decreases |inputs|
  {
    if inputs == [] {
      assert done + [] == done;
      DistinctParts(done, Outstanding(s), []);
    } else {
      var first := Step(s, inputs[0]);
      var rest := Run(first.state, inputs[1..]);
      var answers := AnswersIn(first.outputs);
      StepAnswers(s, inputs[0]);
      StepKeepsDistinct(done, Outstanding(s), RequestId(inputs[0]), RequestIds(inputs[1..]), answers, Outstanding(first.state));
      RunAnswersOnce(first.state, inputs[1..], done + answers);
      AnswersConcat(first.outputs, rest.outputs);
      ConcatAssoc(done, answers, AnswersIn(rest.outputs));
    }
  }

  /** If the requests of a run have distinct identifiers, no request is answered twice, whatever the engine does. */
  lemma AnsweredOnce(inputs: seq<Input>)
    requires Distinct(RequestIds(inputs))
    ensures Distinct(AnswersIn(Run(Initial, inputs).outputs))
  {
    assert [] + Outstanding(Initial) + RequestIds(inputs) == RequestIds(inputs);
    RunAnswersOnce(Initial, inputs, []);
    assert [] + AnswersIn(Run(Initial, inputs).outputs) == AnswersIn(Run(Initial, inputs).outputs);
  }

  // ----- deactivation -----

  /** Once deactivated, the client is told nothing any more. */
  lemma {:induction false} RunSilent(s: State, inputs: seq<Input>)
    requires !s.active
    ensures forall o :: o in Run(s, inputs).outputs ==> o.Forward? || o.Deactivated?
    decreases |inputs|
  {
    if inputs != [] {
      RunSilent(Step(s, inputs[0]).state, inputs[1..]);
    }
  }

  /** So it is after a shutdown, whatever happened before it and whatever happens later. */
  lemma ShutdownSilences(inputs: seq<Input>, more: seq<Input>)
    requires MatchedRun(Initial, inputs)
    ensures var before := Run(Initial, inputs + [Shutdown]).outputs;
            var all := Run(Initial, inputs + [Shutdown] + more).outputs;
            before <= all && forall o :: o in all[|before|..] ==> o.Forward? || o.Deactivated?
  {
    var s := Run(Initial, inputs).state;
    RunSound(Initial, inputs);
    RunConcat(Initial, inputs, [Shutdown]);
    RunOne(s, Shutdown);
    RunConcat(Initial, inputs + [Shutdown], more);
    RunSilent(Step(s, Shutdown).state, more);
  }
}

/** The recorder state machine object. */
module Recorders {
  import opened Common
  import opened RecorderModel

  class Recorder {
    var recording: bool
    var pending: Option<Request>
    var record: Option<Request>
    var active: bool
    var faulted: bool
    var outputs: seq<Output>

    ghost function View(): State
      reads this
    {
      State(recording, pending, record, active, faulted)
    }

    constructor ()
      ensures View() == Initial && outputs == []
    {
      recording, pending, record, active, faulted, outputs := false, None, None, true, false, [];
    }

    method DispatchRequest(r: Request)
      modifies this`pending, this`outputs
      ensures View() == Forwarding(old(View()), r).state && outputs == old(outputs) + [Forward(r)]
    {
      pending := Some(r);
      outputs := outputs + [Forward(r)];
    }

    method DispatchResponse(o: Output)
      modifies this`pending, this`outputs
      ensures View() == Responding(old(View()), o).state && outputs == old(outputs) + Responding(old(View()), o).outputs
    {
      pending := None;
      if !active {
        outputs := outputs + [Deactivated];
      } else {
        outputs := outputs + [o];
      }
    }

    method RequestUpdate(r: Request)
      modifies this`pending, this`outputs
      ensures View() == OnRequest(old(View()), r).state && outputs == old(outputs) + OnRequest(old(View()), r).outputs
    {
      match r.verb
      case SetParams =>
        DispatchRequest(r);
      case GetParams =>
        DispatchRequest(r);
      case Record =>
        if recording {
          DispatchResponse(Reject(r));
        } else {
          DispatchRequest(r);
        }
      case Stop =>
        if recording {
          DispatchRequest(r);
        } else {
          DispatchResponse(Succeed(r));
        }
      case StartTimers =>
        if recording {
          DispatchRequest(r);
        } else {
          DispatchResponse(Reject(r));
        }
    }

    method ResponseUpdate(m: Response) returns (ok: bool)
      modifies this
      ensures View() == OnResponse(old(View()), m).state && outputs == old(outputs) + OnResponse(old(View()), m).outputs
      ensures ok == (old(pending.Some? && pending.value.id == m.id) && !(m.verb.Stop? && old(record.None?)))
    {
      ok := pending.Some? && pending.value.id == m.id;
      if !ok {
        return;
      }
      var ids := [];
      if m.verb.Record? && m.inProgress {
        record, recording := pending, true;
      } else if m.verb.Stop? {
        if record.None? {
          faulted, ok := true, false;
          return;
        }
        ids := [record.value.id];
        recording, record := false, None;
      }
      DispatchResponse(Answer(m, ids));
    }

    method EventUpdate(kind: EventKind, id: nat) returns (ok: bool)
      modifies this`recording, this`record, this`outputs
      ensures View() == OnEvent(old(View()), kind, id).state && outputs == old(outputs) + OnEvent(old(View()), kind, id).outputs
      ensures ok <==> outputs != old(outputs)
    {
      ok := false;
      if record.None? || record.value.id != id {
        return;
      }
      if kind.RecordComplete? {
        if pending.Some? && pending.value.verb.Stop? {
          return;
        }
        recording, record := false, None;
      }
      if active {
        outputs := outputs + [Notify(kind, id)];
        ok := true;
      }
    }

    method Deactivate() returns (ok: bool)
      modifies this`active, this`pending, this`outputs
      ensures View() == OnShutdown(old(View())).state && outputs == old(outputs) + OnShutdown(old(View())).outputs
      ensures ok <==> recording && record.Some?
    {
      active := false;
      ok := recording && record.Some?;
      if ok {
        DispatchRequest(Request(record.value.id + 1, Stop));
      }
    }

    method Update(i: Input)
      modifies this
      ensures View() == Step(old(View()), i).state && outputs == old(outputs) + Step(old(View()), i).outputs
      ensures Sound(old(View())) && Matched(old(View()), i) ==> Sound(View())
    {
      if faulted {
        return;
      }
      match i
      case ClientRequest(r) => RequestUpdate(r);
      case EngineResponse(m) => var _ := ResponseUpdate(m);
      case EngineEvent(kind, id) => var _ := EventUpdate(kind, id);
      case Shutdown => var _ := Deactivate();
    }
  }

  /** Drives a new state machine through a run: if responses carry the method of their request and RECORD requests have
      distinct identifiers, it does not fault and tells the end of each record at most once. */
  method RunRecorder(inputs: seq<Input>) returns (outputs: seq<Output>, recording: bool, record: Option<Request>, faulted: bool)
    ensures var r := Run(Initial, inputs);
            && outputs == r.outputs && recording == r.state.recording && record == r.state.record && faulted == r.state.faulted
    ensures MatchedRun(Initial, inputs) ==> !faulted && (recording <==> record.Some?)
    ensures MatchedRun(Initial, inputs) && NoShutdown(inputs) ==> outputs == Told(inputs)
    ensures MatchedRun(Initial, inputs) && Distinct(RecordIds(inputs)) ==> Distinct(EndsIn(outputs))
  {
    var recorder := new Recorder();
    for i := 0 to |inputs|
      invariant fresh(recorder)
      invariant recorder.View() == Run(Initial, inputs[..i]).state && recorder.outputs == Run(Initial, inputs[..i]).outputs
    {
      assert inputs[..i + 1] == inputs[..i] + [inputs[i]];
      RunConcat(Initial, inputs[..i], [inputs[i]]);
      RunOne(recorder.View(), inputs[i]);
      recorder.Update(inputs[i]);
    }
    assert inputs[..|inputs|] == inputs;
    outputs, recording, record, faulted := recorder.outputs, recorder.recording, recorder.record, recorder.faulted;
    if MatchedRun(Initial, inputs) {
      RunSound(Initial, inputs);
      if NoShutdown(inputs) {
        RunReflects(inputs);
      }
      if Distinct(RecordIds(inputs)) {
        EndedOnce(inputs);
      }
    }
  }
}
