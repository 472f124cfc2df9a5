/** Commands on their way to the media engine and back (libs/mpf/src/mpf_engine.c), over values: they are collected in
    messages of up to five, queued, executed, and answered. */
module EngineModel {
  import opened Common

  const MAX_MESSAGE_COUNT: nat := 5

  /** A command and who sent it. */
  datatype Command = Command(sender: nat, id: nat)

  /** The commands of one sender. */
  function Of(commands: seq<Command>, k: nat): seq<Command> {
    if commands == [] then []
    else
      var n := |commands| - 1;
      Of(commands[..n], k) + if commands[n].sender == k then [commands[n]] else []
  }

  lemma {:induction false} OfConcat(a: seq<Command>, b: seq<Command>, k: nat)
    ensures Of(a + b, k) == Of(a, k) + Of(b, k)
    decreases |b|
  {
    if b == [] {
      assert a + b == a;
    } else {
      var n := |b| - 1;
      assert (a + b)[..|a + b| - 1] == a + b[..n] && (a + b)[|a + b| - 1] == b[n];
      OfConcat(a, b[..n], k);
      ConcatAssoc(Of(a, k), Of(b[..n], k), if b[n].sender == k then [b[n]] else []);
    }
  }

  function Flatten(messages: seq<seq<Command>>): seq<Command> {
    if messages == [] then [] else messages[0] + Flatten(messages[1..])
  }

  lemma {:induction false} FlattenConcat(a: seq<seq<Command>>, b: seq<seq<Command>>)
    ensures Flatten(a + b) == Flatten(a) + Flatten(b)
    decreases |a|
  {
    if a == [] {
      assert a + b == b;
    } else {
      assert (a + b)[0] == a[0] && (a + b)[1..] == a[1..] + b;
      FlattenConcat(a[1..], b);
      ConcatAssoc(a[0], Flatten(a[1..]), Flatten(b));
    }
  }

  lemma OneMessage(m: seq<Command>)
    ensures Flatten([m]) == m
  {
    assert [m][1..] == [];
    assert m + Flatten([]) == m;
  }

  /** The message that a sender is filling. */
  function Batch(batches: map<nat, seq<Command>>, k: nat): seq<Command> {
    if k in batches then batches[k] else []
  }

  // ----- the engine -----

  datatype Engine = Engine(batches: map<nat, seq<Command>>, queue: seq<seq<Command>>, executed: seq<Command>,
                           replies: seq<seq<Command>>)

  const NewEngine := Engine(map[], [], [], [])

  /** Queues the message of a sender, if there is one. */
  function Sent(e: Engine, k: nat): Engine {
    if k in e.batches then e.(queue := e.queue + [e.batches[k]], batches := e.batches - {k}) else e
  }

  /** A full message is sent before a command is added. */
  function Collected(e: Engine, c: Command): Engine {
    var e := if |Batch(e.batches, c.sender)| >= MAX_MESSAGE_COUNT then Sent(e, c.sender) else e;
    e.(batches := e.batches[c.sender := Batch(e.batches, c.sender) + [c]])
  }

  /** Executes and answers a message. */
  function Processed(e: Engine, message: seq<Command>): Engine {
    e.(executed := e.executed + message, replies := e.replies + [message])
  }

  /** Executes and answers all messages that are queued. */
  function Drained(e: Engine): Engine
    decreases |e.queue|
  {
    if e.queue == [] then e else Drained(Processed(e.(queue := e.queue[1..]), e.queue[0]))
  }

  /** What senders and the engine do. */
  datatype Action = Add(command: Command) | Send(sender: nat) | Drain

  function Step(e: Engine, a: Action): Engine {
    match a
    case Add(c) => Collected(e, c)
    case Send(k) => Sent(e, k)
    case Drain => Drained(e)
  }

  function Run(e: Engine, actions: seq<Action>): Engine
    decreases |actions|
  {
    if actions == [] then e else Run(Step(e, actions[0]), actions[1..])
  }

  lemma {:induction false} RunConcat(e: Engine, a: seq<Action>, b: seq<Action>)
    ensures Run(e, a + b) == Run(Run(e, a), b)
    decreases |a|
  {
    if a == [] {
      assert a + b == b;
    } else {
      assert (a + b)[0] == a[0] && (a + b)[1..] == a[1..] + b;
      RunConcat(Step(e, a[0]), a[1..], b);
    }
  }

  lemma RunOne(e: Engine, a: Action)
    ensures Run(e, [a]) == Step(e, a)
  {
    assert [a][1..] == [];
  }

  function AddedBy(a: Action): seq<Command> {
    if a.Add? then [a.command] else []
  }

  /** The commands that are added in a run. */
  function Added(actions: seq<Action>): seq<Command> {
    if actions == [] then [] else AddedBy(actions[0]) + Added(actions[1..])
  }

  lemma {:induction false} AddedConcat(a: seq<Action>, b: seq<Action>)
    ensures Added(a + b) == Added(a) + Added(b)
    decreases |a|
  {
    if a == [] {
      assert a + b == b;
    } else {
      assert (a + b)[0] == a[0] && (a + b)[1..] == a[1..] + b;
      AddedConcat(a[1..], b);
      ConcatAssoc(AddedBy(a[0]), Added(a[1..]), Added(b));
    }
  }

  // ----- messages -----

  predicate OnlyFrom(commands: seq<Command>, k: nat) {
    forall i :: 0 <= i < |commands| ==> commands[i].sender == k
  }

  predicate IsMessage(m: seq<Command>) {
    0 < |m| <= MAX_MESSAGE_COUNT && OnlyFrom(m, m[0].sender)
  }

  /** Messages are not empty, not too long, and each from one sender. */
  predicate Tidy(e: Engine) {
    && (forall k :: k in e.batches ==> IsMessage(e.batches[k]) && OnlyFrom(e.batches[k], k))
    && (forall i :: 0 <= i < |e.queue| ==> IsMessage(e.queue[i]))
    && (forall i :: 0 <= i < |e.replies| ==> IsMessage(e.replies[i]))
    && Flatten(e.replies) == e.executed
  }

  lemma SentTidy(e: Engine, k: nat)
    requires Tidy(e)
    ensures Tidy(Sent(e, k))
  {
  }

  lemma CollectedTidy(e: Engine, c: Command)
    requires Tidy(e)
    ensures Tidy(Collected(e, c))
  {
    SentTidy(e, c.sender);
    var e1 := if |Batch(e.batches, c.sender)| >= MAX_MESSAGE_COUNT then Sent(e, c.sender) else e;
    var m := Batch(e1.batches, c.sender) + [c];
    assert IsMessage(m) && OnlyFrom(m, c.sender);
  }

  lemma ProcessedTidy(e: Engine, message: seq<Command>)
    requires Tidy(e) && IsMessage(message)
    ensures Tidy(Processed(e, message))
  {
    FlattenConcat(e.replies, [message]);
    OneMessage(message);
  }

  lemma {:induction false} DrainedTidy(e: Engine)
    requires Tidy(e)
    ensures Tidy(Drained(e)) && Drained(e).queue == [] && Drained(e).batches == e.batches
    decreases |e.queue|
  {
    if e.queue != [] {
      ProcessedTidy(e.(queue := e.queue[1..]), e.queue[0]);
      DrainedTidy(Processed(e.(queue := e.queue[1..]), e.queue[0]));
    }
  }

  lemma StepTidy(e: Engine, a: Action)
    requires Tidy(e)
    ensures Tidy(Step(e, a))
  {
    match a
    case Add(c) => CollectedTidy(e, c);
    case Send(k) => SentTidy(e, k);
    case Drain => DrainedTidy(e);
  }

  /** In every run, messages hold one to five commands of one sender, and what is executed is answered. */
  lemma {:induction false} RunTidy(e: Engine, actions: seq<Action>)
    requires Tidy(e)
    ensures Tidy(Run(e, actions))
    decreases |actions|
  {
    if actions != [] {
      StepTidy(e, actions[0]);
      RunTidy(Step(e, actions[0]), actions[1..]);
    }
  }

  // ----- every sender sees a queue -----

  lemma {:induction false} OfOthers(commands: seq<Command>, k: nat, j: nat)
    requires OnlyFrom(commands, k)
    ensures Of(commands, j) == if j == k then commands else []
    decreases |commands|
  {
    if commands != [] {
      OfOthers(commands[..|commands| - 1], k, j);
      assert commands == commands[..|commands| - 1] + [commands[|commands| - 1]];
    }
  }

  /** The commands of a sender that are not executed yet. */
  function Waiting(e: Engine, k: nat): seq<Command> {
    Of(Flatten(e.queue), k) + Batch(e.batches, k)
  }

  /** Sending does not change what waits. */
  lemma SentWaits(e: Engine, k: nat, j: nat)
    requires Tidy(e)
    ensures Waiting(Sent(e, k), j) == Waiting(e, j)
  {
    if k in e.batches {
      var m, queued := e.batches[k], Of(Flatten(e.queue), j);
      assert Of(Flatten(e.queue + [m]), j) == queued + if j == k then m else [] by {
        FlattenConcat(e.queue, [m]);
        OneMessage(m);
        OfConcat(Flatten(e.queue), m, j);
        OfOthers(m, k, j);
      }
      assert queued + m + [] == queued + m && queued + [] == queued;
    }
  }

  /** A command waits behind all others of its sender. */
  lemma CollectedWaits(e: Engine, c: Command, j: nat)
    requires Tidy(e)
    ensures Waiting(Collected(e, c), j) == Waiting(e, j) + Of([c], j)
  {
    SentWaits(e, c.sender, j);
    var e1 := if |Batch(e.batches, c.sender)| >= MAX_MESSAGE_COUNT then Sent(e, c.sender) else e;
    OfOthers([c], c.sender, j);
    ConcatAssoc(Of(Flatten(e1.queue), j), Batch(e1.batches, j), Of([c], j));
    assert Batch(e1.batches, j) + [] == Batch(e1.batches, j);
  }

  function Adds(commands: seq<Command>): seq<Action> {
    if commands == [] then [] else Adds(commands[..|commands| - 1]) + [Add(commands[|commands| - 1])]
  }

  lemma RunAdds(commands: seq<Command>, c: Command)
    ensures Run(NewEngine, Adds(commands + [c])) == Collected(Run(NewEngine, Adds(commands)), c)
  {
    assert (commands + [c])[..|commands|] == commands;
    RunConcat(NewEngine, Adds(commands), [Add(c)]);
    RunOne(Run(NewEngine, Adds(commands)), Add(c));
  }

  /** n commands of sender k fill messages of five; the rest waits. */
  predicate Filled(e: Engine, k: nat, commands: seq<Command>) {
    var n := |commands|;
    && n > 0 && |e.queue| == (n - 1) / 5 && (forall i :: 0 <= i < |e.queue| ==> |e.queue[i]| == 5)
    && |Batch(e.batches, k)| == (n - 1) % 5 + 1
    && Flatten(e.queue) + Batch(e.batches, k) == commands
  }

  lemma FilledNext(e: Engine, k: nat, commands: seq<Command>, c: Command)
    requires Filled(e, k, commands) && c.sender == k
    ensures Filled(Collected(e, c), k, commands + [c])
  {
    if |Batch(e.batches, k)| == 5 {
      FlattenConcat(e.queue, [e.batches[k]]);
      OneMessage(e.batches[k]);
    } else {
      ConcatAssoc(Flatten(e.queue), Batch(e.batches, k), [c]);
    }
  }

  /** Commands that one sender adds without sending them fill messages of exactly five, and a message is only sent when
      there is a sixth command; the last one to five commands wait. */
  lemma {:induction false} FillsMessages(k: nat, commands: seq<Command>)
    requires OnlyFrom(commands, k) && commands != []
    ensures Filled(Run(NewEngine, Adds(commands)), k, commands)
    decreases |commands|
  {
    var before, c := commands[..|commands| - 1], commands[|commands| - 1];
    assert commands == before + [c];
    RunAdds(before, c);
    if before == [] {
      assert [] + [c] == commands;
    } else {
      FillsMessages(k, before);
      FilledNext(Run(NewEngine, Adds(before)), k, before, c);
    }
  }

  lemma ProcessedWaits(e: Engine, j: nat)
    requires e.queue != []
    ensures var e' := Processed(e.(queue := e.queue[1..]), e.queue[0]);
            Of(e.executed, j) + Waiting(e, j) == Of(e'.executed, j) + Waiting(e', j)
  {
    var m, rest := e.queue[0], Flatten(e.queue[1..]);
    OfConcat(m, rest, j);
    OfConcat(e.executed, m, j);
    ConcatAssoc(Of(m, j), Of(rest, j), Batch(e.batches, j));
    ConcatAssoc(Of(e.executed, j), Of(m, j), Of(rest, j) + Batch(e.batches, j));
  }

  lemma {:induction false} DrainedWaits(e: Engine, j: nat)
    ensures Of(e.executed, j) + Waiting(e, j) == Of(Drained(e).executed, j) + Waiting(Drained(e), j)
    decreases |e.queue|
  {
    if e.queue != [] {
      ProcessedWaits(e, j);
      DrainedWaits(Processed(e.(queue := e.queue[1..]), e.queue[0]), j);
    }
  }

  /** What a sender has been executed and what waits changes only by what it adds. */
  lemma StepConserves(e: Engine, a: Action, j: nat)
    requires Tidy(e)
    ensures Of(Step(e, a).executed, j) + Waiting(Step(e, a), j) == Of(e.executed, j) + Waiting(e, j) + Of(AddedBy(a), j)
  {
    match a
    case Add(c) =>
      CollectedWaits(e, c, j);
      ConcatAssoc(Of(e.executed, j), Waiting(e, j), Of([c], j));
    case Send(k) => SentWaits(e, k, j);
    case Drain => DrainedWaits(e, j);
  }

  lemma {:induction false} RunConserves(e: Engine, actions: seq<Action>, j: nat)
    requires Tidy(e)
    ensures var e' := Run(e, actions);
            Of(e'.executed, j) + Waiting(e', j) == Of(e.executed, j) + Waiting(e, j) + Of(Added(actions), j)
    decreases |actions|
  {
    if actions != [] {
      var e1, first, rest := Step(e, actions[0]), AddedBy(actions[0]), Added(actions[1..]);
      StepTidy(e, actions[0]);
      StepConserves(e, actions[0], j);
      RunConserves(e1, actions[1..], j);
      OfConcat(first, rest, j);
      ConcatAssoc(Of(e.executed, j) + Waiting(e, j), Of(first, j), Of(rest, j));
    }
  }

  /** In every run, and for every sender, what was added is executed or waits, in order. */
  lemma InOrder(actions: seq<Action>, k: nat)
    ensures var e := Run(NewEngine, actions);
            Of(Added(actions), k) == Of(e.executed, k) + Waiting(e, k) && Flatten(e.replies) == e.executed
  {
    NothingYet(k);
    RunConserves(NewEngine, actions, k);
    RunTidy(NewEngine, actions);
    assert [] + Of(Added(actions), k) == Of(Added(actions), k);
  }

  lemma NothingYet(k: nat)
    ensures Of(NewEngine.executed, k) + Waiting(NewEngine, k) == []
  {
  }

  // ----- nothing waits for ever -----

  predicate AddsNothing(actions: seq<Action>, k: nat) {
    forall i :: 0 <= i < |actions| ==> !(actions[i].Add? && actions[i].command.sender == k)
  }

  lemma {:induction false} DrainedFrame(e: Engine)
    ensures Drained(e).queue == [] && Drained(e).batches == e.batches
    decreases |e.queue|
  {
    if e.queue != [] {
      DrainedFrame(Processed(e.(queue := e.queue[1..]), e.queue[0]));
    }
  }

  /** A message that was sent stays sent while its sender adds nothing. */
  lemma {:induction false} StaysSent(e: Engine, actions: seq<Action>, k: nat)
    requires k !in e.batches && AddsNothing(actions, k)
    ensures k !in Run(e, actions).batches
    decreases |actions|
  {
    if actions != [] {
      DrainedFrame(e);
      StaysSent(Step(e, actions[0]), actions[1..], k);
    }
  }

  lemma {:induction false} NothingAdded(actions: seq<Action>, k: nat)
    requires AddsNothing(actions, k)
    ensures Of(Added(actions), k) == []
    decreases |actions|
  {
    if actions != [] {
      NothingAdded(actions[1..], k);
      OfConcat(AddedBy(actions[0]), Added(actions[1..]), k);
      if actions[0].Add? {
        OfOthers([actions[0].command], actions[0].command.sender, k);
      }
    }
  }

  /** When a sender has sent its last command and the engine has drained its queue after that, all commands of the sender
      are executed and answered, whatever other senders do. */
  lemma AllExecuted(a: seq<Action>, b: seq<Action>, c: seq<Action>, k: nat)
    requires AddsNothing(b, k) && AddsNothing(c, k)
    ensures var actions := a + [Send(k)] + b + [Drain] + c;
            Of(Run(NewEngine, actions).executed, k) == Of(Added(actions), k)
  {
    var before := a + [Send(k)] + b + [Drain];
    var e0 := Run(NewEngine, a);
    var e1 := Step(e0, Send(k));
    var e2 := Run(e1, b);
    var e3 := Step(e2, Drain);
    assert Run(NewEngine, before) == e3 by {
      RunConcat(NewEngine, a, [Send(k)]);
      RunOne(e0, Send(k));
      RunConcat(NewEngine, a + [Send(k)], b);
      RunConcat(NewEngine, a + [Send(k)] + b, [Drain]);
      RunOne(e2, Drain);
    }
    StaysSent(e1, b, k);
    DrainedFrame(e2);
    AllExecutedThen(before, c, k);
  }

  lemma AllExecutedThen(before: seq<Action>, c: seq<Action>, k: nat)
    requires Run(NewEngine, before).queue == [] && k !in Run(NewEngine, before).batches && AddsNothing(c, k)
    ensures Of(Run(NewEngine, before + c).executed, k) == Of(Added(before + c), k)
  {
    var e3 := Run(NewEngine, before);
    RunTidy(NewEngine, before);
    RunConcat(NewEngine, before, c);
    InOrder(before, k);
    RunConserves(e3, c, k);
    NothingAdded(c, k);
    AddedConcat(before, c);
    OfConcat(Added(before), Added(c), k);
    StaysSent(e3, c, k);
    QueueStaysClear(e3, c, k);
  }

  /** Nothing of a sender is queued while it has no message. */
  lemma {:induction false} QueueStaysClear(e: Engine, actions: seq<Action>, k: nat)
    requires Tidy(e) && k !in e.batches && AddsNothing(actions, k) && Of(Flatten(e.queue), k) == []
    ensures Waiting(Run(e, actions), k) == []
    decreases |actions|
  {
    if actions != [] {
      var e1 := Step(e, actions[0]);
      StepTidy(e, actions[0]);
      match actions[0] {
        case Add(c) =>
          CollectedWaits(e, c, k);
          OfOthers([c], c.sender, k);
        case Send(j) => SentWaits(e, j, k);
        case Drain => DrainedFrame(e);
      }
      StaysSent(e, [actions[0]], k);
      RunOne(e, actions[0]);
      QueueStaysClear(e1, actions[1..], k);
    }
  }
}

/** The media engine object. */
module MediaEngines {
  import opened Common
  import opened CyclicQueues
  import opened EngineModel

  /** CYCLIC_QUEUE_DEFAULT_SIZE. */
  const QUEUE_SIZE: nat := 100

  class MediaEngine {
    const queue: CyclicQueue<seq<Command>>
    var batches: map<nat, seq<Command>>
    var executed: seq<Command>
    var replies: seq<seq<Command>>

    ghost predicate Valid()
      reads this, queue, queue.data
    {
      queue.Valid() && queue.data.Length >= 2
    }

    ghost function State(): Engine
      requires Valid()
      reads this, queue, queue.data
    {
      Engine(batches, queue.Contents(), executed, replies)
    }

    constructor ()
      ensures Valid() && fresh(queue) && fresh(queue.data) && State() == NewEngine
    {
      queue := new CyclicQueue(QUEUE_SIZE);
      batches, executed, replies := map[], [], [];
    }

    /** Adds a command to the message of its sender; a full one is sent first. */
    method Add(c: Command)
      requires Valid()
      modifies this`batches, queue, queue.data
      ensures Valid() && State() == Collected(old(State()), c)
      ensures queue.data == old(queue.data) || fresh(queue.data)
    {
      if |Batch(batches, c.sender)| >= MAX_MESSAGE_COUNT {
        Send(c.sender);
      }
      batches := batches[c.sender := Batch(batches, c.sender) + [c]];
    }

    /** Queues the message of a sender, if there is one. */
    method Send(k: nat)
      requires Valid()
      modifies this`batches, queue, queue.data
      ensures Valid() && State() == Sent(old(State()), k)
      ensures queue.data == old(queue.data) || fresh(queue.data)
    {
      if k in batches {
        var _ := queue.Push(batches[k]);
        batches := batches - {k};
      }
    }

    /** Executes and answers the commands of a message, in order. */
    method Process(message: seq<Command>)
      modifies this`executed, this`replies
      ensures executed == old(executed) + message && replies == old(replies) + [message]
    {
      ghost var before := executed;
      for i := 0 to |message|
        invariant executed == before + message[..i] && replies == old(replies)
      {
        executed := executed + [message[i]];
      }
      assert message[..|message|] == message;
      replies := replies + [message];
    }

    /** Empties the queue. */
    method Drain()
      requires Valid()
      modifies this`executed, this`replies, queue
      ensures Valid() && State() == Drained(old(State())) && queue.data == old(queue.data)
    {
      ghost var goal := Drained(State());
      var found, message := queue.Pop();
      while found
        invariant Valid() && queue.data == old(queue.data)
        invariant goal == Drained(if found then State().(queue := [message] + queue.Contents()) else State())
        invariant !found ==> queue.Contents() == []
        decreases found, |queue.Contents()|
      {
        ghost var e := State();
        assert ([message] + e.queue)[0] == message && ([message] + e.queue)[1..] == e.queue;
        Process(message);
        found, message := queue.Pop();
      }
    }

    method Perform(a: Action)
      requires Valid()
      modifies this, queue, queue.data
      ensures Valid() && State() == Step(old(State()), a)
      ensures queue.data == old(queue.data) || fresh(queue.data)
    {
      match a
      case Add(c) => Add(c);
      case Send(k) => Send(k);
      case Drain => Drain();
    }
  }

  /** Drives a new engine through a run: for every sender, what is executed are the first ones of the commands that were
      added, in order, and it is all answered. */
  method RunEngine(actions: seq<Action>) returns (executed: seq<Command>, replies: seq<seq<Command>>)
    ensures var e := Run(NewEngine, actions); executed == e.executed && replies == e.replies
    ensures Flatten(replies) == executed && forall k :: Of(executed, k) <= Of(Added(actions), k)
  {
    var engine := new MediaEngine();
    for i := 0 to |actions|
      invariant engine.Valid() && fresh(engine) && fresh(engine.queue) && fresh(engine.queue.data)
      invariant Run(engine.State(), actions[i..]) == Run(NewEngine, actions)
    {
      assert actions[i..][1..] == actions[i + 1..];
      engine.Perform(actions[i]);
    }
    executed, replies := engine.executed, engine.replies;
    InOrder(actions, 0);
    forall k
      ensures Of(executed, k) <= Of(Added(actions), k)
    {
      InOrder(actions, k);
    }
  }
}
