/** Termination of a client session: the sub-requests it fans out, their replies and the one response to the
    application (libs/mrcp-client/src/mrcp_client_session.c). */
module ClientSessions {
  import opened Common

  /** A channel with its control channel and its media termination, and whether their removal is awaited. */
  datatype Channel = Channel(control: bool, termination: Option<nat>,
                             waitingForChannel: bool, waitingForTermination: bool)

  /** A slot for the RTP termination that belongs to a channel. */
  datatype Slot = Slot(termination: Option<nat>, waiting: bool)

  datatype Request = TerminateRequest | OtherRequest(id: nat)

  datatype Status = Success | Failure | Disconnected

  datatype Response = Response(request: Request, status: Status)

  /** A command sent to the media engine. */
  datatype Command = DestroyTopology | Subtract(termination: nat)

  datatype Session = Session(terminating: bool, count: nat, context: bool, channels: seq<Channel>, slots: seq<Slot>,
                             active: Option<Request>, queue: seq<Request>, status: Status,
                             disconnected: bool, listed: bool, raised: seq<Response>)

  /** A session with the requests that have not been answered yet: media commands in the order of their replies,
      the channels being removed, and the signalling request. */
  datatype World = World(session: Session, media: seq<Command>, control: set<nat>, signalling: bool)

  function Outstanding(w: World): nat {
    |w.media| + |w.control| + if w.signalling then 1 else 0
  }

  // ----- what termination sends -----

  function ChannelCommands(channels: seq<Channel>, n: nat): seq<Command>
    requires n <= |channels|
  {
    if n == 0 then []
    else ChannelCommands(channels, n - 1) + SubtractOf(channels[n - 1].termination)
  }

  function SlotCommands(slots: seq<Slot>, n: nat): seq<Command>
    requires n <= |slots|
  {
    if n == 0 then []
    else SlotCommands(slots, n - 1) + SubtractOf(slots[n - 1].termination)
  }

  function SubtractOf(termination: Option<nat>): seq<Command> {
    if termination.Some? then [Subtract(termination.value)] else []
  }

  /** Every media command of a termination, in order. */
  function Commands(s: Session): seq<Command> {
    (if s.context then [DestroyTopology] else []) + ChannelCommands(s.channels, |s.channels|)
    + if s.context then SlotCommands(s.slots, |s.slots|) else []
  }

  /** The control channels whose removal was accepted. */
  function Removals(channels: seq<Channel>, accepts: seq<bool>, n: nat): set<nat>
    requires n <= |channels| == |accepts|
  {
    set i: nat | i < n && channels[i].control && accepts[i]
  }

  lemma RemovalsStep(channels: seq<Channel>, accepts: seq<bool>, n: nat)
    requires n < |channels| == |accepts|
    ensures var now := Removals(channels, accepts, n);
            n !in now &&
            Removals(channels, accepts, n + 1) == if channels[n].control && accepts[n] then now + {n} else now
  {
  }

  function AwaitedChannel(c: Channel, accepted: bool): Channel {
    c.(waitingForChannel := c.waitingForChannel || (c.control && accepted),
       waitingForTermination := c.waitingForTermination || c.termination.Some?)
  }

  function AwaitedSlot(s: Slot): Slot {
    s.(waiting := s.waiting || s.termination.Some?)
  }

  function AwaitedChannels(channels: seq<Channel>, accepts: seq<bool>): (r: seq<Channel>)
    requires |accepts| == |channels|
    ensures |r| == |channels| && forall i :: 0 <= i < |r| ==> r[i] == AwaitedChannel(channels[i], accepts[i])
  {
    seq(|channels|, i requires 0 <= i < |channels| => AwaitedChannel(channels[i], accepts[i]))
  }

  /** The first n channels are awaited. */
  function PartlyAwaited(channels: seq<Channel>, accepts: seq<bool>, n: nat): (r: seq<Channel>)
    requires |accepts| == |channels| && n <= |channels|
    ensures |r| == |channels|
    ensures forall i :: 0 <= i < |r| ==> r[i] == if i < n then AwaitedChannel(channels[i], accepts[i]) else channels[i]
  {
    seq(|channels|, i requires 0 <= i < |channels| => if i < n then AwaitedChannel(channels[i], accepts[i]) else channels[i])
  }

  lemma PartlyEnds(channels: seq<Channel>, accepts: seq<bool>)
    requires |accepts| == |channels|
    ensures PartlyAwaited(channels, accepts, 0) == channels
    ensures PartlyAwaited(channels, accepts, |channels|) == AwaitedChannels(channels, accepts)
  {
  }

  lemma PartlyNext(channels: seq<Channel>, accepts: seq<bool>, n: nat)
    requires |accepts| == |channels| && n < |channels|
    ensures var r := PartlyAwaited(channels, accepts, n);
            r[n] == channels[n] && PartlyAwaited(channels, accepts, n + 1) == r[n := AwaitedChannel(r[n], accepts[n])]
  {
  }

  function AwaitedSlots(slots: seq<Slot>): (r: seq<Slot>)
    ensures |r| == |slots| && forall i :: 0 <= i < |r| ==> r[i] == AwaitedSlot(slots[i])
  {
    seq(|slots|, i requires 0 <= i < |slots| => AwaitedSlot(slots[i]))
  }

  /** The channels after their control channels are destroyed. */
  function Uncontrolled(channels: seq<Channel>): (r: seq<Channel>)
    ensures |r| == |channels| && forall i :: 0 <= i < |r| ==> r[i] == channels[i].(control := false)
  {
    seq(|channels|, i requires 0 <= i < |channels| => channels[i].(control := false))
  }

  /** The session after a terminate request: it answers at once when it was never registered, and media commands
      are only sent when there is a context. */
  function Start(s: Session, accepts: seq<bool>): World
    requires |accepts| == |s.channels|
  {
    if !s.listed then World(Respond(s.(active := Some(TerminateRequest), status := Success), false), [], {}, false)
    else
      var control := Removals(s.channels, accepts, |s.channels|);
      var s' := s.(terminating := true, active := Some(TerminateRequest), status := Success,
                   count := |Commands(s)| + |control| + 1,
                   channels := AwaitedChannels(s.channels, accepts),
                   slots := if s.context then AwaitedSlots(s.slots) else s.slots);
      World(s', if s.context then Commands(s) else [], control, true)
  }

  // ----- how replies are handled -----

  /** Raises the response to the active request.  A pending request that then becomes active is refused, since
      the session is being terminated. */
  function Respond(s: Session, pending: bool): Session {
    if s.active.None? then s
    else
      var status := if s.disconnected then Disconnected else s.status;
      var s' := s.(active := None, status := status, raised := s.raised + [Response(s.active.value, status)]);
      if pending && s.queue != [] then s'.(active := Some(s.queue[0]), queue := s.queue[1..]) else s'
  }

  /** Takes the session out of service and raises the response. */
  function RaiseTerminated(s: Session, status: Status): Session {
    Respond(s.(channels := Uncontrolled(s.channels), listed := false, status := if status != Success then status else s.status), false)
  }

  /** Index of the first slot from i on that holds t. */
  function FindSlot(slots: seq<Slot>, t: nat, i: nat): (found: Option<nat>)
    requires i <= |slots|
    ensures found.Some? ==> i <= found.value < |slots| && slots[found.value].termination == Some(t)
    decreases |slots| - i
  {
    if i == |slots| then None else if slots[i].termination == Some(t) then Some(i) else FindSlot(slots, t, i + 1)
  }

  function FindChannel(channels: seq<Channel>, t: nat, i: nat): (found: Option<nat>)
    requires i <= |channels|
    ensures found.Some? ==> i <= found.value < |channels| && channels[found.value].termination == Some(t)
    decreases |channels| - i
  {
    if i == |channels| then None
    else if channels[i].termination == Some(t) then Some(i)
    else FindChannel(channels, t, i + 1)
  }

  predicate IsSlot(s: Session, t: nat) {
    FindSlot(s.slots, t, 0).Some?
  }

  /** Somebody waits for t to be subtracted: only the first slot or else the first channel that holds it counts. */
  predicate Awaited(s: Session, t: nat) {
    if IsSlot(s, t) then s.slots[FindSlot(s.slots, t, 0).value].waiting
    else
      var c := FindChannel(s.channels, t, 0);
      c.Some? && s.channels[c.value].waitingForTermination
  }

  function Unflagged(s: Session, t: nat): Session
    requires Awaited(s, t)
  {
    if IsSlot(s, t) then
      var k := FindSlot(s.slots, t, 0).value;
      s.(slots := s.slots[k := s.slots[k].(waiting := false)])
    else
      var k := FindChannel(s.channels, t, 0).value;
      s.(channels := s.channels[k := s.channels[k].(waitingForTermination := false)])
  }

  function Counted(s: Session): Session {
    if s.count == 0 then s else s.(count := s.count - 1)
  }

  function OnSubtract(s: Session, t: nat): Session {
    if !Awaited(s, t) then s
    else
      var s' := Counted(Unflagged(s, t));
      if s.count != 1 then s' else if IsSlot(s, t) then RaiseTerminated(s', Success) else Respond(s', true)
  }

  /** Outside of well-formed sessions, the last reply may be that of a channel termination: then the active request is
      answered, the session stays in service, and the first request that waits becomes active. */
  lemma ChannelPathAnswers(s: Session, t: nat)
    requires Awaited(s, t) && !IsSlot(s, t) && s.count == 1 && s.active.Some?
    ensures var s' := OnSubtract(s, t);
            && s'.raised == s.raised + [Response(s.active.value, if s.disconnected then Disconnected else s.status)]
            && s'.listed == s.listed && s'.count == 0
            && (if s.queue == [] then s'.active == None && s'.queue == []
                else s'.active == Some(s.queue[0]) && [s.queue[0]] + s'.queue == s.queue)
  {
  }

  function OnMedia(s: Session, c: Command): Session {
    match c
    case DestroyTopology => Counted(s)
    case Subtract(t) => OnSubtract(s, t)
  }

  function OnChannelRemoved(s: Session, i: nat, ok: bool): Session
    requires i < |s.channels|
  {
    if !s.channels[i].waitingForChannel then s
    else
      var s' := Counted(s.(channels := s.channels[i := s.channels[i].(waitingForChannel := false)]));
      if s.count == 1 then RaiseTerminated(s', if ok then Success else Failure) else s'
  }

  function OnTerminateResponse(s: Session): Session {
    if s.count == 1 then RaiseTerminated(Counted(s), Success) else Counted(s)
  }

  function OnRequest(s: Session, r: Request): Session {
    if s.active.Some? then s.(queue := s.queue + [r]) else s.(active := Some(r))
  }

  /** What can happen to a session that is being terminated. */
  datatype Event =
    | MediaReply
    | ChannelReply(channel: nat, ok: bool)
    | SignallingReply
    | Disconnect
    | AppRequest(request: Request)

  /** A session that is being terminated ignores a disconnection. */
  function OnDisconnected(s: Session): Session {
    if s.terminating then s else s.(disconnected := true)
  }

  /** An event that is not possible changes nothing. */
  function Step(w: World, e: Event): World {
    match e
    case MediaReply =>
      if w.media == [] then w else w.(session := OnMedia(w.session, w.media[0]), media := w.media[1..])
    case ChannelReply(i, ok) =>
      if i !in w.control || i >= |w.session.channels| then w
      else w.(session := OnChannelRemoved(w.session, i, ok), control := w.control - {i})
    case SignallingReply =>
      if !w.signalling then w else w.(session := OnTerminateResponse(w.session), signalling := false)
    case Disconnect => w.(session := OnDisconnected(w.session))
    case AppRequest(r) => w.(session := OnRequest(w.session, r))
  }

  function Run(w: World, events: seq<Event>): World
    decreases |events|
  {
    if events == [] then w else Run(Step(w, events[0]), events[1..])
  }

  // ----- every run answers once -----

  predicate Distinct(commands: seq<Command>) {
    forall j, k :: 0 <= j < k < |commands| ==> commands[j] != commands[k]
  }

  /** The session destroyed its control channels, took itself out of service and raised one response, to the terminate
      request. */
  predicate Answered(before: Session, s: Session) {
    && !s.listed && (forall k :: 0 <= k < |s.channels| ==> !s.channels[k].control)
    && |s.raised| == |before.raised| + 1 && s.raised[..|before.raised|] == before.raised
    && s.raised[|before.raised|].request == TerminateRequest
    && (before.disconnected <==> s.raised[|before.raised|].status == Disconnected)
  }

  /** Nothing was raised yet. */
  predicate Unanswered(before: Session, s: Session) {
    && s.listed && s.raised == before.raised && s.active == Some(TerminateRequest)
    && s.terminating && s.disconnected == before.disconnected && s.status == Success
  }

  /** Media commands that are awaited; the last one is answered by a slot. */
  predicate Pending(s: Session, media: seq<Command>) {
    && (forall k :: 0 <= k < |media| && media[k].Subtract? ==> Awaited(s, media[k].termination))
    && Distinct(media)
    && (media != [] ==> media[|media| - 1].Subtract? && IsSlot(s, media[|media| - 1].termination))
  }

  /** Holds in every state of the termination of a well-formed session. */
  predicate Proper(before: Session, w: World) {
    && w.session.count == Outstanding(w)
    && (forall i :: i in w.control ==> i < |w.session.channels| && w.session.channels[i].waitingForChannel)
    && Pending(w.session, w.media)
    && if Outstanding(w) > 0 then Unanswered(before, w.session) else Answered(before, w.session)
  }

  predicate SameTerminations(s: Session, s': Session) {
    && |s.slots| == |s'.slots| && |s.channels| == |s'.channels|
    && (forall k :: 0 <= k < |s.slots| ==> s.slots[k].termination == s'.slots[k].termination)
    && (forall k :: 0 <= k < |s.channels| ==> s.channels[k].termination == s'.channels[k].termination)
  }

  lemma {:induction false} SameSlots(a: seq<Slot>, b: seq<Slot>, t: nat, i: nat)
    requires i <= |a| == |b| && forall k :: 0 <= k < |a| ==> a[k].termination == b[k].termination
    ensures FindSlot(a, t, i) == FindSlot(b, t, i)
    decreases |a| - i
  {
    if i < |a| && a[i].termination != Some(t) {
      SameSlots(a, b, t, i + 1);
    }
  }

  lemma {:induction false} SameChannels(a: seq<Channel>, b: seq<Channel>, t: nat, i: nat)
    requires i <= |a| == |b| && forall k :: 0 <= k < |a| ==> a[k].termination == b[k].termination
    ensures FindChannel(a, t, i) == FindChannel(b, t, i)
    decreases |a| - i
  {
    if i < |a| && a[i].termination != Some(t) {
      SameChannels(a, b, t, i + 1);
    }
  }

  lemma SameFind(s: Session, s': Session, t: nat)
    requires SameTerminations(s, s')
    ensures FindSlot(s.slots, t, 0) == FindSlot(s'.slots, t, 0)
    ensures FindChannel(s.channels, t, 0) == FindChannel(s'.channels, t, 0)
  {
    SameSlots(s.slots, s'.slots, t, 0);
    SameChannels(s.channels, s'.channels, t, 0);
  }

  lemma UnflaggedOthers(s: Session, t: nat, u: nat)
    requires Awaited(s, t) && t != u
    ensures Awaited(Unflagged(s, t), u) == Awaited(s, u) && IsSlot(Unflagged(s, t), u) == IsSlot(s, u)
  {
    SameFind(s, Unflagged(s, t), u);
  }

  lemma PendingStep(s: Session, media: seq<Command>)
    requires Pending(s, media) && media != [] && media[0].Subtract?
    ensures Pending(Unflagged(s, media[0].termination), media[1..])
  {
    var s' := Unflagged(s, media[0].termination);
    forall k | 0 < k < |media| && media[k].Subtract?
      ensures Awaited(s', media[k].termination) && IsSlot(s', media[k].termination) == IsSlot(s, media[k].termination)
    {
      assert media[0] != media[k];
      UnflaggedOthers(s, media[0].termination, media[k].termination);
    }
  }

  /** The media terminations and who waits for them are the same. */
  predicate SameWaits(s: Session, s': Session) {
    && s.slots == s'.slots && |s.channels| == |s'.channels|
    && (forall k :: 0 <= k < |s.channels| ==> s.channels[k].termination == s'.channels[k].termination)
    && (forall k :: 0 <= k < |s.channels| ==> s.channels[k].waitingForTermination == s'.channels[k].waitingForTermination)
  }

  lemma PendingFrame(s: Session, s': Session, media: seq<Command>)
    requires Pending(s, media) && SameWaits(s, s')
    ensures Pending(s', media)
  {
    forall t
      ensures Awaited(s', t) == Awaited(s, t) && IsSlot(s', t) == IsSlot(s, t)
    {
      SameFind(s, s', t);
    }
  }

  lemma RaisedAnswers(before: Session, s: Session, status: Status)
    requires Unanswered(before, s) && status != Disconnected
    ensures Answered(before, RaiseTerminated(s, status)) && RaiseTerminated(s, status).count == s.count
  {
  }

  lemma SubtractStep(before: Session, w: World)
    requires Proper(before, w) && w.media != [] && w.media[0].Subtract?
    ensures Proper(before, Step(w, MediaReply))
  {
    var t := w.media[0].termination;
    var s := Unflagged(w.session, t);
    PendingStep(w.session, w.media);
    PendingFrame(s, Counted(s), w.media[1..]);
    if w.session.count == 1 {
      RaisedAnswers(before, Counted(s), Success);
    }
  }

  lemma ChannelStep(before: Session, w: World, i: nat, ok: bool)
    requires Proper(before, w) && i in w.control
    ensures Proper(before, Step(w, ChannelReply(i, ok)))
  {
    var s := w.session;
    var s' := Counted(s.(channels := s.channels[i := s.channels[i].(waitingForChannel := false)]));
    PendingFrame(s, s', w.media);
    if s.count == 1 {
      RaisedAnswers(before, s', if ok then Success else Failure);
      assert |w.control - {i}| == 0;
    }
  }

  lemma ProperStep(before: Session, w: World, e: Event)
    requires Proper(before, w)
    ensures Proper(before, Step(w, e))
  {
    match e
    case MediaReply =>
      if w.media != [] {
        if w.media[0].Subtract? {
          SubtractStep(before, w);
        } else {
          PendingFrame(w.session, Counted(w.session), w.media);
          assert |w.media| > 1;
        }
      }
    case ChannelReply(i, ok) =>
      if i in w.control {
        ChannelStep(before, w, i, ok);
      }
    case SignallingReply =>
      PendingFrame(w.session, Counted(w.session), w.media);
      if w.session.count == 1 && w.signalling {
        RaisedAnswers(before, Counted(w.session), Success);
      }
    case Disconnect =>
      PendingFrame(w.session, OnDisconnected(w.session), w.media);
    case AppRequest(r) =>
      PendingFrame(w.session, OnRequest(w.session, r), w.media);
  }

  /** Nothing is going on. */
  predicate Quiescent(s: Session) {
    s.active.None? && s.count == 0 && !s.terminating
  }

  /** The terminations are distinct, and there is an RTP termination if and only if there is a media context. */
  predicate WellFormed(s: Session) {
    && Distinct(Commands(s))
    && if s.context then exists k :: 0 <= k < |s.slots| && s.slots[k].termination.Some?
       else forall k :: 0 <= k < |s.channels| ==> s.channels[k].termination.None?
  }

  lemma {:induction false} SlotFound(slots: seq<Slot>, t: nat, i: nat, k: nat)
    requires i <= k < |slots| && slots[k].termination == Some(t)
    ensures FindSlot(slots, t, i).Some?
    decreases |slots| - i
  {
    if slots[i].termination != Some(t) {
      SlotFound(slots, t, i + 1, k);
    }
  }

  lemma {:induction false} ChannelFound(channels: seq<Channel>, t: nat, i: nat, k: nat)
    requires i <= k < |channels| && channels[k].termination == Some(t)
    ensures FindChannel(channels, t, i).Some?
    decreases |channels| - i
  {
    if channels[i].termination != Some(t) {
      ChannelFound(channels, t, i + 1, k);
    }
  }

  /** A subtract command belongs to a channel ... */
  lemma {:induction false} ChannelCommandOrigin(channels: seq<Channel>, n: nat, c: Command)
    requires n <= |channels| && c in ChannelCommands(channels, n)
    ensures c.Subtract? && FindChannel(channels, c.termination, 0).Some?
    decreases n
  {
    if c in SubtractOf(channels[n - 1].termination) {
      ChannelFound(channels, c.termination, 0, n - 1);
    } else {
      ChannelCommandOrigin(channels, n - 1, c);
    }
  }

  /** ... or to a slot. */
  lemma {:induction false} SlotCommandOrigin(slots: seq<Slot>, n: nat, c: Command)
    requires n <= |slots| && c in SlotCommands(slots, n)
    ensures c.Subtract? && FindSlot(slots, c.termination, 0).Some?
    decreases n
  {
    if c in SubtractOf(slots[n - 1].termination) {
      SlotFound(slots, c.termination, 0, n - 1);
    } else {
      SlotCommandOrigin(slots, n - 1, c);
    }
  }

  lemma {:induction false} SlotCommandsNonempty(slots: seq<Slot>, n: nat, k: nat)
    requires k < n <= |slots| && slots[k].termination.Some?
    ensures SlotCommands(slots, n) != []
    decreases n
  {
    if k < n - 1 {
      SlotCommandsNonempty(slots, n - 1, k);
    }
  }

  lemma {:induction false} NoChannelCommands(channels: seq<Channel>, n: nat)
    requires n <= |channels|
    ensures (ChannelCommands(channels, n) == []) <==> forall k :: 0 <= k < n ==> channels[k].termination.None?
    decreases n
  {
    if n > 0 {
      NoChannelCommands(channels, n - 1);
      assert ChannelCommands(channels, n) == [] <==> ChannelCommands(channels, n - 1) == [] && channels[n - 1].termination.None?;
    }
  }

  lemma StartWaits(s: Session, accepts: seq<bool>, t: nat)
    requires |accepts| == |s.channels| && s.listed && s.context && Subtract(t) in Commands(s)
    ensures Awaited(Start(s, accepts).session, t)
    ensures IsSlot(Start(s, accepts).session, t) == IsSlot(s, t)
  {
    var s' := Start(s, accepts).session;
    if Subtract(t) in ChannelCommands(s.channels, |s.channels|) {
      ChannelCommandOrigin(s.channels, |s.channels|, Subtract(t));
    } else {
      assert Subtract(t) in SlotCommands(s.slots, |s.slots|);
      SlotCommandOrigin(s.slots, |s.slots|, Subtract(t));
    }
    SameFind(s, s', t);
  }

  lemma LastIsSlot(s: Session, k: nat)
    requires s.context && k < |s.slots| && s.slots[k].termination.Some?
    ensures var c := Commands(s); c != [] && c[|c| - 1].Subtract? && IsSlot(s, c[|c| - 1].termination)
  {
    SlotCommandsNonempty(s.slots, |s.slots|, k);
    var tail := SlotCommands(s.slots, |s.slots|);
    SlotCommandOrigin(s.slots, |s.slots|, tail[|tail| - 1]);
  }

  lemma StartPending(s: Session, accepts: seq<bool>)
    requires |accepts| == |s.channels| && s.listed && WellFormed(s)
    ensures Pending(Start(s, accepts).session, Start(s, accepts).media)
  {
    var w := Start(s, accepts);
    if s.context {
      forall k | 0 <= k < |w.media| && w.media[k].Subtract?
        ensures Awaited(w.session, w.media[k].termination)
        ensures IsSlot(w.session, w.media[k].termination) == IsSlot(s, w.media[k].termination)
      {
        StartWaits(s, accepts, w.media[k].termination);
      }
      var k :| 0 <= k < |s.slots| && s.slots[k].termination.Some?;
      LastIsSlot(s, k);
    }
  }

  lemma StartProper(s: Session, accepts: seq<bool>)
    requires |accepts| == |s.channels| && Quiescent(s) && s.listed && WellFormed(s)
    ensures Proper(s, Start(s, accepts))
  {
    StartPending(s, accepts);
    NoChannelCommands(s.channels, |s.channels|);
  }

  lemma {:induction false} RunProper(before: Session, w: World, events: seq<Event>)
    requires Proper(before, w)
    ensures Proper(before, Run(w, events))
    decreases |events|
  {
    if events != [] {
      ProperStep(before, w, events[0]);
      RunProper(before, Step(w, events[0]), events[1..]);
    }
  }

  // ----- what the answer says -----

  /** The replies that are still to come: those of the media engine, those of the control channels, and that of the
      signalling agent. */
  datatype Owed = Owed(media: nat, control: set<nat>, signalling: bool)

  function OwedBy(w: World): Owed {
    Owed(|w.media|, w.control, w.signalling)
  }

  predicate Settled(o: Owed) {
    o == Owed(0, {}, false)
  }

  function Received(o: Owed, e: Event): Owed {
    match e
    case MediaReply => if o.media > 0 then o.(media := o.media - 1) else o
    case ChannelReply(i, _) => o.(control := o.control - {i})
    case SignallingReply => o.(signalling := false)
    case _ => o
  }

  /** The last reply of a run: the event that settles what is owed. */
  function LastReply(o: Owed, events: seq<Event>): Option<Event>
    decreases |events|
  {
    if Settled(o) || events == [] then None
    else if Settled(Received(o, events[0])) then Some(events[0])
    else LastReply(Received(o, events[0]), events[1..])
  }

  /** The termination fails exactly if the last reply is that of a control channel that could not be removed. */
  function StatusOf(disconnected: bool, last: Option<Event>): Status {
    if disconnected then Disconnected
    else if last.Some? && last.value.ChannelReply? && !last.value.ok then Failure
    else Success
  }

  function RequestsIn(events: seq<Event>): seq<Request> {
    if events == [] then []
    else (if events[0].AppRequest? then [events[0].request] else []) + RequestsIn(events[1..])
  }

  lemma StepOwes(before: Session, w: World, e: Event)
    requires Proper(before, w)
    ensures OwedBy(Step(w, e)) == Received(OwedBy(w), e) && Outstanding(Step(w, e)) <= Outstanding(w)
    ensures Outstanding(w) == 0 <==> Settled(OwedBy(w))
  {
    if e.ChannelReply? && e.channel in w.control {
      assert |w.control - {e.channel}| == |w.control| - 1;
    }
  }

  /** The step of the last reply raises the response, with the status of that reply. */
  lemma LastStep(before: Session, w: World, e: Event)
    requires Proper(before, w) && Outstanding(w) > 0 && Outstanding(Step(w, e)) == 0
    ensures Step(w, e).session.raised ==
            before.raised + [Response(TerminateRequest, StatusOf(before.disconnected, Some(e)))]
  {
    if e.ChannelReply? {
      assert |w.control - {e.channel}| >= |w.control| - 1;
    }
  }

  lemma SettledSteps(before: Session, w: World, e: Event)
    requires Proper(before, w) && Outstanding(w) == 0
    ensures Step(w, e).session.raised == w.session.raised
  {
  }

  lemma QueueSteps(before: Session, w: World, e: Event)
    requires Proper(before, w) && Outstanding(Step(w, e)) > 0
    ensures Step(w, e).session.queue == w.session.queue + RequestsIn([e])
  {
    assert [e][1..] == [];
    assert w.session.queue + [] == w.session.queue;
    match e
    case MediaReply =>
    case ChannelReply(_, _) =>
    case SignallingReply =>
    case Disconnect =>
    case AppRequest(_) =>
  }

  lemma {:induction false} RunTells(before: Session, w: World, events: seq<Event>)
    requires Proper(before, w)
    ensures var w' := Run(w, events);
            && (Outstanding(w) == 0 ==> w'.session.raised == w.session.raised)
            && (Outstanding(w) > 0 && Outstanding(w') == 0 ==>
                  w'.session.raised ==
                  before.raised + [Response(TerminateRequest, StatusOf(before.disconnected, LastReply(OwedBy(w), events)))])
    decreases |events|
  {
    if events != [] {
      var e, w1 := events[0], Step(w, events[0]);
      ProperStep(before, w, e);
      StepOwes(before, w, e);
      StepOwes(before, w1, e);
      if Outstanding(w) == 0 {
        SettledSteps(before, w, e);
      }
      if Outstanding(w) > 0 && Outstanding(w1) == 0 {
        LastStep(before, w, e);
      }
      RunTells(before, w1, events[1..]);
    }
  }

  lemma {:induction false} RunQueues(before: Session, w: World, events: seq<Event>)
    requires Proper(before, w)
    ensures var w' := Run(w, events);
            && Outstanding(w') <= Outstanding(w)
            && (Outstanding(w') > 0 ==> w'.session.queue == w.session.queue + RequestsIn(events))
    decreases |events|
  {
    if events == [] {
      assert w.session.queue + [] == w.session.queue;
    } else {
      var e, w1 := events[0], Step(w, events[0]);
      ProperStep(before, w, e);
      StepOwes(before, w, e);
      if Outstanding(w1) > 0 {
        QueueSteps(before, w, e);
      }
      RunQueues(before, w1, events[1..]);
      RequestsSplit(w.session.queue, events);
    }
  }

  lemma RequestsSplit(queue: seq<Request>, events: seq<Event>)
    requires events != []
    ensures queue + RequestsIn([events[0]]) + RequestsIn(events[1..]) == queue + RequestsIn(events)
  {
    assert [events[0]][1..] == [];
    assert RequestsIn([events[0]]) + RequestsIn(events[1..]) == RequestsIn(events);
    ConcatAssoc(queue, RequestsIn([events[0]]), RequestsIn(events[1..]));
  }

  lemma {:induction false} ChannelCommandsAll(channels: seq<Channel>, n: nat, c: Command)
    requires n <= |channels|
    ensures c in ChannelCommands(channels, n) <==>
            c.Subtract? && exists i :: 0 <= i < n && channels[i].termination == Some(c.termination)
    decreases n
  {
    if n > 0 {
      ChannelCommandsAll(channels, n - 1, c);
    }
  }

  lemma {:induction false} SlotCommandsAll(slots: seq<Slot>, n: nat, c: Command)
    requires n <= |slots|
    ensures c in SlotCommands(slots, n) <==>
            c.Subtract? && exists i :: 0 <= i < n && slots[i].termination == Some(c.termination)
    decreases n
  {
    if n > 0 {
      SlotCommandsAll(slots, n - 1, c);
    }
  }

  /** A terminate request asks for the removal of every control channel, destroys the topology, then subtracts every
      termination, once if they are distinct, and terminates the signalling session; all of this is counted. */
  lemma SendsExactly(s: Session, accepts: seq<bool>)
    requires |accepts| == |s.channels| && s.listed && WellFormed(s)
    ensures var w := Start(s, accepts);
            && w.signalling && Distinct(w.media) && (w.media != [] <==> s.context)
            && (s.context ==> w.media[0] == DestroyTopology)
            && (forall t :: Subtract(t) in w.media <==> s.context && Holds(s, t))
            && (forall i :: i in w.control <==> 0 <= i < |s.channels| && s.channels[i].control && accepts[i])
            && w.session.count == Outstanding(w)
  {
    forall t
      ensures s.context ==> (Subtract(t) in Commands(s) <==> Holds(s, t))
    {
      ChannelCommandsAll(s.channels, |s.channels|, Subtract(t));
      SlotCommandsAll(s.slots, |s.slots|, Subtract(t));
    }
    NoChannelCommands(s.channels, |s.channels|);
  }

  /** A session that was never registered sends nothing and answers at once. */
  lemma UnlistedAnswers(s: Session, accepts: seq<bool>)
    requires |accepts| == |s.channels| && !s.listed
    ensures var w := Start(s, accepts);
            && Settled(OwedBy(w)) && w.session.active == None
            && w.session.raised == s.raised + [Response(TerminateRequest, StatusOf(s.disconnected, None))]
  {
  }

  /** Whatever the order of replies, and whatever else happens in between, a well-formed session raises exactly one
      response, to the terminate request; it does so with the last reply, whose status it has, and takes itself out of
      service.  Until then further requests wait in order. */
  lemma EveryRunAnswersOnce(s: Session, accepts: seq<bool>, events: seq<Event>)
    requires |accepts| == |s.channels| && Quiescent(s) && s.listed && WellFormed(s)
    ensures var w := Run(Start(s, accepts), events);
            var last := LastReply(OwedBy(Start(s, accepts)), events);
            if Outstanding(w) > 0
            then Unanswered(s, w.session) && w.session.queue == s.queue + RequestsIn(events)
            else && Answered(s, w.session)
                 && w.session.raised == s.raised + [Response(TerminateRequest, StatusOf(s.disconnected, last))]
  {
    StartProper(s, accepts);
    RunProper(s, Start(s, accepts), events);
    RunTells(s, Start(s, accepts), events);
    RunQueues(s, Start(s, accepts), events);
  }

  // ----- and only well-formed sessions do -----

  /** Every run that delivers all replies answers the terminate request once. */
  ghost predicate AnswersOnce(s: Session, accepts: seq<bool>)
    requires |accepts| == |s.channels|
  {
    forall events: seq<Event> :: Completes(Start(s, accepts), events) ==> Answered(s, Run(Start(s, accepts), events).session)
  }

  predicate Completes(w: World, events: seq<Event>) {
    Outstanding(Run(w, events)) == 0
  }

  lemma {:induction false} RunConcat(w: World, a: seq<Event>, b: seq<Event>)
    ensures Run(w, a + b) == Run(Run(w, a), b)
    decreases |a|
  {
    if a == [] {
      assert a + b == b;
    } else {
      assert (a + b)[0] == a[0] && (a + b)[1..] == a[1..] + b;
      RunConcat(Step(w, a[0]), a[1..], b);
    }
  }

  function Others(w: World): nat {
    |w.control| + if w.signalling then 1 else 0
  }

  predicate ControlBounded(w: World) {
    forall i :: i in w.control ==> i < |w.session.channels|
  }

  /** Replies other than those of the media engine can all come first; if they are not the last ones, they leave the
      session in service. */
  lemma {:induction false} OthersFirst(w: World) returns (events: seq<Event>)
    requires ControlBounded(w) && w.session.count > Others(w)
    ensures var w' := Run(w, events);
            && w'.control == {} && !w'.signalling && w'.media == w.media
            && w'.session.listed == w.session.listed && w'.session.slots == w.session.slots
    decreases Others(w)
  {
    if w.signalling {
      var more := OthersFirst(Step(w, SignallingReply));
      events := [SignallingReply] + more;
    } else if i :| i in w.control {
      var e := ChannelReply(i, true);
      assert |w.control - {i}| == |w.control| - 1;
      var more := OthersFirst(Step(w, e));
      events := [e] + more;
    } else {
      events := [];
    }
  }

  function Replies(n: nat): seq<Event> {
    if n == 0 then [] else [MediaReply] + Replies(n - 1)
  }

  /** Then the media engine replies; without slots nothing takes the session out of service any more. */
  lemma {:induction false} MediaLast(w: World)
    ensures var w' := Run(w, Replies(|w.media|));
            && w'.media == [] && w'.control == w.control && w'.signalling == w.signalling
            && (NoSlots(w.session) ==> w'.session.listed == w.session.listed)
    decreases |w.media|
  {
    if w.media != [] {
      var w' := Step(w, MediaReply);
      assert NoSlots(w.session) ==> NoSlots(w'.session) && w'.session.listed == w.session.listed by {
        if NoSlots(w.session) && w.media[0].Subtract? {
          NoSlotFound(w.session, w.media[0].termination);
        }
      }
      MediaLast(w');
    }
  }

  predicate NoSlots(s: Session) {
    forall k :: 0 <= k < |s.slots| ==> s.slots[k].termination.None?
  }

  lemma NoSlotFound(s: Session, t: nat)
    requires NoSlots(s)
    ensures !IsSlot(s, t)
  {
  }

  /** A run that delivers all replies, those of the media engine last. */
  lemma MediaLastRun(w: World) returns (events: seq<Event>)
    requires ControlBounded(w) && w.session.count > Others(w)
    ensures Completes(w, events)
    ensures NoSlots(w.session) ==> Run(w, events).session.listed == w.session.listed
  {
    var first := OthersFirst(w);
    MediaLast(Run(w, first));
    RunConcat(w, first, Replies(|w.media|));
    events := first + Replies(|w.media|);
  }

  // Some reply will find nobody waiting, or has found nobody.

  /** More is counted than will ever be answered. */
  predicate Stuck(w: World) {
    w.session.listed && w.session.count > Outstanding(w)
  }

  predicate WillBeStuck(w: World) {
    && w.session.listed && w.session.count >= Outstanding(w)
    && exists k :: 0 <= k < |w.media| && w.media[k].Subtract?
                   && (Repeated(w.media, k) || !Awaited(w.session, w.media[k].termination))
  }

  predicate Repeated(media: seq<Command>, k: nat)
    requires k < |media|
  {
    exists j :: 0 <= j < k && media[j] == media[k]
  }

  lemma StuckStep(w: World, e: Event)
    requires Stuck(w)
    ensures Stuck(Step(w, e))
  {
    match e
    case MediaReply =>
    case ChannelReply(i, ok) =>
      assert i in w.control ==> |w.control - {i}| == |w.control| - 1;
    case SignallingReply =>
    case Disconnect =>
    case AppRequest(r) =>
  }

  lemma UnflaggedSelf(s: Session, t: nat)
    requires Awaited(s, t)
    ensures !Awaited(Unflagged(s, t), t)
  {
    SameFind(s, Unflagged(s, t), t);
  }

  lemma WaitsFrame(s: Session, s': Session, t: nat)
    requires SameWaits(s, s')
    ensures Awaited(s', t) == Awaited(s, t)
  {
    SameFind(s, s', t);
  }

  /** A subtract reply that is followed by another one which finds nobody waiting. */
  lemma StuckMedia(w: World, k: nat)
    requires w.session.listed && w.session.count >= Outstanding(w) && 0 < k < |w.media|
    requires w.media[0].Subtract? && w.media[k].Subtract? && Awaited(w.session, w.media[0].termination)
    requires w.media[k] == w.media[0] || !Awaited(w.session, w.media[k].termination) || Repeated(w.media[1..], k - 1)
    ensures WillBeStuck(Step(w, MediaReply))
  {
    var w' := Step(w, MediaReply);
    var t, u := w.media[0].termination, w.media[k].termination;
    assert w'.media[k - 1] == w.media[k];
    UnflaggedSelf(w.session, t);
    if u != t {
      UnflaggedOthers(w.session, t, u);
    }
    WaitsFrame(Unflagged(w.session, t), w'.session, u);
  }

  lemma WillBeStuckMedia(w: World)
    requires WillBeStuck(w)
    ensures WillBeStuck(Step(w, MediaReply)) || Stuck(Step(w, MediaReply))
  {
    var k :| 0 <= k < |w.media| && w.media[k].Subtract?
             && (Repeated(w.media, k) || !Awaited(w.session, w.media[k].termination));
    var w' := Step(w, MediaReply);
    if w.media[0].Subtract? && !Awaited(w.session, w.media[0].termination) {
      assert Stuck(w');
    } else {
      assert k > 0 && w'.media[k - 1] == w.media[k];
      if w.media[k] != w.media[0] && Awaited(w.session, w.media[k].termination) {
        var j :| 0 <= j < k && w.media[j] == w.media[k];
        assert w.media[1..][j - 1] == w.media[1..][k - 1];
      }
      if w.media[0].Subtract? {
        StuckMedia(w, k);
      } else {
        WaitsFrame(w.session, w'.session, w.media[k].termination);
      }
    }
  }

  /** Other events leave the media requests alone, and the last reply is still to come. */
  lemma OtherStep(w: World, e: Event)
    requires !e.MediaReply? && w.session.count >= Outstanding(w) && w.media != []
    ensures var w' := Step(w, e);
            && w'.media == w.media && SameWaits(w.session, w'.session)
            && w'.session.count >= Outstanding(w') && w'.session.listed == w.session.listed
  {
    match e
    case MediaReply =>
    case ChannelReply(i, ok) =>
      OtherChannelStep(w, i, ok);
    case SignallingReply =>
    case Disconnect =>
    case AppRequest(r) =>
  }

  lemma OtherChannelStep(w: World, i: nat, ok: bool)
    requires w.session.count >= Outstanding(w) && w.media != []
    ensures var w' := Step(w, ChannelReply(i, ok));
            && w'.media == w.media && SameWaits(w.session, w'.session)
            && w'.session.count >= Outstanding(w') && w'.session.listed == w.session.listed
  {
    if i in w.control && i < |w.session.channels| {
      assert |w.control - {i}| == |w.control| - 1;
      RemovedWaits(w.session, i, ok);
    }
  }

  lemma RemovedWaits(s: Session, i: nat, ok: bool)
    requires i < |s.channels| && s.count > 1
    ensures var s' := OnChannelRemoved(s, i, ok);
            SameWaits(s, s') && s'.listed == s.listed && s'.count >= s.count - 1
  {
  }

  lemma WillBeStuckStep(w: World, e: Event)
    requires WillBeStuck(w)
    ensures WillBeStuck(Step(w, e)) || Stuck(Step(w, e))
  {
    if e.MediaReply? {
      WillBeStuckMedia(w);
    } else {
      var k :| 0 <= k < |w.media| && w.media[k].Subtract?
               && (Repeated(w.media, k) || !Awaited(w.session, w.media[k].termination));
      OtherStep(w, e);
      WaitsFrame(w.session, Step(w, e).session, w.media[k].termination);
    }
  }

  lemma {:induction false} StuckRun(w: World, events: seq<Event>)
    requires WillBeStuck(w) || Stuck(w)
    ensures WillBeStuck(Run(w, events)) || Stuck(Run(w, events))
    decreases |events|
  {
    if events != [] {
      if Stuck(w) {
        StuckStep(w, events[0]);
      } else {
        WillBeStuckStep(w, events[0]);
      }
      StuckRun(Step(w, events[0]), events[1..]);
    }
  }

  /** Two commands for the same termination. */
  lemma RepeatedCommand(s: Session) returns (k: nat)
    requires !Distinct(Commands(s))
    ensures k < |Commands(s)| && Commands(s)[k].Subtract? && Repeated(Commands(s), k)
  {
    var c := Commands(s);
    var j: nat;
    j, k :| 0 <= j < k < |c| && c[j] == c[k];
    CommandOrigin(s, k);
  }

  /** All but the first command subtract a termination. */
  lemma CommandOrigin(s: Session, k: nat)
    requires 0 < k < |Commands(s)|
    ensures Commands(s)[k].Subtract?
  {
    var c := Commands(s);
    var head: seq<Command> := if s.context then [DestroyTopology] else [];
    var channels := ChannelCommands(s.channels, |s.channels|);
    var slots := if s.context then SlotCommands(s.slots, |s.slots|) else [];
    assert c[|head|..] == channels + slots;
    assert c[k] == (channels + slots)[k - |head|];
    if c[k] in channels {
      ChannelCommandOrigin(s.channels, |s.channels|, c[k]);
    } else {
      SlotCommandOrigin(s.slots, |s.slots|, c[k]);
    }
  }

  lemma IllFormedFails(s: Session, accepts: seq<bool>) returns (events: seq<Event>)
    requires |accepts| == |s.channels| && Quiescent(s) && s.listed && !WellFormed(s)
    ensures Completes(Start(s, accepts), events) && !Answered(s, Run(Start(s, accepts), events).session)
  {
    var w := Start(s, accepts);
    NoChannelCommands(s.channels, |s.channels|);
    events := MediaLastRun(w);
    if !s.context {
      assert Stuck(w);
      StuckRun(w, events);
    } else if !Distinct(Commands(s)) {
      var k := RepeatedCommand(s);
      assert WillBeStuck(w);
      StuckRun(w, events);
    } else {
      assert NoSlots(w.session);
    }
  }

  /** The exact condition. */
  lemma AnswersOnceExactly(s: Session, accepts: seq<bool>)
    requires |accepts| == |s.channels| && Quiescent(s) && s.listed
    ensures AnswersOnce(s, accepts) <==> WellFormed(s)
  {
    if WellFormed(s) {
      forall events | Completes(Start(s, accepts), events)
        ensures Answered(s, Run(Start(s, accepts), events).session)
      {
        EveryRunAnswersOnce(s, accepts, events);
      }
    } else {
      var events := IllFormedFails(s, accepts);
    }
  }

  // ----- how sessions get their shape -----

  /** What adding a channel appends: the channel, and a slot with an RTP termination if the channel has a media
      termination; the media context is created with the first of these. */
  function WithChannel(s: Session, control: bool, termination: Option<nat>, rtp: nat): Session {
    s.(channels := s.channels + [Channel(control, termination, false, false)],
       slots := s.slots + [Slot(if termination.Some? then Some(rtp) else None, false)],
       context := s.context || termination.Some?)
  }

  /** t is the termination of a channel or of a slot. */
  predicate Holds(s: Session, t: nat) {
    || (exists k :: 0 <= k < |s.channels| && s.channels[k].termination == Some(t))
    || (exists k :: 0 <= k < |s.slots| && s.slots[k].termination == Some(t))
  }

  /** Channels and slots go together, and no termination is held twice. */
  predicate Shaped(s: Session) {
    && |s.channels| == |s.slots|
    && (forall k :: 0 <= k < |s.slots| ==> s.channels[k].termination.Some? == s.slots[k].termination.Some?)
    && (s.context <==> exists k :: 0 <= k < |s.slots| && s.slots[k].termination.Some?)
    && (forall j, k :: 0 <= j < k < |s.slots| && s.slots[j].termination.Some? ==> s.slots[j].termination != s.slots[k].termination)
    && (forall j, k :: 0 <= j < k < |s.channels| && s.channels[j].termination.Some? ==>
                         s.channels[j].termination != s.channels[k].termination)
    && (forall j, k :: 0 <= j < |s.slots| && 0 <= k < |s.channels| && s.slots[j].termination.Some? ==>
                         s.slots[j].termination != s.channels[k].termination)
  }

  /** Adding a channel keeps the shape if its terminations are new. */
  lemma WithChannelShaped(s: Session, control: bool, termination: Option<nat>, rtp: nat)
    requires Shaped(s) && !Holds(s, rtp) && termination != Some(rtp)
    requires termination.Some? ==> !Holds(s, termination.value)
    ensures Shaped(WithChannel(s, control, termination, rtp))
  {
    var s' := WithChannel(s, control, termination, rtp);
    var n := |s.slots|;
    assert s'.slots[n].termination.Some? == termination.Some?;
    if s.context {
      var k :| 0 <= k < |s.slots| && s.slots[k].termination.Some?;
      assert s'.slots[k].termination.Some?;
    }
  }

  lemma {:induction false} ChannelCommandsDistinct(s: Session, n: nat)
    requires Shaped(s) && n <= |s.channels|
    ensures Distinct(ChannelCommands(s.channels, n))
    ensures forall c :: c in ChannelCommands(s.channels, n) ==>
                          exists k :: 0 <= k < n && SubtractOf(s.channels[k].termination) == [c]
    decreases n
  {
    if n > 0 {
      ChannelCommandsDistinct(s, n - 1);
    }
  }

  lemma {:induction false} SlotCommandsDistinct(s: Session, n: nat)
    requires Shaped(s) && n <= |s.slots|
    ensures Distinct(SlotCommands(s.slots, n))
    ensures forall c :: c in SlotCommands(s.slots, n) ==>
                          exists k :: 0 <= k < n && SubtractOf(s.slots[k].termination) == [c]
    decreases n
  {
    if n > 0 {
      SlotCommandsDistinct(s, n - 1);
    }
  }

  lemma DistinctConcat(a: seq<Command>, b: seq<Command>)
    requires Distinct(a) && Distinct(b) && forall c :: c in a ==> c !in b
    ensures Distinct(a + b)
  {
    forall j, k | 0 <= j < k < |a + b|
      ensures (a + b)[j] != (a + b)[k]
    {
      if j < |a| <= k {
        assert a[j] in a && b[k - |a|] in b;
      }
    }
  }

  lemma NoCommonCommand(s: Session, c: Command)
    requires Shaped(s) && c in ChannelCommands(s.channels, |s.channels|)
    ensures c != DestroyTopology && c !in SlotCommands(s.slots, |s.slots|)
  {
    ChannelCommandsDistinct(s, |s.channels|);
    SlotCommandsDistinct(s, |s.slots|);
    var j :| 0 <= j < |s.channels| && SubtractOf(s.channels[j].termination) == [c];
    assert s.channels[j].termination == Some(c.termination);
  }

  lemma NoTopologyInSlots(s: Session)
    requires Shaped(s)
    ensures DestroyTopology !in SlotCommands(s.slots, |s.slots|)
  {
    SlotCommandsDistinct(s, |s.slots|);
  }

  /** So the sessions that channel additions build can be terminated properly. */
  lemma ShapedWellFormed(s: Session)
    requires Shaped(s)
    ensures WellFormed(s)
  {
    var a, b := ChannelCommands(s.channels, |s.channels|), SlotCommands(s.slots, |s.slots|);
    ChannelCommandsDistinct(s, |s.channels|);
    SlotCommandsDistinct(s, |s.slots|);
    NoTopologyInSlots(s);
    forall c | c in a
      ensures c != DestroyTopology && c !in b
    {
      NoCommonCommand(s, c);
    }
    if s.context {
      DistinctConcat([DestroyTopology], a);
      DistinctConcat([DestroyTopology] + a, b);
    } else {
      assert [] + a + [] == a;
    }
  }

  // ----- the session object -----

  class ClientSession {
    var terminating: bool
    var count: nat
    var context: bool
    var channels: seq<Channel>
    var slots: seq<Slot>
    var active: Option<Request>
    var queue: seq<Request>
    var status: Status
    var disconnected: bool
    var listed: bool
    var raised: seq<Response>

    function View(): Session
      reads this
    {
      Session(terminating, count, context, channels, slots, active, queue, status, disconnected, listed, raised)
    }

    constructor (s: Session)
      ensures View() == s
    {
      terminating, count, context, channels, slots := s.terminating, s.count, s.context, s.channels, s.slots;
      active, queue, status, disconnected, listed, raised := s.active, s.queue, s.status, s.disconnected, s.listed, s.raised;
    }

    /** Starts the termination and returns what is sent to the media engine, to the connection agent and to the
        signalling agent.  accepts tells which control channels can be removed. */
    method Terminate(accepts: seq<bool>) returns (media: seq<Command>, control: set<nat>, signalling: bool)
      requires |accepts| == |channels|
      modifies this
      ensures World(View(), media, control, signalling) == Start(old(View()), accepts)
    {
      media, control, signalling := [], {}, false;
      active, status := Some(TerminateRequest), Success;
      if !listed {
        RaiseResponse(false);
        return;
      }
      ghost var before := View();
      terminating := true;
      media, control := SendRequests(accepts);
      signalling := true;
      assert View() == before.(terminating := true, count := count, channels := channels, slots := slots);
    }

    method SendRequests(accepts: seq<bool>) returns (media: seq<Command>, control: set<nat>)
      requires |accepts| == |channels|
      modifies this`count, this`channels, this`slots
      ensures channels == AwaitedChannels(old(channels), accepts)
      ensures slots == if context then AwaitedSlots(old(slots)) else old(slots)
      ensures control == Removals(old(channels), accepts, |channels|)
      ensures media == if context then Commands(old(View())) else []
      ensures count == |Commands(old(View()))| + |control| + 1
    {
      media := [];
      ghost var all := Commands(View());
      var batch := [];
      if context {
        batch := [DestroyTopology];
      }
      count := |batch|;
      batch, control := RemoveChannels(accepts, batch);
      if context {
        batch := SubtractSlots(batch);
        media := batch;
        assert media == all;
      } else {
        assert batch + [] == all;
      }
      count := count + 1;
    }

    method RemoveChannels(accepts: seq<bool>, start: seq<Command>) returns (batch: seq<Command>, control: set<nat>)
      requires |accepts| == |channels|
      modifies this`count, this`channels
      ensures channels == AwaitedChannels(old(channels), accepts)
      ensures batch == start + ChannelCommands(old(channels), |channels|)
      ensures control == Removals(old(channels), accepts, |channels|)
      ensures count == old(count) + |ChannelCommands(old(channels), |channels|)| + |control|
    {
      ghost var before := channels;
      batch, control := start, {};
      PartlyEnds(before, accepts);
      for i := 0 to |channels|
        invariant channels == PartlyAwaited(before, accepts, i)
        invariant batch == start + ChannelCommands(before, i)
        invariant control == Removals(before, accepts, i)
        invariant count == old(count) + |ChannelCommands(before, i)| + |control|
      {
        ConcatAssoc(start, ChannelCommands(before, i), SubtractOf(before[i].termination));
        RemovalsStep(before, accepts, i);
        PartlyNext(before, accepts, i);
        var removed, command := RemoveChannel(i, accepts[i]);
        batch := batch + command;
        if removed {
          control := control + {i};
        }
      }
    }

    method RemoveChannel(i: nat, accepted: bool) returns (removed: bool, command: seq<Command>)
      requires i < |channels|
      modifies this`count, this`channels
      ensures channels == old(channels)[i := AwaitedChannel(old(channels)[i], accepted)]
      ensures removed == (old(channels)[i].control && accepted)
      ensures command == SubtractOf(old(channels)[i].termination)
      ensures count == old(count) + |command| + if removed then 1 else 0
    {
      var c := channels[i];
      removed, command := c.control && accepted, [];
      if removed {
        c := c.(waitingForChannel := true);
        count := count + 1;
      }
      if c.termination.Some? {
        command := [Subtract(c.termination.value)];
        c := c.(waitingForTermination := true);
        count := count + 1;
      }
      channels := channels[i := c];
    }

    method SubtractSlots(start: seq<Command>) returns (batch: seq<Command>)
      modifies this`count, this`slots
      ensures slots == AwaitedSlots(old(slots))
      ensures batch == start + SlotCommands(old(slots), |slots|)
      ensures count == old(count) + |SlotCommands(old(slots), |slots|)|
    {
      ghost var before := slots;
      batch := start;
      for i := 0 to |slots|
        invariant |slots| == |before|
        invariant forall k :: 0 <= k < i ==> slots[k] == AwaitedSlot(before[k])
        invariant forall k :: i <= k < |slots| ==> slots[k] == before[k]
        invariant batch == start + SlotCommands(before, i)
        invariant count == old(count) + |SlotCommands(before, i)|
      {
        if slots[i].termination.Some? {
          batch := batch + [Subtract(slots[i].termination.value)];
          slots := slots[i := slots[i].(waiting := true)];
          count := count + 1;
        }
      }
    }

    method SubrequestRemove() returns (last: bool)
      modifies this`count
      ensures last == (old(count) == 1) && View() == Counted(old(View()))
    {
      if count == 0 {
        return false;
      }
      count := count - 1;
      last := count == 0;
    }

    method RaiseResponse(pending: bool)
      modifies this
      ensures View() == Respond(old(View()), pending)
    {
      if active.None? {
        return;
      }
      var request := active.value;
      active := None;
      if disconnected {
        status := Disconnected;
      }
      raised := raised + [Response(request, status)];
      if pending && queue != [] {
        active, queue := Some(queue[0]), queue[1..];
      }
    }

    method RaiseTerminateResponse(result: Status)
      modifies this
      ensures View() == RaiseTerminated(old(View()), result)
    {
      DestroyControls();
      listed := false;
      if result != Success {
        status := result;
      }
      RaiseResponse(false);
    }

    method DestroyControls()
      modifies this`channels
      ensures channels == Uncontrolled(old(channels))
    {
      ghost var before := channels;
      for i := 0 to |channels|
        invariant |channels| == |before|
        invariant forall k :: 0 <= k < |channels| ==> channels[k] == if k < i then before[k].(control := false) else before[k]
      {
        channels := channels[i := channels[i].(control := false)];
      }
    }

    method SlotOf(t: nat) returns (found: Option<nat>)
      ensures found == FindSlot(slots, t, 0)
    {
      for i := 0 to |slots|
        invariant FindSlot(slots, t, 0) == FindSlot(slots, t, i)
      {
        if slots[i].termination == Some(t) {
          return Some(i);
        }
      }
      found := None;
    }

    method ChannelOf(t: nat) returns (found: Option<nat>)
      ensures found == FindChannel(channels, t, 0)
    {
      for i := 0 to |channels|
        invariant FindChannel(channels, t, 0) == FindChannel(channels, t, i)
      {
        if channels[i].termination == Some(t) {
          return Some(i);
        }
      }
      found := None;
    }

    method OnTerminationSubtract(t: nat)
      modifies this
      ensures View() == OnSubtract(old(View()), t)
    {
      var slot := SlotOf(t);
      if slot.Some? {
        if !slots[slot.value].waiting {
          return;
        }
        slots := slots[slot.value := slots[slot.value].(waiting := false)];
        var last := SubrequestRemove();
        if last {
          RaiseTerminateResponse(Success);
        }
      } else {
        var channel := ChannelOf(t);
        if channel.Some? && channels[channel.value].waitingForTermination {
          channels := channels[channel.value := channels[channel.value].(waitingForTermination := false)];
          var last := SubrequestRemove();
          if last {
            RaiseResponse(true);
          }
        }
      }
    }

    /** While terminating, nothing follows from a topology reply. */
    method OnMediaReply(c: Command)
      modifies this
      ensures View() == OnMedia(old(View()), c)
    {
      match c
      case DestroyTopology =>
        var _ := SubrequestRemove();
      case Subtract(t) =>
        OnTerminationSubtract(t);
    }

    method OnChannelRemove(i: nat, ok: bool)
      requires i < |channels|
      modifies this
      ensures View() == OnChannelRemoved(old(View()), i, ok)
    {
      if !channels[i].waitingForChannel {
        return;
      }
      channels := channels[i := channels[i].(waitingForChannel := false)];
      var last := SubrequestRemove();
      if last {
        RaiseTerminateResponse(if ok then Success else Failure);
      }
    }

    method OnTerminateReply()
      modifies this
      ensures View() == OnTerminateResponse(old(View()))
    {
      var last := SubrequestRemove();
      if last {
        RaiseTerminateResponse(Success);
      }
    }

    method OnDisconnect()
      modifies this`disconnected
      ensures View() == OnDisconnected(old(View()))
    {
      if !terminating {
        disconnected := true;
      }
    }

    method OnAppRequest(r: Request)
      modifies this`queue, this`active
      ensures View() == OnRequest(old(View()), r)
    {
      if active.Some? {
        queue := queue + [r];
      } else {
        active := Some(r);
      }
    }
  }

  /** Lets the events happen to a session object that is being terminated. */
  method RunTermination(session: ClientSession, accepts: seq<bool>, events: seq<Event>) returns (w: World)
    requires |accepts| == |session.channels|
    requires Quiescent(session.View()) && session.listed && WellFormed(session.View())
    modifies session
    ensures w == Run(Start(old(session.View()), accepts), events) && w.session == session.View()
    ensures Outstanding(w) > 0 ==>
              Unanswered(old(session.View()), session.View()) && session.queue == old(session.queue) + RequestsIn(events)
    ensures var last := LastReply(OwedBy(Start(old(session.View()), accepts)), events);
            Outstanding(w) == 0 ==>
              && Answered(old(session.View()), session.View())
              && session.raised == old(session.raised) + [Response(TerminateRequest, StatusOf(old(session.disconnected), last))]
  {
    ghost var before := session.View();
    var media, control, signalling := session.Terminate(accepts);
    ghost var goal := Run(World(session.View(), media, control, signalling), events);
    for i := 0 to |events|
      invariant goal == Run(World(session.View(), media, control, signalling), events[i..])
    {
      assert events[i..][0] == events[i] && events[i..][1..] == events[i + 1..];
      media, control, signalling := Deliver(session, media, control, signalling, events[i]);
    }
    w := World(session.View(), media, control, signalling);
    EveryRunAnswersOnce(before, accepts, events);
  }

  method Deliver(session: ClientSession, media: seq<Command>, control: set<nat>, signalling: bool, e: Event)
    returns (media': seq<Command>, control': set<nat>, signalling': bool)
    modifies session
    ensures World(session.View(), media', control', signalling')
            == Step(World(old(session.View()), media, control, signalling), e)
  {
    media', control', signalling' := media, control, signalling;
    match e
    case MediaReply =>
      if media != [] {
        session.OnMediaReply(media[0]);
        media' := media[1..];
      }
    case ChannelReply(i, ok) =>
      if i in control && i < |session.channels| {
        session.OnChannelRemove(i, ok);
        control' := control - {i};
      }
    case SignallingReply =>
      if signalling {
        session.OnTerminateReply();
        signalling' := false;
      }
    case Disconnect =>
      session.OnDisconnect();
    case AppRequest(r) =>
      session.OnAppRequest(r);
  }
}
