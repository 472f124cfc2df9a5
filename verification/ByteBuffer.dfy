/** A buffer of media chunks that is read in frames of another size (libs/mpf/src/mpf_buffer.c), over values. */
module BufferModel {
  import opened Common

  /** Kinds of media are bits of a frame type. */
  type Kind = nat
  const AUDIO: Kind := 1

  /** A chunk of audio, or an event without data. */
  datatype Chunk = Chunk(kind: Kind, data: seq<byte>)

  /** The chunk that is being read, without the bytes that are read; those behind it; and the size that is told. */
  datatype Buffer = Buffer(current: Option<Chunk>, chunks: seq<Chunk>, size: nat)

  const NewBuffer := Buffer(None, [], 0)

  function Pending(b: Buffer): seq<Chunk> {
    (if b.current.Some? then [b.current.value] else []) + b.chunks
  }

  function Bytes(chunks: seq<Chunk>): seq<byte> {
    if chunks == [] then [] else chunks[0].data + Bytes(chunks[1..])
  }

  /** The bytes that are held. */
  function Held(b: Buffer): seq<byte> {
    Bytes(Pending(b))
  }

  function Written(b: Buffer, c: Chunk): Buffer {
    b.(chunks := b.chunks + [c], size := b.size + |c.data|)
  }

  datatype Taken = Taken(bytes: seq<byte>, kinds: set<Kind>, rest: seq<Chunk>)

  /** As much of the first chunk as there is room for. */
  function First(room: nat, chunks: seq<Chunk>): Taken
    requires chunks != []
  {
    var c := chunks[0];
    if room < |c.data| then Taken(c.data[..room], {c.kind}, [Chunk(c.kind, c.data[room..])] + chunks[1..])
    else Taken(c.data, {c.kind}, chunks[1..])
  }

  /** Chunk after chunk until there is no room any more. */
  function Take(room: nat, chunks: seq<Chunk>): Taken
    decreases |chunks|
  {
    if chunks == [] then Taken([], {}, [])
    else
      var f := First(room, chunks);
      if |f.bytes| >= room then f
      else
        var t := Take(room - |f.bytes|, f.rest);
        Taken(f.bytes + t.bytes, f.kinds + t.kinds, t.rest)
  }

  function Zeros(n: nat): (z: seq<byte>)
    ensures |z| == n && forall i :: 0 <= i < n ==> z[i] == 0
  {
    seq(n, _ => 0)
  }

  datatype Frame = Frame(data: seq<byte>, kinds: set<Kind>)

  /** The bytes that were taken, padded with zeros. */
  function FrameOf(n: nat, t: Taken): Frame {
    Frame(t.bytes + Zeros(if |t.bytes| <= n then n - |t.bytes| else 0), t.kinds)
  }

  // ----- bytes -----

  lemma {:induction false} BytesConcat(a: seq<Chunk>, b: seq<Chunk>)
    ensures Bytes(a + b) == Bytes(a) + Bytes(b)
    decreases |a|
  {
    if a == [] {
      assert a + b == b;
      assert [] + Bytes(b) == Bytes(b);
    } else {
      var first, rest := a[0].data, a[1..];
      BytesFrom(a, b);
      BytesConcat(rest, b);
      ConcatAssoc(first, Bytes(rest), Bytes(b));
    }
  }

  lemma BytesFrom(a: seq<Chunk>, b: seq<Chunk>)
    requires a != []
    ensures Bytes(a + b) == a[0].data + Bytes(a[1..] + b)
  {
    assert (a + b)[0] == a[0] && (a + b)[1..] == a[1..] + b;
  }

  lemma OneChunk(c: Chunk)
    ensures Bytes([c]) == c.data && Events([c]) == EventOf(c)
  {
    assert [c][1..] == [];
    assert c.data + [] == c.data && EventOf(c) + [] == EventOf(c);
  }

  lemma FirstBytes(room: nat, chunks: seq<Chunk>)
    requires chunks != []
    ensures var f := First(room, chunks);
            |f.bytes| <= room && Bytes(chunks) == f.bytes + Bytes(f.rest)
  {
    var c, f := chunks[0], First(room, chunks);
    if room < |c.data| {
      var left := Chunk(c.kind, c.data[room..]);
      assert f.rest[0] == left && f.rest[1..] == chunks[1..];
      assert c.data == c.data[..room] + c.data[room..];
      ConcatAssoc(c.data[..room], c.data[room..], Bytes(chunks[1..]));
    }
  }

  /** What is taken are the first bytes held, as many as there is room for. */
  lemma {:induction false} TakeBytes(room: nat, chunks: seq<Chunk>)
    ensures var t, k := Take(room, chunks), Min(room, |Bytes(chunks)|);
            t.bytes == Bytes(chunks)[..k] && Bytes(t.rest) == Bytes(chunks)[k..]
    decreases |chunks|
  {
    if chunks != [] {
      var f := First(room, chunks);
      FirstBytes(room, chunks);
      if |f.bytes| < room {
        TakeBytes(room - |f.bytes|, f.rest);
      }
    }
  }

  // ----- events -----

  function EventOf(c: Chunk): seq<Kind> {
    if c.kind == AUDIO then [] else [c.kind]
  }

  /** The events among the chunks. */
  function Events(chunks: seq<Chunk>): seq<Kind> {
    if chunks == [] then [] else EventOf(chunks[0]) + Events(chunks[1..])
  }

  lemma {:induction false} EventsConcat(a: seq<Chunk>, b: seq<Chunk>)
    ensures Events(a + b) == Events(a) + Events(b)
    decreases |a|
  {
    if a == [] {
      assert a + b == b;
    } else {
      assert (a + b)[0] == a[0] && (a + b)[1..] == a[1..] + b;
      EventsConcat(a[1..], b);
      ConcatAssoc(EventOf(a[0]), Events(a[1..]), Events(b));
    }
  }

  /** Events carry no data. */
  predicate Plain(chunks: seq<Chunk>) {
    forall i :: 0 <= i < |chunks| && chunks[i].kind != AUDIO ==> chunks[i].data == []
  }

  /** The events passed while reading: those of the chunks that are taken completely. */
  function Passed(room: nat, chunks: seq<Chunk>): seq<Kind>
    decreases |chunks|
  {
    if chunks == [] then []
    else
      var f := First(room, chunks);
      EventOf(chunks[0]) + if |f.bytes| >= room then [] else Passed(room - |f.bytes|, f.rest)
  }

  lemma FirstEvents(room: nat, chunks: seq<Chunk>)
    requires chunks != [] && Plain(chunks)
    ensures Plain(First(room, chunks).rest) && Events(chunks) == EventOf(chunks[0]) + Events(First(room, chunks).rest)
  {
    var c, f := chunks[0], First(room, chunks);
    if room < |c.data| {
      assert f.rest[0].kind == AUDIO && f.rest[1..] == chunks[1..];
      assert [] + Events(chunks[1..]) == Events(chunks[1..]);
    }
  }

  /** Every event is passed once, in order. */
  lemma {:induction false} TakeEvents(room: nat, chunks: seq<Chunk>)
    requires Plain(chunks)
    ensures Plain(Take(room, chunks).rest)
    ensures Events(chunks) == Passed(room, chunks) + Events(Take(room, chunks).rest)
    decreases |chunks|
  {
    if chunks == [] {
      assert Events([]) == [] + [];
    } else {
      var f := First(room, chunks);
      FirstEvents(room, chunks);
      if |f.bytes| < room {
        TakeEvents(room - |f.bytes|, f.rest);
        ConcatAssoc(EventOf(chunks[0]), Passed(room - |f.bytes|, f.rest), Events(Take(room, chunks).rest));
      } else {
        assert EventOf(chunks[0]) + [] == EventOf(chunks[0]);
      }
    }
  }

  /** Exactly the events passed are told with the frame. */
  lemma {:induction false} TakeKinds(room: nat, chunks: seq<Chunk>)
    ensures forall e :: e != AUDIO ==> (e in Take(room, chunks).kinds <==> e in Passed(room, chunks))
    decreases |chunks|
  {
    if chunks != [] {
      var f := First(room, chunks);
      if |f.bytes| < room {
        TakeKinds(room - |f.bytes|, f.rest);
      }
    }
  }

  /** A frame with bytes is told to be audio. */
  lemma {:induction false} TakeAudio(room: nat, chunks: seq<Chunk>)
    requires Plain(chunks)
    ensures Take(room, chunks).bytes != [] ==> AUDIO in Take(room, chunks).kinds
    decreases |chunks|
  {
    if chunks != [] {
      var f := First(room, chunks);
      FirstEvents(room, chunks);
      if |f.bytes| < room {
        TakeAudio(room - |f.bytes|, f.rest);
      }
    }
  }

  // ----- runs -----

  datatype Action = AudioWrite(data: seq<byte>) | EventWrite(kind: Kind) | FrameRead(n: nat) | Restart

  predicate NoRestart(actions: seq<Action>) {
    forall i :: 0 <= i < |actions| ==> !actions[i].Restart?
  }

  /** The chunk that is left partly read stays the current one. */
  function Left(b: Buffer, n: nat): Buffer {
    var t := Take(n, Pending(b));
    var read := |t.bytes|;
    var size := if read <= b.size then b.size - read else 0;
    if Partly(n, Pending(b)) then Buffer(Some(t.rest[0]), t.rest[1..], size) else Buffer(None, t.rest, size)
  }

  /** The last chunk that is read is left with bytes. */
  predicate Partly(room: nat, chunks: seq<Chunk>)
    ensures Partly(room, chunks) ==> Take(room, chunks).rest != []
    decreases |chunks|
  {
    chunks != [] && (room < |chunks[0].data| || (|chunks[0].data| < room && Partly(room - |chunks[0].data|, chunks[1..])))
  }

  /** A restart forgets the chunks, but neither the current one nor the size. */
  function Step(b: Buffer, a: Action): Buffer {
    match a
    case AudioWrite(data) => Written(b, Chunk(AUDIO, data))
    case EventWrite(kind) => Written(b, Chunk(kind, []))
    case FrameRead(n) => Left(b, n)
    case Restart => b.(chunks := [])
  }

  function Read(b: Buffer, a: Action): seq<Frame> {
    if a.FrameRead? then [FrameOf(a.n, Take(a.n, Pending(b)))] else []
  }

  datatype Outcome = Outcome(buffer: Buffer, frames: seq<Frame>)

  function Run(b: Buffer, actions: seq<Action>): Outcome
    decreases |actions|
  {
    if actions == [] then Outcome(b, [])
    else
      var rest := Run(Step(b, actions[0]), actions[1..]);
      Outcome(rest.buffer, Read(b, actions[0]) + rest.frames)
  }

  lemma {:induction false} RunConcat(b: Buffer, x: seq<Action>, y: seq<Action>)
    ensures var rx := Run(b, x);
            var ry := Run(rx.buffer, y);
            Run(b, x + y) == Outcome(ry.buffer, rx.frames + ry.frames)
    decreases |x|
  {
    if x == [] {
      assert x + y == y;
    } else {
      assert (x + y)[0] == x[0] && (x + y)[1..] == x[1..] + y;
      RunConcat(Step(b, x[0]), x[1..], y);
      ConcatAssoc(Read(b, x[0]), Run(Step(b, x[0]), x[1..]).frames, Run(Run(b, x).buffer, y).frames);
    }
  }

  lemma RunOne(b: Buffer, a: Action)
    ensures Run(b, [a]) == Outcome(Step(b, a), Read(b, a))
  {
    assert [a][1..] == [];
    assert Read(b, a) + [] == Read(b, a);
  }

  predicate Sound(b: Buffer) {
    Plain(Pending(b)) && |Held(b)| <= b.size
  }

  lemma LeftPending(b: Buffer, n: nat)
    ensures Pending(Left(b, n)) == Take(n, Pending(b)).rest
  {
  }

  lemma WrittenHeld(b: Buffer, c: Chunk)
    requires Sound(b) && (c.kind != AUDIO ==> c.data == [])
    ensures Sound(Written(b, c)) && Held(Written(b, c)) == Held(b) + c.data
    ensures Events(Pending(Written(b, c))) == Events(Pending(b)) + EventOf(c)
  {
    assert Pending(Written(b, c)) == Pending(b) + [c];
    BytesConcat(Pending(b), [c]);
    EventsConcat(Pending(b), [c]);
    OneChunk(c);
  }

  /** Reading takes the first bytes held. */
  lemma LeftHeld(b: Buffer, n: nat)
    requires Sound(b)
    ensures var k := Min(n, |Held(b)|);
            && Sound(Left(b, n)) && Held(Left(b, n)) == Held(b)[k..] && Left(b, n).size == b.size - k
            && FrameOf(n, Take(n, Pending(b))).data == Held(b)[..k] + Zeros(n - k)
  {
    LeftPending(b, n);
    TakeBytes(n, Pending(b));
    TakeEvents(n, Pending(b));
  }

  /** Bytes that a restart forgets. */
  function Dropped(b: Buffer, a: Action): nat {
    if a.Restart? then |Bytes(b.chunks)| else 0
  }

  function Lost(b: Buffer, actions: seq<Action>): nat
    decreases |actions|
  {
    if actions == [] then 0 else Dropped(b, actions[0]) + Lost(Step(b, actions[0]), actions[1..])
  }

  lemma RestartHeld(b: Buffer)
    requires Sound(b)
    ensures Sound(b.(chunks := [])) && |Held(b)| == |Held(b.(chunks := []))| + |Bytes(b.chunks)|
  {
    var front := if b.current.Some? then [b.current.value] else [];
    BytesConcat(front, b.chunks);
    assert front + [] == front;
    assert forall i :: 0 <= i < |front| ==> Pending(b)[i] == front[i];
  }

  lemma StepSize(b: Buffer, a: Action)
    requires Sound(b)
    ensures var b' := Step(b, a); Sound(b') && b'.size - |Held(b')| == b.size - |Held(b)| + Dropped(b, a)
  {
    match a
    case AudioWrite(data) => WrittenHeld(b, Chunk(AUDIO, data));
    case EventWrite(kind) => WrittenHeld(b, Chunk(kind, []));
    case FrameRead(n) => LeftHeld(b, n);
    case Restart => RestartHeld(b);
  }

  /** In every run, the size exceeds the bytes held by those that restarts have forgotten. */
  lemma {:induction false} RunSize(b: Buffer, actions: seq<Action>)
    requires Sound(b)
    ensures var b' := Run(b, actions).buffer; Sound(b') && b'.size - |Held(b')| == b.size - |Held(b)| + Lost(b, actions)
    decreases |actions|
  {
    if actions != [] {
      StepSize(b, actions[0]);
      RunSize(Step(b, actions[0]), actions[1..]);
    }
  }

  /** The size is right exactly if no restart has forgotten bytes. */
  lemma SizeExactly(actions: seq<Action>)
    ensures var b := Run(NewBuffer, actions).buffer; b.size == |Held(b)| <==> Lost(NewBuffer, actions) == 0
  {
    RunSize(NewBuffer, actions);
  }

  // ----- the buffer is a stream of bytes -----

  /** The frames that a stream of bytes is read in, ... */
  function StreamFrames(held: seq<byte>, actions: seq<Action>): seq<seq<byte>>
    decreases |actions|
  {
    if actions == [] then []
    else
      match actions[0]
      case AudioWrite(data) => StreamFrames(held + data, actions[1..])
      case FrameRead(n) =>
        var k := Min(n, |held|);
        [held[..k] + Zeros(n - k)] + StreamFrames(held[k..], actions[1..])
      case _ => StreamFrames(held, actions[1..])
  }

  /** ... and what is left of it. */
  function StreamLeft(held: seq<byte>, actions: seq<Action>): seq<byte>
    decreases |actions|
  {
    if actions == [] then held
    else
      match actions[0]
      case AudioWrite(data) => StreamLeft(held + data, actions[1..])
      case FrameRead(n) => StreamLeft(held[Min(n, |held|)..], actions[1..])
      case _ => StreamLeft(held, actions[1..])
  }

  function DataOf(frames: seq<Frame>): seq<seq<byte>> {
    if frames == [] then [] else [frames[0].data] + DataOf(frames[1..])
  }

  lemma DataOfOne(f: Frame, rest: seq<Frame>)
    ensures DataOf([f] + rest) == [f.data] + DataOf(rest)
  {
    assert ([f] + rest)[1..] == rest;
  }

  /** Without restarts, every run delivers the frames of the stream of all bytes written, whatever the sizes of chunks
      and frames and whatever the events between them. */
  lemma {:induction false} RunIsStream(b: Buffer, actions: seq<Action>)
    requires Sound(b) && NoRestart(actions)
    ensures DataOf(Run(b, actions).frames) == StreamFrames(Held(b), actions)
    ensures Held(Run(b, actions).buffer) == StreamLeft(Held(b), actions)
    decreases |actions|
  {
    if actions != [] {
      var rest := Run(Step(b, actions[0]), actions[1..]).frames;
      StepSize(b, actions[0]);
      RunIsStream(Step(b, actions[0]), actions[1..]);
      match actions[0]
      case AudioWrite(data) =>
        WrittenHeld(b, Chunk(AUDIO, data));
        assert [] + rest == rest;
      case EventWrite(kind) =>
        WrittenHeld(b, Chunk(kind, []));
        assert Held(b) + [] == Held(b) && [] + rest == rest;
      case FrameRead(n) =>
        LeftHeld(b, n);
        DataOfOne(FrameOf(n, Take(n, Pending(b))), rest);
    }
  }

  lemma {:induction false} NothingLost(b: Buffer, actions: seq<Action>)
    requires NoRestart(actions)
    ensures Lost(b, actions) == 0
    decreases |actions|
  {
    if actions != [] {
      NothingLost(Step(b, actions[0]), actions[1..]);
    }
  }

  lemma StreamFromNew(actions: seq<Action>)
    requires NoRestart(actions)
    ensures var r := Run(NewBuffer, actions);
            DataOf(r.frames) == StreamFrames([], actions) && r.buffer.size == |StreamLeft([], actions)|
  {
    RunIsStream(NewBuffer, actions);
    RunSize(NewBuffer, actions);
    NothingLost(NewBuffer, actions);
  }

  /** What is left of the chunk that is being read. */
  function CurrentRest(b: Buffer): seq<byte> {
    if b.current.Some? then b.current.value.data else []
  }

  /** A restart keeps the rest of the chunk that is being read: what is delivered after it is the stream of that rest and
      of what is written later. */
  lemma RestartKeepsCurrent(before: seq<Action>, more: seq<Action>)
    requires NoRestart(more)
    ensures var b := Run(NewBuffer, before).buffer;
            var r := Run(NewBuffer, before + ([Restart] + more));
            && DataOf(r.frames) == DataOf(Run(NewBuffer, before).frames) + StreamFrames(CurrentRest(b), more)
            && Held(r.buffer) == StreamLeft(CurrentRest(b), more)
  {
    var b, after := Run(NewBuffer, before).buffer, Run(NewBuffer, before).buffer.(chunks := []);
    RunSize(NewBuffer, before);
    RestartHeld(b);
    HeldAlone(after);
    RunConcat(NewBuffer, before, [Restart] + more);
    RunConcat(b, [Restart], more);
    RunOne(b, Restart);
    RunIsStream(after, more);
    var rest := Run(after, more).frames;
    assert [] + rest == rest;
    DataConcat(Run(NewBuffer, before).frames, rest);
  }

  lemma HeldAlone(b: Buffer)
    requires b.chunks == []
    ensures Held(b) == CurrentRest(b)
  {
    if b.current.Some? {
      assert Pending(b) == [b.current.value];
      OneChunk(b.current.value);
    }
  }

  lemma {:induction false} DataConcat(a: seq<Frame>, b: seq<Frame>)
    ensures DataOf(a + b) == DataOf(a) + DataOf(b)
    decreases |a|
  {
    if a == [] {
      assert a + b == b;
    } else {
      assert a + b == [a[0]] + (a[1..] + b);
      DataOfOne(a[0], a[1..] + b);
      DataConcat(a[1..], b);
      ConcatAssoc([a[0].data], DataOf(a[1..]), DataOf(b));
    }
  }

  /** A byte that is written and forgotten by a restart is still counted. */
  lemma SizeCanExceed()
    ensures var b := Run(NewBuffer, [AudioWrite([5]), Restart]).buffer; b.size == 1 && Held(b) == []
  {
    var b := Step(NewBuffer, AudioWrite([5]));
    assert [AudioWrite([5]), Restart] == [AudioWrite([5])] + [Restart];
    RunConcat(NewBuffer, [AudioWrite([5])], [Restart]);
    RunOne(NewBuffer, AudioWrite([5]));
    RunOne(b, Restart);
  }

  /** The bytes of the frames of a stream without their padding. */
  function Delivered(held: seq<byte>, actions: seq<Action>): seq<byte>
    decreases |actions|
  {
    if actions == [] then []
    else
      match actions[0]
      case AudioWrite(data) => Delivered(held + data, actions[1..])
      case FrameRead(n) => held[..Min(n, |held|)] + Delivered(held[Min(n, |held|)..], actions[1..])
      case _ => Delivered(held, actions[1..])
  }

  function BytesWritten(actions: seq<Action>): seq<byte> {
    if actions == [] then []
    else (if actions[0].AudioWrite? then actions[0].data else []) + BytesWritten(actions[1..])
  }

  /** What is delivered and what is left is what was written, in order. */
  lemma {:induction false} StreamConserves(held: seq<byte>, actions: seq<Action>)
    ensures Delivered(held, actions) + StreamLeft(held, actions) == held + BytesWritten(actions)
    decreases |actions|
  {
    if actions == [] {
      assert [] + held == held + [];
    } else {
      var written := BytesWritten(actions[1..]);
      match actions[0]
      case AudioWrite(data) =>
        StreamConserves(held + data, actions[1..]);
        ConcatAssoc(held, data, written);
      case FrameRead(n) =>
        var k := Min(n, |held|);
        StreamConserves(held[k..], actions[1..]);
        ConcatAssoc(held[..k], Delivered(held[k..], actions[1..]), StreamLeft(held[k..], actions[1..]));
        ConcatAssoc(held[..k], held[k..], written);
        assert held[..k] + held[k..] == held;
        assert [] + written == written;
      case _ =>
        StreamConserves(held, actions[1..]);
        assert [] + written == written;
    }
  }

  // ----- events of a run -----

  function EventWritten(a: Action): seq<Kind> {
    if a.EventWrite? then EventOf(Chunk(a.kind, [])) else []
  }

  function EventsWritten(actions: seq<Action>): seq<Kind> {
    if actions == [] then [] else EventWritten(actions[0]) + EventsWritten(actions[1..])
  }

  /** The events passed by a read. */
  function Told(b: Buffer, a: Action): seq<Kind> {
    if a.FrameRead? then Passed(a.n, Pending(b)) else []
  }

  function EventsTold(b: Buffer, actions: seq<Action>): seq<Kind>
    decreases |actions|
  {
    if actions == [] then [] else Told(b, actions[0]) + EventsTold(Step(b, actions[0]), actions[1..])
  }

  lemma StepEvents(b: Buffer, a: Action)
    requires Sound(b) && !a.Restart?
    ensures Told(b, a) + Events(Pending(Step(b, a))) == Events(Pending(b)) + EventWritten(a)
  {
    var events := Events(Pending(b));
    match a
    case AudioWrite(data) =>
      WrittenHeld(b, Chunk(AUDIO, data));
      assert [] + (events + []) == events + [];
    case EventWrite(kind) =>
      WrittenHeld(b, Chunk(kind, []));
      assert [] + (events + EventOf(Chunk(kind, []))) == events + EventOf(Chunk(kind, []));
    case FrameRead(n) =>
      LeftPending(b, n);
      TakeEvents(n, Pending(b));
      assert events + [] == events;
  }

  /** Without restarts, every event that was written is told by one frame, or is still to be told, in order. */
  lemma {:induction false} RunEvents(b: Buffer, actions: seq<Action>)
    requires Sound(b) && NoRestart(actions)
    ensures EventsTold(b, actions) + Events(Pending(Run(b, actions).buffer)) == Events(Pending(b)) + EventsWritten(actions)
    decreases |actions|
  {
    if actions != [] {
      var b1, end := Step(b, actions[0]), Events(Pending(Run(b, actions).buffer));
      StepSize(b, actions[0]);
      StepEvents(b, actions[0]);
      RunEvents(b1, actions[1..]);
      Regrouped(Told(b, actions[0]), Events(Pending(b1)), Events(Pending(b)), EventWritten(actions[0]),
                EventsTold(b1, actions[1..]), end, EventsWritten(actions[1..]));
    }
  }

  lemma Regrouped(t: seq<Kind>, p1: seq<Kind>, p: seq<Kind>, w: seq<Kind>, ts: seq<Kind>, end: seq<Kind>, ws: seq<Kind>)
    requires t + p1 == p + w && ts + end == p1 + ws
    ensures t + ts + end == p + (w + ws)
  {
    ConcatAssoc(t, ts, end);
    ConcatAssoc(t, p1, ws);
    ConcatAssoc(p, w, ws);
  }
}

/** The buffer object. */
module ByteBuffers {
  import opened Common
  import opened BufferModel

  class ByteBuffer {
    var chunks: seq<Chunk>
    var current: Option<Chunk>
    var remaining: nat
    var size: nat

    /** What is left of the current chunk is a suffix of it, and the size covers the bytes held. */
    ghost predicate Valid()
      reads this
    {
      (current.Some? ==> remaining <= |current.value.data|) && Sound(State())
    }

    ghost function State(): Buffer
      requires current.Some? ==> remaining <= |current.value.data|
      reads this
    {
      Buffer(if current.Some? then Some(Rest(current.value, remaining)) else None, chunks, size)
    }

    constructor ()
      ensures Valid() && State() == NewBuffer
    {
      chunks, current, remaining, size := [], None, 0, 0;
    }

    method AudioWrite(data: seq<byte>)
      requires Valid()
      modifies this`chunks, this`size
      ensures Valid() && State() == Step(old(State()), Action.AudioWrite(data)) && Held(State()) == Held(old(State())) + data
    {
      WrittenHeld(State(), Chunk(AUDIO, data));
      chunks := chunks + [Chunk(AUDIO, data)];
      size := size + |data|;
    }

    method EventWrite(kind: Kind)
      requires Valid()
      modifies this`chunks
      ensures Valid() && State() == Step(old(State()), Action.EventWrite(kind))
    {
      WrittenHeld(State(), Chunk(kind, []));
      chunks := chunks + [Chunk(kind, [])];
    }

    method Restart()
      requires Valid()
      modifies this`chunks
      ensures Valid() && State() == Step(old(State()), Action.Restart)
    {
      RestartHeld(State());
      chunks := [];
    }

    /** Reads a frame of n bytes. */
    method FrameRead(n: nat) returns (frame: Frame)
      requires Valid()
      modifies this
      ensures Valid() && State() == Left(old(State()), n) && frame == FrameOf(n, Take(n, Pending(old(State()))))
      ensures var held := Held(old(State()));
              var k := Min(n, |held|);
              frame.data == held[..k] + Zeros(n - k) && Held(State()) == held[k..]
    {
      ghost var b := State();
      LeftHeld(b, n);
      var bytes, kinds := CopyChunks(n);
      LeftIs(b, n, State());
      frame := Frame(bytes + Zeros(n - |bytes|), kinds);
    }

    /** The loop over the chunks. */
    method CopyChunks(n: nat) returns (bytes: seq<byte>, kinds: set<Kind>)
      requires Valid()
      modifies this
      ensures Valid() && |bytes| <= n && size == old(size) - |bytes|
      ensures Taken(bytes, kinds, Pending(State())) == Take(n, Pending(old(State())))
      ensures current.Some? == Partly(n, Pending(old(State())))
    {
      ghost var goal, partly := Take(n, Pending(State())), Partly(n, Pending(State()));
      ReadingStarts(n, Pending(State()));
      bytes, kinds := [], {};
      var more := true;
      while more
        invariant Valid() && |bytes| <= n && size == old(size) - |bytes|
        invariant more ==> Reading(n, bytes, kinds, Pending(State()), goal, partly)
        invariant !more ==> Taken(bytes, kinds, Pending(State())) == goal && partly == current.Some?
        decreases more, |Pending(State())|
      {
        if current.None? && chunks == [] {
          ReadingEnds(n, bytes, kinds, goal, partly);
          break;
        }
        ReadingStep(n, bytes, kinds, Pending(State()), goal, partly);
        var some, kind := CopyChunk(n - |bytes|);
        bytes, kinds := bytes + some, kinds + {kind};
        more := |bytes| < n;
      }
    }

    /** Copies from the current chunk, or from the next one, as much as there is room for. */
    method CopyChunk(room: nat) returns (bytes: seq<byte>, kind: Kind)
      requires Valid() && (current.Some? || chunks != [])
      modifies this
      ensures Valid() && size == old(size) - |bytes|
      ensures Taken(bytes, {kind}, Pending(State())) == First(room, Pending(old(State())))
      ensures current.Some? <==> room < |Pending(old(State()))[0].data|
    {
      if current.None? {
        Fetch();
      }
      FirstSound(room, State());
      bytes, kind := Copy(room);
    }

    /** Makes the first chunk the current one. */
    method Fetch()
      requires Valid() && current.None? && chunks != []
      modifies this`chunks, this`current, this`remaining
      ensures Valid() && current.Some? && Pending(State()) == Pending(old(State()))
    {
      ghost var before := Pending(State());
      current, remaining, chunks := Some(chunks[0]), |chunks[0].data|, chunks[1..];
      assert Rest(current.value, remaining) == current.value;
      assert Pending(State()) == before;
    }

    method Copy(room: nat) returns (bytes: seq<byte>, kind: Kind)
      requires current.Some? && remaining <= |current.value.data| && Min(room, remaining) <= size
      modifies this`current, this`remaining, this`size
      ensures (current.Some? ==> remaining <= |current.value.data|) && size == old(size) - |bytes|
      ensures Taken(bytes, {kind}, Pending(State())) == First(room, Pending(old(State())))
      ensures current.Some? <==> room < old(remaining)
    {
      ghost var c := Rest(current.value, remaining);
      assert Pending(State())[0] == c && Pending(State())[1..] == chunks;
      kind := current.value.kind;
      var data := current.value.data;
      if room < remaining {
        bytes := data[|data| - remaining..|data| - remaining + room];
        remaining, size := remaining - room, size - room;
        assert bytes == c.data[..room] && Rest(current.value, remaining).data == c.data[room..];
      } else {
        bytes := data[|data| - remaining..];
        size := size - remaining;
        remaining, current := 0, None;
        assert Pending(State()) == chunks;
      }
    }

    method Perform(a: Action) returns (frames: seq<Frame>)
      requires Valid()
      modifies this
      ensures Valid() && State() == Step(old(State()), a) && frames == Read(old(State()), a)
    {
      frames := [];
      match a
      case AudioWrite(data) => AudioWrite(data);
      case EventWrite(kind) => EventWrite(kind);
      case FrameRead(n) =>
        var frame := FrameRead(n);
        frames := [frame];
      case Restart => Restart();
    }
  }

  /** The last n bytes of a chunk. */
  function Rest(c: Chunk, n: nat): Chunk
    requires n <= |c.data|
  {
    Chunk(c.kind, c.data[|c.data| - n..])
  }

  /** `bytes` and `kinds` are read so far; together with what is still to be read they are `goal`. */
  ghost predicate Reading(n: nat, bytes: seq<byte>, kinds: set<Kind>, chunks: seq<Chunk>, goal: Taken, partly: bool) {
    && |bytes| <= n && Partly(n - |bytes|, chunks) == partly
    && var t := Take(n - |bytes|, chunks);
       goal == Taken(bytes + t.bytes, kinds + t.kinds, t.rest)
  }

  lemma ReadingStarts(n: nat, chunks: seq<Chunk>)
    ensures Reading(n, [], {}, chunks, Take(n, chunks), Partly(n, chunks))
  {
    var t := Take(n, chunks);
    assert [] + t.bytes == t.bytes && {} + t.kinds == t.kinds;
  }

  lemma ReadingEnds(n: nat, bytes: seq<byte>, kinds: set<Kind>, goal: Taken, partly: bool)
    requires Reading(n, bytes, kinds, [], goal, partly)
    ensures goal == Taken(bytes, kinds, []) && !partly
  {
  }

  lemma LeftIs(b: Buffer, n: nat, b': Buffer)
    requires Sound(b) && Pending(b') == Take(n, Pending(b)).rest && b'.size == Left(b, n).size
    requires b'.current.Some? == Partly(n, Pending(b))
    ensures b' == Left(b, n)
  {
    if b'.current.Some? {
      assert Pending(b')[0] == b'.current.value && Pending(b')[1..] == b'.chunks;
    } else {
      assert Pending(b') == b'.chunks;
    }
  }

  lemma ReadingStep(n: nat, bytes: seq<byte>, kinds: set<Kind>, chunks: seq<Chunk>, goal: Taken, partly: bool)
    requires Reading(n, bytes, kinds, chunks, goal, partly) && chunks != []
    ensures var f := First(n - |bytes|, chunks);
            && |bytes| + |f.bytes| <= n
            && (|bytes + f.bytes| < n ==>
                  |f.rest| < |chunks| && Reading(n, bytes + f.bytes, kinds + f.kinds, f.rest, goal, partly))
            && (|bytes + f.bytes| == n ==>
                  goal == Taken(bytes + f.bytes, kinds + f.kinds, f.rest) && partly == (n - |bytes| < |chunks[0].data|))
  {
    var f := First(n - |bytes|, chunks);
    FirstBytes(n - |bytes|, chunks);
    if |bytes + f.bytes| < n {
      var t := Take(n - |bytes| - |f.bytes|, f.rest);
      ConcatAssoc(bytes, f.bytes, t.bytes);
      assert kinds + f.kinds + t.kinds == kinds + (f.kinds + t.kinds);
    }
  }

  lemma FirstSound(room: nat, b: Buffer)
    requires Sound(b) && b.current.Some?
    ensures var c := b.current.value;
            && |c.data| <= b.size && Plain(First(room, Pending(b)).rest)
            && |Bytes(First(room, Pending(b)).rest)| == |Held(b)| - Min(room, |c.data|)
  {
    FirstBytes(room, Pending(b));
    FirstEvents(room, Pending(b));
    assert Pending(b)[0] == b.current.value;
  }

  /** Drives a new buffer through a run: without restarts, the frames are those of the stream of all bytes written, and
      the size is the number of bytes left of it. */
  method RunBuffer(actions: seq<Action>) returns (frames: seq<Frame>, size: nat)
    ensures frames == Run(NewBuffer, actions).frames && size == Run(NewBuffer, actions).buffer.size
    ensures NoRestart(actions) ==> DataOf(frames) == StreamFrames([], actions) && size == |StreamLeft([], actions)|
  {
    var buffer := new ByteBuffer();
    frames := [];
    for i := 0 to |actions|
      invariant buffer.Valid() && fresh(buffer)
      invariant Run(NewBuffer, actions[..i]) == Outcome(buffer.State(), frames)
    {
      assert actions[..i + 1] == actions[..i] + [actions[i]];
      RunConcat(NewBuffer, actions[..i], [actions[i]]);
      RunOne(buffer.State(), actions[i]);
      var more := buffer.Perform(actions[i]);
      frames := frames + more;
    }
    assert actions[..|actions|] == actions;
    size := buffer.size;
    if NoRestart(actions) {
      StreamFromNew(actions);
    }
  }
}
