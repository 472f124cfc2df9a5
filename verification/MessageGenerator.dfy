/** The message generator and the sender that runs it (libs/apr-toolkit/src/apt_text_message.c and
    libs/mrcpv2-transport/src/mrcp_client_connection.c). */
module MessageGenerators {
  import opened Common
  import opened Text
  import opened TextWriters
  import opened MessageAutomaton
  import opened MessageParsers
  import opened MessageCodec

  function HeadText(m: Message): text {
    m.start + CrLf + SectionText(m.header)
  }

  class MessageGenerator {
    const message: Message
    var stage: Stage
    var sent: nat

    ghost predicate Valid()
      reads this
    {
      stage.StartLine? || (stage.Body? && sent < |message.body|)
    }

    constructor (message: Message)
      ensures Valid() && this.message == message && stage == StartLine
    {
      this.message, stage, sent := message, StartLine, 0;
    }

    /** Inserts start line and header.  It can report success although fields are missing; start line and header
        are complete exactly when they fit. */
    method WriteHead(writer: TextWriter) returns (ok: bool)
      requires writer.Valid() && writer.Written() == []
      modifies writer`pos, writer.buf
      ensures writer.Valid()
      ensures ok && writer.Written() == HeadText(message) <==> |HeadText(message)| < writer.buf.Length
      ensures ok ==> 0 < |writer.Written()|
      // there is room left in any case, unless there was none at all
      ensures writer.buf.Length > 0 ==> |writer.Written()| < writer.buf.Length
      ensures writer.buf.Length == 0 ==> !ok
    {
      ok := writer.StringInsert(message.start);
      if !ok {
        return;
      }
      ok := writer.EolInsert();
      if !ok {
        return;
      }
      assert writer.Written() == message.start + CrLf by {
        assert [] + message.start == message.start;
      }
      InsertFieldsRoom(writer.buf.Length, writer.Written(), message.header);
      ok := writer.SectionGenerate(message.header);
    }

    /** Copies as much of the body as there is room for. */
    method WriteBody(writer: TextWriter) returns (ok: bool)
      requires Valid() && stage.Body? && writer.Valid()
      modifies this`sent, writer`pos, writer.buf
      ensures writer.Valid()
      ensures var k := Min(|message.body| - old(sent), writer.buf.Length - |old(writer.Written())|);
              && sent == old(sent) + k && ok == (sent == |message.body|)
              && writer.Written() == old(writer.Written()) + message.body[old(sent)..sent]
    {
      var room := writer.buf.Length - writer.pos;
      var required := |message.body| - sent;
      ok := required <= room;
      if !ok {
        required := room;
      }
      writer.Put(message.body[sent..sent + required]);
      sent := sent + required;
    }

    /** Fills a stream with what comes next: start line and header the first time, and as much of the body as there is
        room for.  A stream without any room is to be tried again, and leaves everything as it was. */
    method Run(writer: TextWriter) returns (status: Status)
      requires Valid() && writer.Valid() && writer.Written() == []
      modifies this`stage, this`sent, writer`pos, writer.buf
      ensures Valid() && writer.Valid() && (status.Incomplete? && stage.StartLine? ==> writer.buf.Length == 0)
      ensures writer.buf.Length == 0 ==>
                status.Incomplete? && stage == old(stage) && writer.Written() == [] && (stage.Body? ==> sent == old(sent))
      ensures old(stage).Body? ==> !status.Invalid? && old(sent) <= sent <= |message.body| && writer.Written() == message.body[old(sent)..sent]
      ensures old(stage).Body? && writer.buf.Length > 0 ==> sent > old(sent)
      ensures old(stage).StartLine? && writer.buf.Length > 0 ==>
                && (|HeadText(message)| < writer.buf.Length ==> !status.Invalid?)
                && (!status.Invalid? ==> sent <= |message.body| && writer.Written() != [])
                && (!status.Invalid? && writer.Written() == HeadText(message) + message.body[..sent]
                    <==> |HeadText(message)| < writer.buf.Length)
      ensures !status.Invalid? && writer.buf.Length > 0 ==> (status.Complete? <==> sent == |message.body|)
    {
      if stage.StartLine? {
        var ok := WriteHead(writer);
        if !ok {
          return if writer.pos >= writer.buf.Length then Incomplete else Invalid;
        }
        sent := 0;
        if message.body != [] {
          stage := Body;
        }
      }
      ghost var head := writer.Written();
      status := Complete;
      if stage.Body? {
        var ok := WriteBody(writer);
        if ok {
          stage := StartLine;
        } else {
          status := Incomplete;
        }
      }
    }
  }

  lemma {:induction false} FlattenConcat(a: seq<text>, b: seq<text>)
    ensures Flatten(a + b) == Flatten(a) + Flatten(b)
    decreases |a|
  {
    if a == [] {
      assert a + b == b;
    } else {
      assert (a + b)[0] == a[0] && (a + b)[1..] == a[1..] + b;
      FlattenConcat(a[1..], b);
      ConcatAssoc(a[0], Flatten(a[1..]), Flatten(b));
    }
  }

  lemma FlattenAppend(fragments: seq<text>, t: text)
    ensures Flatten(fragments + [t]) == Flatten(fragments) + t
  {
    FlattenConcat(fragments, [t]);
    assert [t][1..] == [];
    assert t + Flatten([]) == t;
  }

  lemma BodyStep(first: text, body: text, s: nat, from: nat, to: nat)
    requires s <= from <= to <= |body|
    ensures first + body[s..from] + body[from..to] == first + body[s..to]
  {
    assert body[s..from] + body[from..to] == body[s..to];
    ConcatAssoc(first, body[s..from], body[from..to]);
  }

  /** The first stream decides whether the whole message is sent. */
  lemma CompleteIffHead(m: Message, first: text, s: nat)
    requires s <= |m.body|
    ensures first + m.body[s..] == MessageText(m) <==> first == HeadText(m) + m.body[..s]
  {
    var head, rest := HeadText(m) + m.body[..s], m.body[s..];
    assert m.body == m.body[..s] + rest;
    ConcatAssoc(HeadText(m), m.body[..s], rest);
    assert MessageText(m) == head + rest;
    if first + rest == head + rest {
      assert |first| == |head|;
      assert first == (first + rest)[..|first|] && head == (head + rest)[..|head|];
    }
  }

  /** Sends a message through streams of a fixed size: it is sent completely if and only if start line and header fit
      into one stream, however long the body is.  Streams without room are given up here; they would be tried for ever. */
  method Send(m: Message, size: nat) returns (ok: bool, fragments: seq<text>)
    ensures ok && Flatten(fragments) == MessageText(m) <==> |HeadText(m)| < size
    ensures forall i :: 0 <= i < |fragments| ==> fragments[i] != []
  {
    var generator := new MessageGenerator(m);
    var writer := new TextWriter(size);
    fragments := [];
    if size == 0 {
      return false, [];
    }
    var status := generator.Run(writer);
    ok := !status.Invalid?;
    if !ok {
      return;
    }
    var first := writer.buf[..writer.pos];
    fragments := [first];
    FlattenAppend([], first);
    ghost var s := generator.sent;
    assert [] + fragments == fragments && [] + first == first && first + m.body[s..s] == first;
    while status.Incomplete?
      invariant generator.Valid() && fresh(generator) && generator.message == m
      invariant status.Incomplete? ==> generator.stage.Body?
      invariant s <= generator.sent <= |m.body| && (status.Complete? <==> generator.sent == |m.body|) && !status.Invalid?
      invariant Flatten(fragments) == first + m.body[s..generator.sent]
      invariant forall i :: 0 <= i < |fragments| ==> fragments[i] != []
      decreases |m.body| - generator.sent
    {
      ghost var from := generator.sent;
      writer := new TextWriter(size);
      status := generator.Run(writer);
      var next := writer.buf[..writer.pos];
      FlattenAppend(fragments, next);
      BodyStep(first, m.body, s, from, generator.sent);
      fragments := fragments + [next];
    }
    assert m.body[s..|m.body|] == m.body[s..];
    CompleteIffHead(m, first, s);
  }

  /** Messages whose headers fit are sent through streams of a fixed size and arrive unchanged and in order. */
  method Exchange(acceptsStart: text -> bool, bodyLength: (text, seq<HeaderField>) -> Option<nat>,
                  ms: seq<Message>, size: nat) returns (delivered: seq<Message>)
    requires forall i :: 0 <= i < |ms| ==> Sound(acceptsStart, bodyLength, ms[i]) && |HeadText(ms[i])| < size
    ensures delivered == ms
  {
    var fragments: seq<text> := [];
    assert Flatten(fragments) + StreamText(ms) == StreamText(ms) && ms[0..] == ms;
    for i := 0 to |ms|
      invariant Flatten(fragments) + StreamText(ms[i..]) == StreamText(ms)
      invariant forall k :: 0 <= k < |fragments| ==> fragments[k] != []
    {
      var _, more := Send(ms[i], size);
      FlattenConcat(fragments, more);
      assert ms[i..][0] == ms[i] && ms[i..][1..] == ms[i + 1..];
      ConcatAssoc(Flatten(fragments), MessageText(ms[i]), StreamText(ms[i + 1..]));
      fragments := fragments + more;
    }
    assert Flatten(fragments) + [] == Flatten(fragments);
    delivered := Transmit(acceptsStart, bodyLength, ms, fragments);
  }
}
