/** Generated messages, cut into fragments in any way, are parsed back
    (libs/apr-toolkit/src/apt_text_message.c, generator and parser). */
module MessageCodec {
  import opened Common
  import opened Text
  import opened TextWriters
  import opened MessageAutomaton
  import opened MessageParsers

  predicate NoEol(s: text) {
    OneLine(s)
  }

  /** A field that a header line can carry. */
  predicate SoundField(f: HeaderField) {
    && f.name != [] && Flush(f.name) && NoColon(f.name) && Flush(f.value)
    && NoEol(LineText(f))
  }

  /** A message that the handlers accept and whose header announces its body. */
  predicate Sound(acceptsStart: text -> bool, bodyLength: (text, seq<HeaderField>) -> Option<nat>, m: Message) {
    && acceptsStart(m.start) && NoEol(m.start)
    && (forall i :: 0 <= i < |m.header| ==> SoundField(m.header[i]))
    && bodyLength(m.start, m.header) == Some(|m.body|)
  }

  function MessageText(m: Message): text {
    m.start + CrLf + SectionText(m.header) + m.body
  }

  function RawLines(fields: seq<HeaderField>): seq<text> {
    if fields == [] then [] else [LineText(fields[0])] + RawLines(fields[1..])
  }

  function Raw(m: Message): RawMessage {
    RawMessage(m.start, RawLines(m.header), m.body)
  }

  /** A line ended by CR LF is read as that line. */
  lemma LineConcat(line: text, t: text)
    requires NoEol(line)
    ensures var s := line + CrLf + t;
            HasLine(s) && LineOf(s) == line && AfterLine(s) == t && !EndsInCr(s, t)
  {
    var s := line + CrLf + t;
    LineHasNoEol(line);
    LineLengthUnique(s, |line|);
    assert s[|line|] == CR && s[|line| + 1] == LF && s[|line| + 2..] == t;
    assert t == [] ==> s[|s| - 1] == LF;
  }

  /** Parsing the raw lines of sound fields gives them back. */
  lemma {:induction false} FieldsOfRawLines(fields: seq<HeaderField>)
    requires forall i :: 0 <= i < |fields| ==> SoundField(fields[i])
    ensures Fields(RawLines(fields)) == fields
    decreases |fields|
  {
    if fields != [] {
      FieldLineAtStart(fields[0].name, [SP], fields[0].value);
      FieldsOfRawLines(fields[1..]);
      assert RawLines(fields)[0] == LineText(fields[0]) && RawLines(fields)[1..] == RawLines(fields[1..]);
    }
  }

  lemma RunField(r: Rules, s: State, f: HeaderField, t: text)
    requires s.Live? && s.stage.Header? && !s.sawCr && s.line == []
    requires SoundField(f)
    ensures Run(r, s, FieldText(f) + t) == Run(r, s.(lines := s.lines + [LineText(f)]), t)
  {
    LineConcat(LineText(f), t);
    assert FieldText(f) + t == LineText(f) + CrLf + t;
    assert (FieldText(f) + t)[0] == f.name[0];
    RunLine(r, s, FieldText(f) + t);
  }

  lemma {:induction false} RunSectionText(r: Rules, s: State, fields: seq<HeaderField>, t: text)
    requires s.Live? && s.stage.Header? && !s.sawCr && s.line == []
    requires forall i :: 0 <= i < |fields| ==> SoundField(fields[i])
    ensures Run(r, s, SectionText(fields) + t) == Run(r, HeaderDone(r, s.(lines := s.lines + RawLines(fields))), t)
    decreases |fields|
  {
    if fields == [] {
      LineConcat([], t);
      assert [] + CrLf + t == CrLf + t && s.lines + [] == s.lines;
      RunLine(r, s, CrLf + t);
    } else {
      ConcatAssoc(FieldText(fields[0]), SectionText(fields[1..]), t);
      RunField(r, s, fields[0], SectionText(fields[1..]) + t);
      RunSectionText(r, s.(lines := s.lines + [LineText(fields[0])]), fields[1..], t);
      ConcatAssoc(s.lines, [LineText(fields[0])], RawLines(fields[1..]));
    }
  }

  /** A generated message is read as that message. */
  lemma RunMessage(acceptsStart: text -> bool, bodyLength: (text, seq<HeaderField>) -> Option<nat>,
                   done: seq<RawMessage>, m: Message, t: text)
    requires Sound(acceptsStart, bodyLength, m)
    ensures var r := RawRules(acceptsStart, bodyLength);
            Run(r, Idle(done), MessageText(m) + t) == Run(r, Idle(done + [Raw(m)]), t)
  {
    var r := RawRules(acceptsStart, bodyLength);
    var tail := SectionText(m.header) + (m.body + t);
    assert MessageText(m) + t == m.start + CrLf + tail;
    LineConcat(m.start, tail);
    RunLine(r, Idle(done), m.start + CrLf + tail);
    var open := Live(Header, false, [], m.start, [], [], 0, done);
    RunSectionText(r, open, m.header, m.body + t);
    assert [] + RawLines(m.header) == RawLines(m.header);
    FieldsOfRawLines(m.header);
    if m.body == [] {
      assert m.body + t == t;
    } else {
      var reading := Live(Body, false, [], m.start, RawLines(m.header), [], |m.body|, done);
      RunBody(r, reading, m.body + t, |m.body|);
      assert (m.body + t)[..|m.body|] == m.body && (m.body + t)[|m.body|..] == t && [] + m.body == m.body;
    }
  }

  /** What is written for a message, character by character. */
  lemma WrittenExample()
    ensures MessageText(Message("S", [HeaderField("A", "b")], "hi")) == "S\r\nA: b\r\n\r\nhi"
  {
    var f := HeaderField("A", "b");
    assert [f][1..] == [];
    assert SectionText([f]) == "A: b\r\n\r\n";
  }

  function StreamText(ms: seq<Message>): text {
    if ms == [] then [] else MessageText(ms[0]) + StreamText(ms[1..])
  }

  function RawMessages(ms: seq<Message>): (raw: seq<RawMessage>)
    ensures |raw| == |ms| && forall i :: 0 <= i < |ms| ==> raw[i] == Raw(ms[i])
  {
    seq(|ms|, i requires 0 <= i < |ms| => Raw(ms[i]))
  }

  lemma {:induction false} RunStream(acceptsStart: text -> bool, bodyLength: (text, seq<HeaderField>) -> Option<nat>,
                                     done: seq<RawMessage>, ms: seq<Message>)
    requires forall i :: 0 <= i < |ms| ==> Sound(acceptsStart, bodyLength, ms[i])
    ensures Run(RawRules(acceptsStart, bodyLength), Idle(done), StreamText(ms)) == Idle(done + RawMessages(ms))
    decreases |ms|
  {
    if ms == [] {
      assert done + RawMessages(ms) == done;
    } else {
      RunMessage(acceptsStart, bodyLength, done, ms[0], StreamText(ms[1..]));
      RunStream(acceptsStart, bodyLength, done + [Raw(ms[0])], ms[1..]);
      ConcatAssoc(done, [Raw(ms[0])], RawMessages(ms[1..]));
      assert [Raw(ms[0])] + RawMessages(ms[1..]) == RawMessages(ms);
    }
  }

  function Flatten(fragments: seq<text>): text {
    if fragments == [] then [] else fragments[0] + Flatten(fragments[1..])
  }

  /** Feeding fragments one by one takes a receiver where their concatenation takes the automaton, so only the
      text matters and not the cuts. */
  method FeedAll(receiver: Receiver, fragments: seq<text>)
    requires receiver.Valid() && receiver.InContract()
    requires forall i :: 0 <= i < |fragments| ==> fragments[i] != []
    requires Run(receiver.Rules(), receiver.Reached(), Flatten(fragments)).Live?
    modifies receiver`pending, receiver`delivered, receiver`raw, receiver.parser
    ensures receiver.Valid() && receiver.InContract()
    ensures receiver.Reached() == Run(receiver.Rules(), old(receiver.Reached()), Flatten(fragments))
  {
    ghost var goal := Run(receiver.Rules(), receiver.Reached(), Flatten(fragments));
    for i := 0 to |fragments|
      invariant receiver.Valid() && receiver.InContract()
      invariant goal == Run(receiver.Rules(), receiver.Reached(), Flatten(fragments[i..]))
    {
      assert fragments[i..][0] == fragments[i] && fragments[i..][1..] == fragments[i + 1..];
      ghost var next := Run(receiver.Rules(), receiver.Reached(), fragments[i]);
      RunConcat(receiver.Rules(), receiver.Reached(), fragments[i], Flatten(fragments[i + 1..]));
      if next.Dead? {
        RunDead(receiver.Rules(), Flatten(fragments[i + 1..]));
      }
      receiver.Feed(fragments[i]);
    }
  }

  /** Messages sent one after the other and received in arbitrary pieces are delivered, unchanged and in order. */
  method Transmit(acceptsStart: text -> bool, bodyLength: (text, seq<HeaderField>) -> Option<nat>,
                  ms: seq<Message>, fragments: seq<text>) returns (delivered: seq<Message>)
    requires forall i :: 0 <= i < |ms| ==> Sound(acceptsStart, bodyLength, ms[i])
    requires forall i :: 0 <= i < |fragments| ==> fragments[i] != []
    requires Flatten(fragments) == StreamText(ms)
    ensures delivered == ms
  {
    var receiver := new Receiver(acceptsStart, bodyLength);
    RunStream(acceptsStart, bodyLength, [], ms);
    FeedAll(receiver, fragments);
    delivered := receiver.delivered;
    assert receiver.Reached() == Idle([] + RawMessages(ms));
    DeliveredAtRest(receiver);
    forall i | 0 <= i < |ms|
      ensures Parsed(Raw(ms[i])) == ms[i]
    {
      FieldsOfRawLines(ms[i].header);
    }
    assert [] + RawMessages(ms) == RawMessages(ms);
    assert delivered == ms;
  }

  /** What a receiver has delivered is what the automaton has completed. */
  lemma DeliveredAtRest(receiver: Receiver)
    requires receiver.Valid() && receiver.InContract() && receiver.Reached().Live?
    ensures receiver.delivered == AllParsed(receiver.Reached().done)
  {
    if receiver.pending != [] {
      RunPlain(receiver.Rules(), receiver.parser.Abs(receiver.raw), receiver.pending);
    }
  }

  /** A line ended by a lone LF is read as that line. */
  lemma LfLine(line: text, t: text)
    requires NoEol(line)
    ensures var s := line + [LF] + t; HasLine(s) && LineOf(s) == line && AfterLine(s) == t
  {
    LineIsRead(line, [LF], t);
  }

  /** The field of a line, if it is one. */
  function FieldOn(line: text): seq<HeaderField> {
    match ParseHeaderLine(line)
    case Field(f) => [f]
    case _ => []
  }

  /** A field followed by one continuation line, read at once or cut between the two: the restriction to headers
      without continuation lines is needed, since the cut loses the continuation or makes it a field of its own. */
  lemma ContinuationDependsOnCut(f: HeaderField, more: text)
    requires SoundField(f) && more != [] && Flush(more) && NoEol(more)
    ensures var first := LineText(f) + [LF];
            var second := [SP] + more + [LF] + [LF];
            && SectionFields(first + second) == [HeaderField(f.name, f.value + more)]
            && SectionFields(first) + SectionFields(second) == [f] + FieldOn(more)
            && SectionFields(first + second) != SectionFields(first) + SectionFields(second)
  {
    FieldAlone(f);
    ContinuationAlone(more);
    FieldContinued(f, more);
    assert |f.value + more| > |f.value|;
    assert ([f] + FieldOn(more))[0] == f;
  }

  /** The header that the parser collects from the whole section and from its two pieces, one after the other. */
  method CollectCut(acceptsStart: text -> bool, bodyLength: (text, seq<HeaderField>) -> Option<nat>, f: HeaderField, more: text)
    returns (whole: seq<HeaderField>, cut: seq<HeaderField>)
    requires SoundField(f) && more != [] && Flush(more) && NoEol(more)
    ensures whole == [HeaderField(f.name, f.value + more)] && cut == [f] + FieldOn(more) && whole != cut
  {
    var first, second := LineText(f) + [LF], [SP] + more + [LF] + [LF];
    whole := CollectOne(acceptsStart, bodyLength, first + second);
    cut := CollectTwo(acceptsStart, bodyLength, first, second);
    ContinuationDependsOnCut(f, more);
  }

  /** The header collected from a fragment that ends with LF, ... */
  method CollectOne(acceptsStart: text -> bool, bodyLength: (text, seq<HeaderField>) -> Option<nat>, fragment: text)
    returns (header: seq<HeaderField>)
    requires fragment != [] && fragment[|fragment| - 1] == LF
    ensures header == SectionFields(fragment)
  {
    var parser := new MessageParser(acceptsStart, bodyLength);
    Collect(parser, fragment);
    header := parser.header;
    FromEmpty(SectionFields(fragment));
  }

  /** ... and from two of them. */
  method CollectTwo(acceptsStart: text -> bool, bodyLength: (text, seq<HeaderField>) -> Option<nat>, first: text, second: text)
    returns (header: seq<HeaderField>)
    requires first != [] && first[|first| - 1] == LF && second != [] && second[|second| - 1] == LF
    ensures header == SectionFields(first) + SectionFields(second)
  {
    var parser := new MessageParser(acceptsStart, bodyLength);
    Collect(parser, first);
    Collect(parser, second);
    header := parser.header;
    FromEmpty(SectionFields(first));
  }

  lemma FromEmpty(fields: seq<HeaderField>)
    ensures [] + fields == fields
  {
  }

  /** What a fragment that ends with LF adds to the header. */
  method Collect(parser: MessageParser, fragment: text)
    requires !parser.skipLf && fragment != [] && fragment[|fragment| - 1] == LF
    modifies parser
    ensures parser.header == old(parser.header) + SectionFields(fragment) && !parser.skipLf
  {
    var reader := new TextReader(fragment);
    assert reader.Rest() == fragment;
    var _ := parser.CollectFields(reader);
  }

  lemma EmptyLineOnly()
    ensures SectionFields([LF]) == []
  {
    LfLine([], []);
    assert [] + [LF] + [] == [LF];
  }

  lemma FieldAlone(f: HeaderField)
    requires SoundField(f)
    ensures SectionFields(LineText(f) + [LF]) == [f]
  {
    FieldLineAtStart(f.name, [SP], f.value);
    LfLine(LineText(f), []);
    assert LineText(f) + [LF] + [] == LineText(f) + [LF] && f.value + [] == f.value;
  }

  lemma ContinuationAlone(more: text)
    requires more != [] && Flush(more) && NoEol(more)
    ensures SectionFields([SP] + more + [LF] + [LF]) == FieldOn(more)
  {
    var line := [SP] + more;
    SpaceFirst(more);
    LfLine(line, [LF]);
    EmptyLineOnly();
    assert FoldText([LF]) == [] && FoldRest([LF]) == [LF];
    if ParseHeaderLine(more).Field? {
      assert ParseHeaderLine(more).field.value + [] == ParseHeaderLine(more).field.value;
    }
  }

  /** A space in front makes no difference to a line on its own. */
  lemma SpaceFirst(more: text)
    requires Flush(more) && NoEol(more)
    ensures NoEol([SP] + more) && ParseHeaderLine([SP] + more) == ParseHeaderLine(more)
  {
    assert NoEol([SP] + more) by {
      LineHasNoEol(more);
      LineLengthUnique([SP] + more, |more| + 1);
    }
    SkipWspConcat([SP], more);
    assert SkipWsp(more) == more by {
      SpanWspUnique(more, 0);
    }
  }

  lemma FieldContinued(f: HeaderField, more: text)
    requires SoundField(f) && Flush(more) && NoEol(more)
    ensures SectionFields(LineText(f) + [LF] + ([SP] + more + [LF] + [LF])) == [HeaderField(f.name, f.value + more)]
  {
    FieldLineAtStart(f.name, [SP], f.value);
    LfLine(LineText(f), [SP] + more + [LF] + [LF]);
    OneContinuation(more);
    EmptyLineOnly();
  }

  lemma OneContinuation(more: text)
    requires Flush(more) && NoEol(more)
    ensures FoldText([SP] + more + [LF] + [LF]) == more && FoldRest([SP] + more + [LF] + [LF]) == [LF]
  {
    var s, t := [SP] + more + [LF] + [LF], more + [LF] + [LF];
    assert s == [SP] + t;
    SkipWspConcat([SP], t);
    LfLine(more, [LF]);
    FoldStep(s, t);
    NoFolding([LF]);
    assert more + [] == more;
  }

  lemma FoldStep(s: text, t: text)
    requires s != [] && IsWsp(s[0]) && t == SkipWsp(s) && HasLine(t)
    ensures FoldText(s) == LineOf(t) + FoldText(AfterLine(t)) && FoldRest(s) == FoldRest(AfterLine(t))
  {
  }
}
