/** The incremental message parser (libs/apr-toolkit/src/apt_text_message.c) and the receive loop that feeds
    it (libs/mrcpv2-transport/src/mrcp_client_connection.c). */
module MessageParsers {
  import opened Common
  import opened Text
  import opened MessageAutomaton

  datatype Status = Complete | Incomplete | Invalid

  datatype Message = Message(start: text, header: seq<HeaderField>, body: text)

  function Parsed(m: RawMessage): Message {
    Message(m.start, Fields(m.lines), m.body)
  }

  function AllParsed(ms: seq<RawMessage>): (parsed: seq<Message>)
    ensures |parsed| == |ms| && forall i :: 0 <= i < |ms| ==> parsed[i] == Parsed(ms[i])
  {
    seq(|ms|, i requires 0 <= i < |ms| => Parsed(ms[i]))
  }

  /** The event handlers of a parser, seen on raw lines. */
  function RawRules(acceptsStart: text -> bool, bodyLength: (text, seq<HeaderField>) -> Option<nat>): Rules {
    Rules(acceptsStart, (start, lines) => bodyLength(start, Fields(lines)))
  }

  /** The last character consumed is the last one of the text, if all of it is consumed. */
  lemma LastChar(t: text, from: nat, to: nat)
    requires from < |t| && from <= to <= |t|
    ensures EndsInCr(t[from..], t[to..]) == (t[to..] == [] && t[to - 1] == CR)
  {
  }

  lemma TakeDrop(t: text, pos: nat, k: nat)
    requires pos + k <= |t|
    ensures t[pos..][..k] == t[pos..pos + k] && t[pos..][k..] == t[pos + k..]
  {
  }

  /** What the test for a cut line end finds after reading from `from` to `to`. */
  lemma CutFound(t: text, from: nat, to: nat, was: bool, now: bool)
    requires from <= to <= |t| && t != [] && was == (t[from..] == [] && t[from - 1] == CR)
    requires now == (was || (t[to..] == [] && t[to - 1] == CR))
    ensures now == if t[from..] == [] then was else EndsInCr(t[from..], t[to..])
  {
    if from < |t| {
      LastChar(t, from, to);
    }
  }

  class MessageParser {
    /** The start line handler, and the header handler with the announced body length. */
    const acceptsStart: text -> bool
    const bodyLength: (text, seq<HeaderField>) -> Option<nat>

    var stage: Stage
    var skipLf: bool
    var start: text
    var header: seq<HeaderField>
    var body: text
    var contentLength: nat

    /** The raw lines behind `header`. */
    ghost var lines: seq<text>
    ghost const rules: Rules

    constructor (acceptsStart: text -> bool, bodyLength: (text, seq<HeaderField>) -> Option<nat>)
      ensures rules == RawRules(acceptsStart, bodyLength)
      ensures Valid() && Faithful() && !skipLf && header == [] && forall done :: Abs(done) == Idle(done)
    {
      this.acceptsStart, this.bodyLength := acceptsStart, bodyLength;
      rules := RawRules(acceptsStart, bodyLength);
      stage, skipLf := StartLine, false;
      start, header, body, contentLength := [], [], [], 0;
      lines := [];
    }

    ghost predicate Valid()
      reads this
    {
      && rules == RawRules(acceptsStart, bodyLength)
      && (stage.Body? ==> |body| < contentLength)
    }

    /** The automaton state the parser stands for, given the messages delivered so far. */
    ghost function Abs(done: seq<RawMessage>): State
      reads this
    {
      match stage
      case StartLine => Live(StartLine, skipLf, [], [], [], [], 0, done)
      case Header => Live(Header, skipLf, [], start, lines, [], 0, done)
      case Body => Live(Body, skipLf, [], start, lines, body, contentLength, done)
    }

    /** The fields are those of the raw lines; input outside the contract may break this. */
    ghost predicate Faithful()
      reads this
    {
      header == Fields(lines)
    }

    /** Reading the rest of the stream from here leads to `goal`, unless the input is outside the contract. */
    ghost predicate Toward(goal: State, done: seq<RawMessage>, reader: TextReader)
      requires reader.Valid()
      reads this, reader
    {
      goal.Live? ==> Faithful() && goal == Run(rules, Abs(done), reader.Rest())
    }

    /** Skips the LF of a line end that was cut between CR and LF. */
    method SkipPendingLf(reader: TextReader, ghost goal: State, ghost done: seq<RawMessage>)
      requires reader.Valid() && reader.Rest() != [] && Toward(goal, done, reader)
      modifies this`skipLf, reader`pos
      ensures reader.Valid() && Toward(goal, done, reader) && !skipLf
      ensures reader.pos >= old(reader.pos) && (!old(skipLf) ==> reader.pos == old(reader.pos))
      ensures reader.Rest() == [] ==> reader.pos > old(reader.pos) && reader.text[reader.pos - 1] == LF
    {
      if skipLf {
        ghost var abs := Abs(done);
        AfterCr(rules, abs, reader.Rest());
        reader.CharSkip(LF);
        skipLf := false;
        assert Abs(done) == MarkCr(abs, false);
      }
    }

    /** A fragment may end between CR and LF. */
    method TestSegmentation(reader: TextReader)
      requires reader.Valid() && reader.text != []
      modifies this`skipLf
      ensures skipLf == (old(skipLf) || (reader.Rest() == [] && reader.text[reader.pos - 1] == CR))
    {
      if reader.pos == |reader.text| && reader.text[reader.pos - 1] == CR {
        skipLf := true;
      }
    }

    /** Reads the start line. */
    method ReadStart(reader: TextReader, ghost goal: State, ghost done: seq<RawMessage>) returns (ok: bool)
      requires Valid() && stage.StartLine? && !skipLf && reader.Valid() && !reader.isEos
      requires reader.text != [] && Toward(goal, done, reader)
      modifies this`start, this`header, this`stage, this`lines, this`skipLf, reader`pos, reader`isEos
      ensures Valid() && reader.Valid() && Toward(goal, done, reader)
      ensures ok <==> HasLine(old(reader.Rest())) && acceptsStart(LineOf(old(reader.Rest())))
      ensures reader.isEos <==> !HasLine(old(reader.Rest()))
      ensures !ok && !reader.isEos ==> goal.Dead?
      ensures ok ==> stage.Header? && !reader.isEos && reader.pos > old(reader.pos)
      ensures ok ==> skipLf == (reader.Rest() == [] && reader.text[reader.pos - 1] == CR)
      ensures !ok ==> stage.StartLine? && !skipLf
      ensures !ok ==> if reader.isEos then !HasLine(reader.Rest()) else reader.pos > old(reader.pos)
    {
      ghost var rest, abs := reader.Rest(), Abs(done);
      if HasLine(rest) {
        RunLine(rules, abs, rest);
      }
      var line;
      ok, line := reader.LineRead();
      if !ok {
        return;
      }
      if !acceptsStart(line) {
        RunDead(rules, reader.Rest());
        ok := false;
        return;
      }
      start, header, stage, lines := line, [], Header, [];
      TestSegmentation(reader);
      LastChar(reader.text, old(reader.pos), reader.pos);
      assert Abs(done) == MarkCr(EndLine(rules, abs.(line := line)), skipLf);
    }

    /** Adds the header fields found in the stream. */
    method AddFields(reader: TextReader) returns (complete: bool)
      requires reader.Valid() && !reader.isEos
      modifies this`header, reader`pos, reader`isEos
      ensures reader.Valid() && reader.pos >= old(reader.pos)
      ensures complete == SectionEnds(old(reader.Rest())) && reader.Rest() == SectionRest(old(reader.Rest()))
      ensures header == old(header) + SectionFields(old(reader.Rest()))
      ensures complete ==> !reader.isEos && reader.pos > old(reader.pos)
      ensures !complete ==> reader.AtEnd() && !HasLine(reader.Rest())
    {
      var fields;
      complete, fields := reader.SectionParse();
      header := header + fields;
    }

    /** Adds the header fields, and notices a line end that is cut. */
    method CollectFields(reader: TextReader) returns (complete: bool)
      requires reader.Valid() && !reader.isEos && reader.text != []
      requires skipLf == (reader.Rest() == [] && reader.text[reader.pos - 1] == CR)
      modifies this`header, this`skipLf, reader`pos, reader`isEos
      ensures reader.Valid()
      ensures complete == SectionEnds(old(reader.Rest())) && reader.Rest() == SectionRest(old(reader.Rest()))
      ensures header == old(header) + SectionFields(old(reader.Rest()))
      ensures skipLf == if old(reader.Rest()) == [] then old(skipLf) else EndsInCr(old(reader.Rest()), reader.Rest())
      ensures complete ==> !reader.isEos && reader.pos > old(reader.pos)
      ensures !complete ==> reader.AtEnd() && !HasLine(reader.Rest())
    {
      complete := AddFields(reader);
      TestSegmentation(reader);
      CutFound(reader.text, old(reader.pos), reader.pos, old(skipLf), skipLf);
    }

    /** Reads the header section; continues in a later run if it is not complete yet. */
    method ReadHeader(reader: TextReader, ghost goal: State, ghost done: seq<RawMessage>) returns (complete: bool)
      requires Valid() && stage.Header? && reader.Valid() && !reader.isEos
      requires reader.text != [] && Toward(goal, done, reader)
      requires skipLf == (reader.Rest() == [] && reader.text[reader.pos - 1] == CR)
      modifies this`header, this`lines, this`skipLf, reader`pos, reader`isEos
      ensures reader.Valid()
      ensures goal.Live? ==> Faithful()
      ensures skipLf ==> reader.Rest() == []
      ensures complete ==> !reader.isEos && reader.pos > old(reader.pos)
      ensures goal.Live? ==>
                goal == Run(rules, MarkCr(if complete then HeaderDone(rules, Abs(done)) else Abs(done), skipLf), reader.Rest())
      ensures !complete ==> reader.AtEnd() && !HasLine(reader.Rest())
    {
      ghost var rest, abs := reader.Rest(), Abs(done);
      complete := CollectFields(reader);
      lines := lines + LinesOf(rest);
      if goal.Live? {
        SectionGoal(rules, abs, rest, goal, Abs(done), skipLf);
      }
    }

    /** The header handler: rejects the message, finds it complete, or opens its body. */
    method FinishHeader(reader: TextReader, ghost goal: State, ghost done: seq<RawMessage>)
      returns (status: Status, message: Option<Message>, ghost done': seq<RawMessage>)
      requires Valid() && stage.Header? && reader.Valid() && (skipLf ==> reader.Rest() == [])
      requires goal.Live? ==> Faithful()
      requires goal.Live? ==> goal == Run(rules, MarkCr(HeaderDone(rules, Abs(done)), skipLf), reader.Rest())
      modifies this`stage, this`contentLength, this`body
      ensures Valid() && Toward(goal, done', reader)
      ensures status.Complete? <==> message.Some?
      ensures status.Invalid? <==> bodyLength(start, header).None?
      ensures status.Invalid? ==> goal.Dead?
      ensures status.Incomplete? ==> stage.Body? && body == []
      ensures if message.Some? then |done'| == |done| + 1 && done <= done' else done' == done
      ensures message.Some? && goal.Live? ==> message.value == Parsed(done'[|done|])
    {
      message, done' := None, done;
      match bodyLength(start, header)
      case None =>
        RunDead(rules, reader.Rest());
        status := Invalid;
      case Some(n) =>
        if n == 0 {
          status, message, stage := Complete, Some(Message(start, header, [])), StartLine;
          done' := done + [RawMessage(start, lines, [])];
        } else {
          status, contentLength, body, stage := Incomplete, n, [], Body;
        }
    }

    /** Copies what is there of the body. */
    method CopyBody(reader: TextReader) returns (ghost k: nat)
      requires reader.Valid() && |body| < contentLength
      modifies this`body, reader`pos
      ensures reader.Valid() && reader.pos == old(reader.pos) + k
      ensures k == Min(contentLength - |old(body)|, |old(reader.Rest())|)
      ensures body == old(body) + old(reader.Rest())[..k] && reader.Rest() == old(reader.Rest())[k..]
    {
      var required := Min(contentLength - |body|, |reader.text| - reader.pos);
      k := required;
      TakeDrop(reader.text, reader.pos, required);
      body := body + reader.text[reader.pos..reader.pos + required];
      reader.pos := reader.pos + required;
    }

    /** Reads what is there of the body. */
    method ReadBody(reader: TextReader, ghost goal: State, ghost done: seq<RawMessage>)
      returns (message: Option<Message>, ghost done': seq<RawMessage>)
      requires Valid() && stage.Body? && reader.Valid() && (skipLf ==> reader.Rest() == [])
      requires Toward(goal, done, reader)
      modifies this`stage, this`body, reader`pos
      ensures Valid() && reader.Valid() && Toward(goal, done', reader)
      ensures reader.pos >= old(reader.pos)
      ensures message.None? ==> reader.Rest() == []
      ensures message.Some? ==> stage.StartLine? && reader.pos > old(reader.pos) && !skipLf
      ensures if message.Some? then |done'| == |done| + 1 && done <= done' else done' == done
      ensures message.Some? && goal.Live? ==> message.value == Parsed(done'[|done|])
    {
      message, done' := None, done;
      ghost var rest, abs := reader.Rest(), Abs(done);
      ghost var required := CopyBody(reader);
      if goal.Live? {
        BodyGoal(rules, abs, rest, goal, required);
      }
      if |body| == contentLength {
        message, stage := Some(Message(start, header, body)), StartLine;
        done' := done + [RawMessage(start, lines, body)];
      }
    }

    /** Goes on with the header, and with the body if there is one. */
    method ParseHeader(reader: TextReader, ghost goal: State, ghost done: seq<RawMessage>)
      returns (status: Status, message: Option<Message>, ghost done': seq<RawMessage>)
      requires Valid() && stage.Header? && reader.Valid() && !reader.isEos
      requires reader.text != [] && Toward(goal, done, reader)
      requires skipLf == (reader.Rest() == [] && reader.text[reader.pos - 1] == CR)
      modifies this, reader`pos, reader`isEos
      ensures Valid() && reader.Valid() && Toward(goal, done', reader)
      ensures status.Complete? <==> message.Some?
      ensures status.Invalid? ==> goal.Dead?
      ensures reader.pos > old(reader.pos) || reader.AtEnd()
      ensures reader.isEos ==> !stage.Body? && !HasLine(reader.Rest())
      ensures skipLf ==> reader.Rest() == []
      ensures if message.Some? then |done'| == |done| + 1 && done <= done' else done' == done
      ensures message.Some? && goal.Live? ==> message.value == Parsed(done'[|done|])
    {
      status, message, done' := Incomplete, None, done;
      var complete := ReadHeader(reader, goal, done);
      if !complete {
        return;
      }
      status, message, done' := FinishHeader(reader, goal, done);
      if !status.Incomplete? {
        return;
      }
      message, done' := ReadBody(reader, goal, done);
      status := if message.Some? then Complete else Incomplete;
    }

    /** Parses up to one message out of the stream. */
    method ParseNext(reader: TextReader, ghost goal: State, ghost done: seq<RawMessage>)
      returns (status: Status, message: Option<Message>, ghost done': seq<RawMessage>)
      requires Valid() && reader.Valid() && !reader.AtEnd() && Toward(goal, done, reader)
      modifies this, reader`pos, reader`isEos
      ensures Valid() && reader.Valid() && Toward(goal, done', reader)
      ensures status.Complete? <==> message.Some?
      // only input that the automaton rejects is invalid, and a rejected start line that is not the end of the stream is
      ensures status.Invalid? ==> goal.Dead?
      ensures old(stage).StartLine? && !old(skipLf) && HasLine(old(reader.Rest())) && !acceptsStart(LineOf(old(reader.Rest()))) ==>
                status == if reader.Rest() == [] then Incomplete else Invalid
      ensures reader.pos > old(reader.pos) || reader.AtEnd()
      ensures reader.isEos ==> !stage.Body? && !HasLine(reader.Rest())
      ensures skipLf ==> reader.Rest() == []
      ensures if message.Some? then |done'| == |done| + 1 && done <= done' else done' == done
      ensures message.Some? && goal.Live? ==> message.value == Parsed(done'[|done|])
    {
      status, message, done' := Incomplete, None, done;
      SkipPendingLf(reader, goal, done);
      if stage.StartLine? {
        var ok := ReadStart(reader, goal, done);
        if !ok {
          status := if reader.AtEnd() then Incomplete else Invalid;
          return;
        }
      }
      if stage.Header? {
        status, message, done' := ParseHeader(reader, goal, done);
        return;
      }
      message, done' := ReadBody(reader, goal, done);
      status := if message.Some? then Complete else Incomplete;
    }
  }

  /** A connection that receives text in fragments: unread text is kept in front of the next fragment. */
  class Receiver {
    const parser: MessageParser
    var pending: text
    var delivered: seq<Message>
    /** The raw form of what was delivered. */
    ghost var raw: seq<RawMessage>

    constructor (acceptsStart: text -> bool, bodyLength: (text, seq<HeaderField>) -> Option<nat>)
      ensures Valid() && fresh(parser) && Rules() == RawRules(acceptsStart, bodyLength)
      ensures InContract() && Reached() == Idle([]) && delivered == []
    {
      parser := new MessageParser(acceptsStart, bodyLength);
      pending, delivered, raw := [], [], [];
    }

    ghost predicate Valid()
      reads this, parser
    {
      && parser.Valid()
      && (parser.skipLf ==> pending == [])
      && (if parser.stage.Body? then pending == [] else !HasLine(pending))
    }

    ghost function Rules(): Rules {
      parser.rules
    }

    /** The automaton state reached so far, with the unread text as the beginning of a line. */
    ghost function Reached(): State
      reads this, parser
    {
      Run(Rules(), parser.Abs(raw), pending)
    }

    ghost predicate InContract()
      reads this, parser
    {
      parser.Faithful() && delivered == AllParsed(raw)
    }

    /** However the text is cut, a fragment takes the receiver exactly where the automaton goes. */
    method Feed(fragment: text)
      requires Valid() && fragment != []
      modifies this`pending, this`delivered, this`raw, parser
      ensures Valid()
      ensures old(InContract()) && Run(Rules(), old(Reached()), fragment).Live? ==>
                InContract() && Reached() == Run(Rules(), old(Reached()), fragment)
    {
      ghost var goal := if InContract() then Run(Rules(), Reached(), fragment) else Dead;
      RunConcat(Rules(), parser.Abs(raw), pending, fragment);
      var reader := new TextReader(pending + fragment);
      assert reader.Rest() == pending + fragment;
      while !reader.AtEnd()
        invariant parser.Valid() && reader.Valid() && fresh(reader) && reader.text != []
        invariant parser.Toward(goal, raw, reader)
        invariant goal.Live? ==> InContract()
        invariant reader.isEos ==> !parser.stage.Body? && !HasLine(reader.Rest())
        invariant reader.AtEnd() && parser.skipLf ==> reader.Rest() == []
        decreases if reader.AtEnd() then 0 else 1, |reader.text| - reader.pos
      {
        TakeNext(reader, goal);
      }
      pending := reader.text[reader.pos..];
    }

    /** Parses up to one message out of the stream and delivers it. */
    method TakeNext(reader: TextReader, ghost goal: State)
      requires parser.Valid() && reader.Valid() && !reader.AtEnd() && parser.Toward(goal, raw, reader)
      requires goal.Live? ==> InContract()
      modifies this`delivered, this`raw, parser, reader`pos, reader`isEos
      ensures parser.Valid() && reader.Valid() && parser.Toward(goal, raw, reader)
      ensures goal.Live? ==> InContract()
      ensures reader.pos > old(reader.pos) || reader.AtEnd()
      ensures reader.isEos ==> !parser.stage.Body? && !HasLine(reader.Rest())
      ensures parser.skipLf ==> reader.Rest() == []
    {
      var status, message;
      ghost var raw';
      status, message, raw' := parser.ParseNext(reader, goal, raw);
      if status.Complete? {
        delivered := delivered + [message.value];
      }
      raw := raw';
    }
  }
}
