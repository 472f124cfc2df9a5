/** A byte-at-a-time reading of text messages, independent of how the bytes arrive: the reference against
    which the incremental parser of libs/apr-toolkit/src/apt_text_message.c is proved. */
module MessageAutomaton {
  import opened Common
  import opened Text

  datatype Stage = StartLine | Header | Body

  /** A message as its raw lines. */
  datatype RawMessage = RawMessage(start: text, lines: seq<text>, body: text)

  /** Which start lines are accepted, and the body length that header lines announce (None if rejected). */
  datatype Rules = Rules(acceptsStart: text -> bool, bodyLength: (text, seq<text>) -> Option<nat>)

  /** `sawCr` remembers a CR that ended a line.  `Dead` stands for input outside the contract: a rejected start
      line or header, or a header line that begins with white space. */
  datatype State =
    | Dead
    | Live(stage: Stage, sawCr: bool, line: text, start: text, lines: seq<text>, body: text, need: nat,
           done: seq<RawMessage>)

  function Idle(done: seq<RawMessage>): State {
    Live(StartLine, false, [], [], [], [], 0, done)
  }

  function MarkCr(s: State, sawCr: bool): State {
    if s.Dead? then s else s.(sawCr := sawCr)
  }

  function HeaderDone(r: Rules, s: State): State
    requires s.Live?
  {
    match r.bodyLength(s.start, s.lines)
    case None => Dead
    case Some(n) =>
      if n == 0 then Idle(s.done + [RawMessage(s.start, s.lines, [])])
      else Live(Body, false, [], s.start, s.lines, [], n, s.done)
  }

  function EndLine(r: Rules, s: State): State
    requires s.Live?
  {
    match s.stage
    case StartLine =>
      if r.acceptsStart(s.line) then Live(Header, false, [], s.line, [], [], 0, s.done) else Dead
    case Header =>
      if s.line == [] then HeaderDone(r, s) else s.(line := [], sawCr := false, lines := s.lines + [s.line])
    case Body => s
  }

  function AddToBody(s: State, t: text): State
    requires s.Live?
  {
    if |s.body + t| >= s.need then Idle(s.done + [RawMessage(s.start, s.lines, s.body + t)])
    else s.(body := s.body + t, sawCr := false)
  }

  function Step(r: Rules, s: State, c: char): State {
    if s.Dead? then s
    else if s.sawCr && c == LF then s.(sawCr := false)
    else if s.stage.Body? then AddToBody(s, [c])
    else if IsEol(c) then MarkCr(EndLine(r, s), c == CR)
    else if s.stage.Header? && s.line == [] && IsWsp(c) then Dead
    else s.(line := s.line + [c], sawCr := false)
  }

  function Run(r: Rules, s: State, t: text): State
    decreases |t|
  {
    if t == [] then s else Run(r, Step(r, s, t[0]), t[1..])
  }

  /** Reading in two pieces is reading at once. */
  lemma {:induction false} RunConcat(r: Rules, s: State, a: text, b: text)
    ensures Run(r, s, a + b) == Run(r, Run(r, s, a), b)
    decreases |a|
  {
    if a == [] {
      assert a + b == b;
    } else {
      assert (a + b)[0] == a[0] && (a + b)[1..] == a[1..] + b;
      RunConcat(r, Step(r, s, a[0]), a[1..], b);
    }
  }

  lemma {:induction false} RunDead(r: Rules, t: text)
    ensures Run(r, Dead, t) == Dead
    decreases |t|
  {
    if t != [] {
      RunDead(r, t[1..]);
    }
  }

  /** No header line that begins with white space is about to start. */
  predicate FoldFree(s: State, t: text)
    requires s.Live?
  {
    s.stage.Header? && s.line == [] ==> Flush(t)
  }

  /** Text without an end of line is kept as the beginning of a line. */
  lemma {:induction false} RunPlain(r: Rules, s: State, t: text)
    requires s.Live? && !s.stage.Body? && !s.sawCr && !HasLine(t)
    ensures Run(r, s, t) == if FoldFree(s, t) then s.(line := s.line + t) else Dead
    decreases |t|
  {
    if t == [] {
      assert s.line + t == s.line;
    } else if FoldFree(s, t) {
      var s' := s.(line := s.line + [t[0]]);
      RunPlain(r, s', t[1..]);
      assert s.line + t == s'.line + t[1..];
    } else {
      RunDead(r, t[1..]);
    }
  }

  /** After a CR, a LF is skipped and anything else is read as usual. */
  lemma AfterCr(r: Rules, s: State, t: text)
    requires t != []
    ensures Run(r, MarkCr(s, true), t) == Run(r, MarkCr(s, false), if t[0] == LF then t[1..] else t)
  {
    if t[0] == LF {
      assert Step(r, MarkCr(s, true), t[0]) == MarkCr(s, false);
    } else {
      assert Step(r, MarkCr(s, true), t[0]) == Step(r, MarkCr(s, false), t[0]);
    }
  }

  /** All of t was consumed and it ended in a CR. */
  predicate EndsInCr(t: text, rest: text) {
    rest == [] && t != [] && t[|t| - 1] == CR
  }

  /** The end of a line whose text has been collected. */
  lemma LineEnd(r: Rules, s: State, t: text)
    requires s.Live? && !s.stage.Body? && !s.sawCr && t != [] && IsEol(t[0])
    ensures Run(r, s, t) == Run(r, MarkCr(EndLine(r, s), EndsInCr(t, AfterEol(t, 0))), AfterEol(t, 0))
  {
    var ended := EndLine(r, s);
    assert Run(r, s, t) == Run(r, MarkCr(ended, t[0] == CR), t[1..]);
    if t[0] == CR && |t| > 1 {
      AfterCr(r, ended, t[1..]);
    }
  }

  /** The text of a line is collected. */
  lemma CollectLine(r: Rules, s: State, t: text)
    requires s.Live? && !s.stage.Body? && !s.sawCr && s.line == [] && HasLine(t)
    ensures Run(r, s, t) == Run(r, if FoldFree(s, t) then s.(line := LineOf(t)) else Dead, t[LineLength(t)..])
  {
    var n := LineLength(t);
    assert Run(r, s, t) == Run(r, Run(r, s, t[..n]), t[n..]) by {
      assert t == t[..n] + t[n..];
      RunConcat(r, s, t[..n], t[n..]);
    }
    LineHasNoEol(t);
    RunPlain(r, s, t[..n]);
    assert [] + t[..n] == LineOf(t);
  }

  lemma TailAfterEol(t: text, n: nat)
    requires n < |t|
    ensures AfterEol(t[n..], 0) == AfterEol(t, n)
    ensures EndsInCr(t[n..], AfterEol(t, n)) == EndsInCr(t, AfterEol(t, n))
  {
  }

  /** A whole line, whichever way it ends. */
  lemma RunLine(r: Rules, s: State, t: text)
    requires s.Live? && !s.stage.Body? && !s.sawCr && s.line == [] && HasLine(t)
    ensures Run(r, s, t) ==
            if FoldFree(s, t)
            then Run(r, MarkCr(EndLine(r, s.(line := LineOf(t))), EndsInCr(t, AfterLine(t))), AfterLine(t))
            else Dead
  {
    var tail := t[LineLength(t)..];
    CollectLine(r, s, t);
    if FoldFree(s, t) {
      LineEnd(r, s.(line := LineOf(t)), tail);
      TailAfterEol(t, LineLength(t));
    } else {
      RunDead(r, tail);
    }
  }

  /** The lines before the first empty one, ... */
  function LinesOf(t: text): seq<text>
    decreases |t|
  {
    if !HasLine(t) || LineOf(t) == [] then [] else [LineOf(t)] + LinesOf(AfterLine(t))
  }

  /** ... what follows them, ... */
  function LinesRest(t: text): text
    decreases |t|
  {
    if !HasLine(t) then t else if LineOf(t) == [] then AfterLine(t) else LinesRest(AfterLine(t))
  }

  /** ... and whether there is an empty line. */
  predicate LinesEnd(t: text)
    decreases |t|
  {
    HasLine(t) && (LineOf(t) == [] || LinesEnd(AfterLine(t)))
  }

  /** No line up to the first empty one begins with white space, nor does the unfinished one after them. */
  predicate LinesFlush(t: text)
    decreases |t|
  {
    Flush(t) && (HasLine(t) && LineOf(t) != [] ==> LinesFlush(AfterLine(t)))
  }

  /** What the lines at the start of t make of a state that collects header lines. */
  function SectionState(r: Rules, s: State, t: text): State
    requires s.Live?
  {
    var s' := s.(lines := s.lines + LinesOf(t));
    if LinesEnd(t) then HeaderDone(r, s') else s'
  }

  /** Only the last character of t decides whether it ends in CR. */
  lemma EndsInCrSuffix(t: text, n: nat, rest: text)
    requires n < |t|
    ensures EndsInCr(t[n..], rest) == EndsInCr(t, rest)
  {
  }

  lemma SectionStateStep(r: Rules, s: State, t: text)
    requires s.Live?
    ensures !HasLine(t) ==> SectionState(r, s, t) == s
    ensures HasLine(t) && LineOf(t) == [] ==> SectionState(r, s, t) == HeaderDone(r, s)
    ensures HasLine(t) && LineOf(t) != [] ==>
              SectionState(r, s, t) == SectionState(r, s.(lines := s.lines + [LineOf(t)]), AfterLine(t))
  {
    assert s.lines + [] == s.lines;
    if HasLine(t) && LineOf(t) != [] {
      ConcatAssoc(s.lines, [LineOf(t)], LinesOf(AfterLine(t)));
    }
  }

  /** The header section at the start of t, line by line. */
  lemma {:induction false} RunSection(r: Rules, s: State, t: text)
    requires s.Live? && s.stage.Header? && !s.sawCr && s.line == []
    requires LinesFlush(t)
    ensures Run(r, s, t) == Run(r, MarkCr(SectionState(r, s, t), EndsInCr(t, LinesRest(t))), LinesRest(t))
    decreases |t|
  {
    SectionStateStep(r, s, t);
    if HasLine(t) {
      RunLine(r, s, t);
      var after := AfterLine(t);
      if LineOf(t) != [] && after != [] {
        RunSection(r, s.(lines := s.lines + [LineOf(t)]), after);
        EndsInCrSuffix(t, |t| - |after|, LinesRest(t));
      } else if LineOf(t) != [] {
        SectionStateStep(r, s.(lines := s.lines + [LineOf(t)]), after);
      }
    }
  }

  /** Where reading a header section survives, its lines do not begin with white space. */
  lemma {:induction false} SectionFlush(r: Rules, s: State, t: text)
    requires s.Live? && s.stage.Header? && !s.sawCr && s.line == []
    requires Run(r, s, t).Live?
    ensures LinesFlush(t)
    decreases |t|
  {
    if !Flush(t) {
      RunDead(r, t[1..]);
    } else if HasLine(t) && LineOf(t) != [] && AfterLine(t) != [] {
      RunLine(r, s, t);
      SectionFlush(r, s.(lines := s.lines + [LineOf(t)]), AfterLine(t));
    }
  }

  /** Part of a body. */
  lemma {:induction false} RunBody(r: Rules, s: State, t: text, n: nat)
    requires s.Live? && s.stage.Body? && !s.sawCr && |s.body| < s.need
    requires n == Min(|t|, s.need - |s.body|)
    ensures Run(r, s, t) == if n == 0 then s else Run(r, AddToBody(s, t[..n]), t[n..])
    decreases |t|
  {
    if n > 0 {
      var s' := AddToBody(s, [t[0]]);
      if n == 1 {
        assert t[..1] == [t[0]];
      } else {
        RunBody(r, s', t[1..], n - 1);
        assert s.body + t[..n] == s'.body + t[1..][..n - 1];
        assert t[1..][n - 1..] == t[n..];
      }
    }
  }

  /** The fields of raw header lines; malformed lines are dropped. */
  function Fields(lines: seq<text>): seq<HeaderField> {
    if lines == [] then []
    else
      match ParseHeaderLine(lines[0])
      case Field(f) => [f] + Fields(lines[1..])
      case _ => Fields(lines[1..])
  }

  lemma {:induction false} FieldsConcat(a: seq<text>, b: seq<text>)
    ensures Fields(a + b) == Fields(a) + Fields(b)
    decreases |a|
  {
    if a == [] {
      assert a + b == b;
    } else {
      assert (a + b)[0] == a[0] && (a + b)[1..] == a[1..] + b;
      FieldsConcat(a[1..], b);
    }
  }

  lemma FlushLineNotBlank(line: text)
    requires line != [] && Flush(line)
    ensures !ParseHeaderLine(line).Blank?
  {
  }

  /** Without lines that begin with white space, the section reader finds exactly the fields of the raw lines. */
  lemma {:induction false} SectionIsLines(t: text)
    requires LinesFlush(t)
    ensures SectionFields(t) == Fields(LinesOf(t)) && SectionRest(t) == LinesRest(t) && SectionEnds(t) == LinesEnd(t)
    decreases |t|
  {
    if HasLine(t) {
      if LineOf(t) == [] {
        assert ParseHeaderLine([]) == Blank;
      } else {
        FlushLineNotBlank(LineOf(t));
        SectionIsLines(AfterLine(t));
        var lines := LinesOf(t);
        assert lines[0] == LineOf(t) && lines[1..] == LinesOf(AfterLine(t));
        if ParseHeaderLine(LineOf(t)).Field? {
          NoFolding(AfterLine(t));
          assert ParseHeaderLine(LineOf(t)).field.value + [] == ParseHeaderLine(LineOf(t)).field.value;
        }
      }
    }
  }

  lemma NoFolding(t: text)
    requires Flush(t)
    ensures FoldText(t) == [] && FoldRest(t) == t
  {
  }

  /** Where reading survives, the section reader and the automaton agree on a header section; a pending CR can
      only stand before the end of the text. */
  lemma SectionGoal(r: Rules, s: State, t: text, goal: State, s': State, sawCr: bool)
    requires s.Live? && s.stage.Header? && s.line == [] && (s.sawCr ==> t == [])
    requires goal.Live? && goal == Run(r, s, t)
    requires s' == s.(lines := s.lines + LinesOf(t), sawCr := sawCr)
    requires sawCr == if t == [] then s.sawCr else EndsInCr(t, SectionRest(t))
    ensures Fields(s'.lines) == Fields(s.lines) + SectionFields(t)
    ensures goal == Run(r, MarkCr(if SectionEnds(t) then HeaderDone(r, s') else s', sawCr), SectionRest(t))
  {
    if t == [] {
      assert s.lines + [] == s.lines;
    } else {
      SectionFlush(r, s, t);
      SectionIsLines(t);
      RunSection(r, s, t);
    }
    FieldsConcat(s.lines, LinesOf(t));
  }

  /** Part of a body, or all that is missing of it; a pending CR can only stand before the end of the text. */
  lemma BodyGoal(r: Rules, s: State, t: text, goal: State, n: nat)
    requires s.Live? && s.stage.Body? && |s.body| < s.need && (s.sawCr ==> t == [])
    requires goal == Run(r, s, t)
    requires n == Min(|t|, s.need - |s.body|)
    ensures var body := s.body + t[..n];
            goal == Run(r, if |body| == s.need then Idle(s.done + [RawMessage(s.start, s.lines, body)]) else s.(body := body), t[n..])
  {
    if t == [] {
      assert s.body + [] == s.body;
    } else {
      RunBody(r, s, t, n);
    }
  }
}
