/** Lines and header fields of text messages, and the reader that walks them
    (libs/apr-toolkit/include/apt_text_stream.h and libs/apr-toolkit/src/apt_text_stream.c). */
module Text {
  import opened Common

  const SP := ' '
  const HTAB := '\t'
  const CR := '\r'
  const LF := '\n'

  type text = seq<char>

  const CrLf: text := [CR, LF]

  predicate IsWsp(c: char) {
    c == SP || c == HTAB
  }

  predicate IsEol(c: char) {
    c == CR || c == LF
  }

  /** Contains an end of line. */
  predicate HasLine(s: text) {
    exists i :: 0 <= i < |s| && IsEol(s[i])
  }

  /** Characters before the first end of line, all of them if there is none. */
  function LineLength(s: text): (n: nat)
    ensures n <= |s| && (n < |s| ==> IsEol(s[n]))
    ensures n < |s| <==> HasLine(s)
  {
    if s == [] || IsEol(s[0]) then 0
    else
      assert HasLine(s) <==> HasLine(s[1..]) by {
        if HasLine(s) {
          var i :| 0 <= i < |s| && IsEol(s[i]);
          assert s[1..][i - 1] == s[i];
        }
      }
      1 + LineLength(s[1..])
  }

  lemma {:induction false} LineLengthUnique(s: text, n: nat)
    requires n <= |s| && (n < |s| ==> IsEol(s[n])) && forall i :: 0 <= i < n ==> !IsEol(s[i])
    ensures LineLength(s) == n
  {
    if n > 0 {
      LineLengthUnique(s[1..], n - 1);
    }
  }

  lemma {:induction false} LineHasNoEol(s: text)
    ensures forall i :: 0 <= i < LineLength(s) ==> !IsEol(s[i])
    ensures !HasLine(s[..LineLength(s)])
  {
    if s != [] && !IsEol(s[0]) {
      LineHasNoEol(s[1..]);
    }
    LineLengthUnique(s[..LineLength(s)], LineLength(s));
  }

  function LineOf(s: text): text {
    s[..LineLength(s)]
  }

  /** What follows an end of line at n: CR LF, a lone CR and a lone LF all count as one. */
  function AfterEol(s: text, n: nat): text
    requires n < |s|
  {
    if s[n] == CR && n + 1 < |s| && s[n + 1] == LF then s[n + 2..] else s[n + 1..]
  }

  /** What follows the first line. */
  function AfterLine(s: text): text
    requires HasLine(s)
  {
    AfterEol(s, LineLength(s))
  }

  /** Number of leading white space characters. */
  function SpanWsp(s: text): (n: nat)
    ensures n <= |s| && (n < |s| ==> !IsWsp(s[n]))
  {
    if s == [] || !IsWsp(s[0]) then 0 else 1 + SpanWsp(s[1..])
  }

  lemma {:induction false} SpanWspUnique(s: text, n: nat)
    requires n <= |s| && (n < |s| ==> !IsWsp(s[n])) && forall i :: 0 <= i < n ==> IsWsp(s[i])
    ensures SpanWsp(s) == n
  {
    if n > 0 {
      SpanWspUnique(s[1..], n - 1);
    }
  }

  function SkipWsp(s: text): text {
    s[SpanWsp(s)..]
  }

  /** Number of leading characters other than c. */
  function SpanTo(s: text, c: char): (n: nat)
    ensures n <= |s| && (n < |s| ==> s[n] == c)
  {
    if s == [] || s[0] == c then 0 else 1 + SpanTo(s[1..], c)
  }

  /** Number of leading characters c. */
  function SpanOf(s: text, c: char): (n: nat)
    ensures n <= |s| && (n < |s| ==> s[n] != c)
  {
    if s == [] || s[0] != c then 0 else 1 + SpanOf(s[1..], c)
  }

  lemma {:induction false} SpanToUnique(s: text, c: char, n: nat)
    requires n <= |s| && (n < |s| ==> s[n] == c) && forall i :: 0 <= i < n ==> s[i] != c
    ensures SpanTo(s, c) == n
  {
    if n > 0 {
      SpanToUnique(s[1..], c, n - 1);
    }
  }

  lemma {:induction false} SpanOfUnique(s: text, c: char, n: nat)
    requires n <= |s| && (n < |s| ==> s[n] != c) && forall i :: 0 <= i < n ==> s[i] == c
    ensures SpanOf(s, c) == n
  {
    if n > 0 {
      SpanOfUnique(s[1..], c, n - 1);
    }
  }

  /** Position of the first ':' after the first character, |s| if there is none. */
  function Colon(s: text): (n: nat)
    requires s != []
    ensures 1 <= n <= |s| && (n < |s| ==> s[n] == ':')
  {
    1 + SpanTo(s[1..], ':')
  }

  datatype HeaderField = HeaderField(name: text, value: text)

  /** A line of a header section. */
  datatype HeaderLine = Blank | Malformed | Field(field: HeaderField)

  /** Leading white space, a non-empty name up to a colon, white space, the value. */
  function ParseHeaderLine(line: text): HeaderLine {
    ParseFlush(SkipWsp(line))
  }

  function ParseFlush(s: text): HeaderLine {
    if s == [] then Blank
    else if Colon(s) == |s| then Malformed
    else Field(HeaderField(s[..Colon(s)], SkipWsp(s[Colon(s) + 1..])))
  }

  /** Spaces and tabs only. */
  predicate AllWsp(s: text) {
    forall i :: 0 <= i < |s| ==> s[i] == ' ' || s[i] == '\t'
  }

  /** Does not begin with white space. */
  predicate Flush(s: text) {
    s == [] || (s[0] != ' ' && s[0] != '\t')
  }

  /** Neither CR nor LF. */
  predicate OneLine(s: text) {
    forall i :: 0 <= i < |s| ==> s[i] != '\r' && s[i] != '\n'
  }

  /** No colon after the first character. */
  predicate NoColon(s: text) {
    forall i :: 1 <= i < |s| ==> s[i] != ':'
  }

  lemma SkipWspConcat(w: text, t: text)
    requires AllWsp(w) && Flush(t)
    ensures SkipWsp(w + t) == t
  {
    SpanWspUnique(w + t, |w|);
  }

  lemma ColonConcat(name: text, tail: text)
    requires name != [] && NoColon(name)
    ensures Colon(name + [':'] + tail) == |name|
  {
    var s := name + [':'] + tail;
    assert forall i :: 0 <= i < |name| - 1 ==> s[1..][i] == name[i + 1];
    SpanToUnique(s[1..], ':', |name| - 1);
  }

  lemma BlankLine(w: text)
    requires AllWsp(w)
    ensures ParseHeaderLine(w) == Blank
  {
    SpanWspUnique(w, |w|);
  }

  lemma MalformedLine(w: text, t: text)
    requires AllWsp(w) && t != [] && Flush(t) && NoColon(t)
    ensures ParseHeaderLine(w + t) == Malformed
  {
    SkipWspConcat(w, t);
    assert forall i :: 0 <= i < |t| - 1 ==> t[1..][i] == t[i + 1];
    SpanToUnique(t[1..], ':', |t| - 1);
  }

  /** A header line taken apart: white space, name, colon, white space, value. */
  lemma FieldLine(w: text, name: text, gap: text, value: text)
    requires AllWsp(w) && name != [] && Flush(name) && NoColon(name) && AllWsp(gap) && Flush(value)
    ensures ParseHeaderLine(w + (name + [':'] + (gap + value))) == Field(HeaderField(name, value))
  {
    var s := name + [':'] + (gap + value);
    assert SkipWsp(w + s) == s by {
      SkipWspConcat(w, s);
    }
    assert Colon(s) == |name| by {
      ColonConcat(name, gap + value);
    }
    assert SkipWsp(gap + value) == value by {
      SkipWspConcat(gap, value);
    }
    assert s[..|name|] == name && s[|name| + 1..] == gap + value;
  }

  lemma FieldLineAtStart(name: text, gap: text, value: text)
    requires name != [] && Flush(name) && NoColon(name) && AllWsp(gap) && Flush(value)
    ensures ParseHeaderLine(name + [':'] + (gap + value)) == Field(HeaderField(name, value))
  {
    FieldLine([], name, gap, value);
    var line := name + [':'] + (gap + value);
    assert [] + line == line;
  }

  /** Continuation lines start with white space.  This is the text they add to a value ... */
  function FoldText(s: text): text
    decreases |s|
  {
    var t := SkipWsp(s);
    if Flush(s) || !HasLine(t) then [] else LineOf(t) + FoldText(AfterLine(t))
  }

  /** ... and this is what follows them.  A last continuation without an end of line only loses its white space. */
  function FoldRest(s: text): (rest: text)
    ensures |rest| <= |s|
    decreases |s|
  {
    var t := SkipWsp(s);
    if Flush(s) then s else if !HasLine(t) then t else FoldRest(AfterLine(t))
  }

  /** The header section at the start of s: its fields, ... */
  function SectionFields(s: text): seq<HeaderField>
    decreases |s|
  {
    if !HasLine(s) then []
    else
      match ParseHeaderLine(LineOf(s))
      case Blank => []
      case Malformed => SectionFields(AfterLine(s))
      case Field(f) => [HeaderField(f.name, f.value + FoldText(AfterLine(s)))] + SectionFields(FoldRest(AfterLine(s)))
  }

  /** ... what follows it, ... */
  function SectionRest(s: text): (rest: text)
    ensures |rest| <= |s|
    decreases |s|
  {
    if !HasLine(s) then s
    else
      match ParseHeaderLine(LineOf(s))
      case Blank => AfterLine(s)
      case Malformed => SectionRest(AfterLine(s))
      case Field(f) => SectionRest(FoldRest(AfterLine(s)))
  }

  /** ... and whether its empty line was found. */
  predicate SectionEnds(s: text)
    decreases |s|
  {
    HasLine(s) &&
    match ParseHeaderLine(LineOf(s))
    case Blank => true
    case Malformed => SectionEnds(AfterLine(s))
    case Field(f) => SectionEnds(FoldRest(AfterLine(s)))
  }

  // ----- lines and continuation lines put together -----

  /** CR LF, a lone CR or a lone LF. */
  predicate IsEnd(e: text) {
    e == CrLf || e == [CR] || e == [LF]
  }

  /** A line with any of the three ends is read as that line, and nothing after it is touched. */
  lemma LineIsRead(line: text, e: text, t: text)
    requires OneLine(line) && IsEnd(e) && (e == [CR] && t != [] ==> t[0] != LF)
    ensures var s := line + e + t; HasLine(s) && LineOf(s) == line && AfterLine(s) == t
  {
    var s := line + e + t;
    assert IsEol(s[|line|]);
    LineLengthUnique(s, |line|);
    assert s[|line|..] == e + t;
    if e == CrLf {
      assert s[|line| + 1] == LF && s[|line| + 2..] == t;
    } else {
      assert s[|line| + 1..] == t && (t != [] ==> s[|line| + 1] == t[0]);
    }
  }

  /** A continuation line: white space, what it adds, and its end. */
  datatype Fold = Fold(gap: text, more: text, end: text)

  predicate SoundFold(c: Fold) {
    c.gap != [] && AllWsp(c.gap) && Flush(c.more) && OneLine(c.more) && IsEnd(c.end)
  }

  function FoldsText(folds: seq<Fold>): text {
    if folds == [] then [] else folds[0].gap + (folds[0].more + folds[0].end + FoldsText(folds[1..]))
  }

  function Added(folds: seq<Fold>): text {
    if folds == [] then [] else folds[0].more + Added(folds[1..])
  }

  /** What can follow continuation lines. */
  predicate NoFold(t: text) {
    Flush(t) && (t == [] || t[0] != LF)
  }

  lemma OneFold(c: Fold, t: text)
    requires SoundFold(c) && (t == [] || t[0] != LF)
    ensures FoldText(c.gap + (c.more + c.end + t)) == c.more + FoldText(t)
    ensures FoldRest(c.gap + (c.more + c.end + t)) == FoldRest(t)
  {
    var u := c.more + c.end + t;
    LineIsRead(c.more, c.end, t);
    assert |c.end| > 0;
    assert u[0] == (c.more + c.end)[0];
    SkipWspConcat(c.gap, u);
    assert (c.gap + u)[0] == c.gap[0];
  }

  /** Continuation lines start with white space, and what follows them does not matter to that. */
  lemma FoldsStart(folds: seq<Fold>, t: text)
    requires NoFold(t) && forall c :: c in folds ==> SoundFold(c)
    ensures var rest := FoldsText(folds) + t; rest == [] || rest[0] != LF
  {
    if folds == [] {
      assert FoldsText(folds) + t == t;
    } else {
      var c := folds[0];
      assert SoundFold(c);
      assert (FoldsText(folds) + t)[0] == c.gap[0];
    }
  }

  /** All continuation lines are appended, each without its white space, and nothing after them is touched. */
  lemma {:induction false} FoldsAreRead(folds: seq<Fold>, t: text)
    requires NoFold(t) && forall c :: c in folds ==> SoundFold(c)
    ensures FoldText(FoldsText(folds) + t) == Added(folds) && FoldRest(FoldsText(folds) + t) == t
    decreases |folds|
  {
    if folds == [] {
      assert [] + t == t;
    } else {
      var c := folds[0];
      assert SoundFold(c);
      FoldsAreRead(folds[1..], t);
      FoldsStart(folds[1..], t);
      OneFold(c, FoldsText(folds[1..]) + t);
      FoldsSplit(c, FoldsText(folds[1..]), t);
    }
  }

  lemma FoldsSplit(c: Fold, a: text, t: text)
    ensures c.gap + (c.more + c.end + a) + t == c.gap + (c.more + c.end + (a + t))
  {
  }

  lemma FieldThen(s: text, line: text, rest: text, f: HeaderField, added: text, t: text)
    requires HasLine(s) && LineOf(s) == line && AfterLine(s) == rest && ParseHeaderLine(line) == Field(f)
    requires FoldText(rest) == added && FoldRest(rest) == t
    ensures SectionFields(s) == [HeaderField(f.name, f.value + added)] + SectionFields(t)
    ensures SectionRest(s) == SectionRest(t) && SectionEnds(s) == SectionEnds(t)
  {
  }

  /** So a field of a header section is read with everything its continuation lines add. */
  lemma FieldIsUnfolded(name: text, gap: text, value: text, e: text, folds: seq<Fold>, t: text, s: text)
    requires name != [] && Flush(name) && NoColon(name) && AllWsp(gap) && Flush(value) && IsEnd(e)
    requires OneLine(name + [':'] + (gap + value)) && NoFold(t) && forall c :: c in folds ==> SoundFold(c)
    requires s == name + [':'] + (gap + value) + e + (FoldsText(folds) + t)
    ensures SectionFields(s) == [HeaderField(name, value + Added(folds))] + SectionFields(t)
    ensures SectionRest(s) == SectionRest(t) && SectionEnds(s) == SectionEnds(t)
  {
    var line, rest := name + [':'] + (gap + value), FoldsText(folds) + t;
    FoldsStart(folds, t);
    LineIsRead(line, e, rest);
    FieldLineAtStart(name, gap, value);
    FoldsAreRead(folds, t);
    FieldThen(s, line, rest, HeaderField(name, value), Added(folds), t);
  }

  class TextReader {
    var text: text
    var pos: nat
    var isEos: bool

    ghost predicate Valid()
      reads this
    {
      pos <= |text|
    }

    ghost function Rest(): text
      requires Valid()
      reads this
    {
      text[pos..]
    }

    constructor (text: text)
      ensures Valid() && this.text == text && pos == 0 && !isEos
    {
      this.text, pos, isEos := text, 0, false;
    }

    predicate AtEnd()
      reads this
    {
      pos >= |text| || isEos
    }

    /** Moves past the end of line found at p. */
    method FinishLine(p: nat)
      requires Valid() && pos <= p < |text|
      modifies this`pos
      ensures Valid() && pos > p && Rest() == AfterEol(old(Rest()), p - old(pos))
    {
      ghost var rest := Rest();
      assert rest[p - pos] == text[p] && (p + 1 < |text| ==> rest[p + 1 - pos] == text[p + 1]);
      if text[p] == CR && p + 1 < |text| && text[p + 1] == LF {
        assert rest[p + 2 - pos..] == text[p + 2..];
        pos := p + 2;
      } else {
        assert rest[p + 1 - pos..] == text[p + 1..];
        pos := p + 1;
      }
    }

    /** Reads a line; an unfinished one stays in the stream and marks its end. */
    method LineRead() returns (ok: bool, line: text)
      requires Valid()
      modifies this`pos, this`isEos
      ensures Valid()
      ensures ok <==> HasLine(old(Rest()))
      ensures ok ==> line == LineOf(old(Rest())) && Rest() == AfterLine(old(Rest())) && isEos == old(isEos)
      ensures ok ==> pos > old(pos)
      ensures !ok ==> line == Rest() && pos == old(pos) && isEos
    {
      ghost var rest := Rest();
      var p := pos;
      while p < |text| && text[p] != CR && text[p] != LF
        invariant pos <= p <= |text|
        invariant forall i :: pos <= i < p ==> !IsEol(text[i])
      {
        p := p + 1;
      }
      LineLengthUnique(rest, p - pos);
      line := text[pos..p];
      ok := p < |text|;
      if !ok {
        isEos := true;
      } else {
        FinishLine(p);
      }
    }

    method WhiteSpacesSkip()
      requires Valid()
      modifies this`pos
      ensures Valid() && Rest() == SkipWsp(old(Rest()))
    {
      ghost var start := pos;
      while pos < |text| && IsWsp(text[pos])
        invariant start <= pos <= |text|
        invariant forall i :: start <= i < pos ==> IsWsp(text[i])
      {
        pos := pos + 1;
      }
      SpanWspUnique(text[start..], pos - start);
    }

    method CharsSkip(c: char)
      requires Valid()
      modifies this`pos
      ensures Valid() && Rest() == old(Rest())[SpanOf(old(Rest()), c)..]
    {
      ghost var start := pos;
      while pos < |text| && text[pos] == c
        invariant start <= pos <= |text|
        invariant forall i :: start <= i < pos ==> text[i] == c
      {
        pos := pos + 1;
      }
      SpanOfUnique(text[start..], c, pos - start);
    }

    method SkipToChar(c: char)
      requires Valid()
      modifies this`pos
      ensures Valid() && Rest() == old(Rest())[SpanTo(old(Rest()), c)..]
    {
      ghost var start := pos;
      while pos < |text| && text[pos] != c
        invariant start <= pos <= |text|
        invariant forall i :: start <= i < pos ==> text[i] != c
      {
        pos := pos + 1;
      }
      SpanToUnique(text[start..], c, pos - start);
    }

    method CharSkip(c: char)
      requires Valid()
      modifies this`pos
      ensures Valid()
      ensures Rest() == if old(Rest()) != [] && old(Rest())[0] == c then old(Rest())[1..] else old(Rest())
    {
      if pos < |text| && text[pos] == c {
        pos := pos + 1;
      }
    }

    /** The single pass over a header line: where it ends, and the positions of the name, of the colon and
        of the value (-1 if not found). */
    method ScanHeader() returns (p: nat, nameAt: int, colonAt: int, valueAt: int)
      requires Valid()
      ensures pos <= p <= |text| && p - pos == LineLength(Rest())
      ensures ScanSoFar(text, pos, p, nameAt, colonAt, valueAt)
    {
      p := pos;
      nameAt, colonAt, valueAt := -1, -1, -1;
      while p < |text| && text[p] != CR && text[p] != LF
        invariant pos <= p <= |text|
        invariant forall i :: pos <= i < p ==> !IsEol(text[i])
        invariant ScanSoFar(text, pos, p, nameAt, colonAt, valueAt)
      {
        if colonAt < 0 {
          if nameAt < 0 && !IsWsp(text[p]) {
            nameAt := p;
          }
          if text[p] == ':' && p > nameAt {
            colonAt := p;
          }
        } else if valueAt < 0 && !IsWsp(text[p]) {
          valueAt := p;
        }
        p := p + 1;
      }
      LineLengthUnique(Rest(), p - pos);
    }

    /** Reads one header line.  A malformed line is consumed too. */
    method HeaderRead() returns (ok: bool, name: text, value: text)
      requires Valid()
      modifies this`pos, this`isEos
      ensures Valid()
      ensures !HasLine(old(Rest())) ==> !ok && pos == old(pos) && isEos
      ensures HasLine(old(Rest())) ==>
                && Rest() == AfterLine(old(Rest())) && isEos == old(isEos) && pos > old(pos)
                && match ParseHeaderLine(LineOf(old(Rest())))
                   case Malformed => !ok
                   case Blank => ok && name == []
                   case Field(f) => ok && f == HeaderField(name, value)
    {
      var p, nameAt, colonAt, valueAt := ScanHeader();
      name, value := [], [];
      ok := p < |text|;
      if !ok {
        isEos := true;
        return;
      }
      ScannedLine(text, pos, p, nameAt, colonAt, valueAt);
      assert LineOf(Rest()) == text[pos..p];
      if colonAt >= 0 {
        name := text[nameAt..colonAt];
        if valueAt >= 0 {
          value := text[valueAt..p];
        }
      }
      ok := colonAt >= 0 || nameAt < 0;
      FinishLine(p);
    }

    /** Reads one continuation line without its leading white space. */
    method UnfoldLine() returns (line: text)
      requires Valid() && pos < |text| && IsWsp(text[pos])
      modifies this`pos, this`isEos
      ensures Valid() && pos > old(pos)
      ensures var t := SkipWsp(old(Rest()));
              if HasLine(t)
              then line == LineOf(t) && Rest() == AfterLine(t) && isEos == old(isEos)
              else line == [] && Rest() == t && Flush(t) && isEos
    {
      SkipWspStep(Rest());
      pos := pos + 1;
      WhiteSpacesSkip();
      var ok;
      ok, line := LineRead();
      if !ok {
        line := [];
      }
    }

    /** Appends the continuation lines of a value. */
    method Unfold(value: text) returns (unfolded: text)
      requires Valid()
      modifies this`pos, this`isEos
      ensures Valid() && pos >= old(pos)
      ensures unfolded == value + FoldText(old(Rest())) && Rest() == FoldRest(old(Rest()))
      ensures isEos ==> old(isEos) || !HasLine(Rest())
    {
      unfolded := value;
      ghost var goal, target := value + FoldText(Rest()), FoldRest(Rest());
      while pos < |text| && IsWsp(text[pos])
        invariant Valid() && pos >= old(pos)
        invariant goal == unfolded + FoldText(Rest())
        invariant target == FoldRest(Rest())
        invariant isEos ==> old(isEos) || (Flush(Rest()) && !HasLine(Rest()))
        decreases |text| - pos
      {
        ghost var tail := FoldText(Rest());
        ghost var long := HasLine(SkipWsp(Rest()));
        var line := UnfoldLine();
        ghost var later := if long then FoldText(Rest()) else [];
        assert tail == line + later;
        ConcatAssoc(unfolded, line, later);
        unfolded := unfolded + line;
      }
    }

    /** Reads a header field with its continuation lines. */
    method FieldParse() returns (ok: bool, field: HeaderField)
      requires Valid()
      modifies this`pos, this`isEos
      ensures Valid()
      ensures !HasLine(old(Rest())) ==> !ok && pos == old(pos) && isEos
      ensures HasLine(old(Rest())) ==> pos > old(pos)
      ensures HasLine(old(Rest())) ==>
                match ParseHeaderLine(LineOf(old(Rest())))
                case Malformed => !ok && Rest() == AfterLine(old(Rest())) && isEos == old(isEos)
                case Blank => ok && field.name == [] && Rest() == AfterLine(old(Rest())) && isEos == old(isEos)
                case Field(f) =>
                  && ok && field == HeaderField(f.name, f.value + FoldText(AfterLine(old(Rest()))))
                  && Rest() == FoldRest(AfterLine(old(Rest())))
                  && (isEos ==> old(isEos) || !HasLine(Rest()))
    {
      var name, value;
      ok, name, value := HeaderRead();
      field := HeaderField(name, value);
      if ok && name != [] {
        value := Unfold(value);
        field := HeaderField(name, value);
      }
    }

    /** Reads header fields up to the empty line or to the end of the stream. */
    method SectionParse() returns (complete: bool, fields: seq<HeaderField>)
      requires Valid() && !isEos
      modifies this`pos, this`isEos
      ensures Valid()
      ensures complete == SectionEnds(old(Rest())) && fields == SectionFields(old(Rest()))
      ensures Rest() == SectionRest(old(Rest()))
      ensures complete ==> !isEos && pos > old(pos)
      ensures !complete ==> AtEnd() && !HasLine(Rest())
    {
      complete, fields := false, [];
      ghost var start := Rest();
      ContinuesFirst(start);
      var more := true;
      while more
        invariant Valid() && Parsing(start, more, complete, fields, Rest())
        invariant if more then pos >= old(pos) && !isEos else if complete then pos > old(pos) && !isEos else AtEnd()
        decreases |text| - pos, more
      {
        more, complete, fields := SectionNext(fields, start);
      }
    }

    /** Reads the next line of a section. */
    method SectionNext(fields: seq<HeaderField>, ghost start: text) returns (more: bool, complete: bool, fields': seq<HeaderField>)
      requires Valid() && !isEos && Continues(start, fields, Rest())
      modifies this`pos, this`isEos
      ensures Valid() && pos >= old(pos) && Parsing(start, more, complete, fields', Rest())
      ensures if more || complete then pos > old(pos) && !isEos else AtEnd()
    {
      ContinuesNext(start, fields, Rest());
      complete, fields' := false, fields;
      var ok, field := FieldParse();
      if ok && field.name != [] {
        fields' := fields + [field];
      }
      complete := ok && field.name == [];
      more := !complete && !AtEnd();
      if !more && !complete && !HasLine(Rest()) && Continues(start, fields', Rest()) {
        ContinuesNowhere(start, fields', Rest());
      }
    }
  }

  /** Reading `fields` of the section at the start of s has come to `rest`. */
  ghost predicate Continues(s: text, fields: seq<HeaderField>, rest: text) {
    SectionEnds(s) == SectionEnds(rest) && SectionFields(s) == fields + SectionFields(rest) && SectionRest(s) == SectionRest(rest)
  }

  /** The section at the start of s is read. */
  ghost predicate Ends(s: text, complete: bool, fields: seq<HeaderField>, rest: text) {
    SectionEnds(s) == complete && SectionFields(s) == fields && SectionRest(s) == rest
  }

  lemma ContinuesFirst(s: text)
    ensures Continues(s, [], s)
  {
    assert [] + SectionFields(s) == SectionFields(s);
  }

  ghost predicate Parsing(s: text, more: bool, complete: bool, fields: seq<HeaderField>, rest: text) {
    if more then Continues(s, fields, rest) else Ends(s, complete, fields, rest) && (complete || !HasLine(rest))
  }

  lemma ContinuesNowhere(s: text, fields: seq<HeaderField>, rest: text)
    requires Continues(s, fields, rest) && !HasLine(rest)
    ensures Ends(s, false, fields, rest)
  {
    assert fields + [] == fields;
  }

  /** What the next line of a section does. */
  lemma ContinuesNext(s: text, fields: seq<HeaderField>, rest: text)
    requires Continues(s, fields, rest)
    ensures !HasLine(rest) ==> Ends(s, false, fields, rest)
    ensures HasLine(rest) ==>
              var after := AfterLine(rest);
              match ParseHeaderLine(LineOf(rest))
              case Blank => Ends(s, true, fields, after)
              case Malformed => Continues(s, fields, after)
              case Field(f) => Continues(s, fields + [HeaderField(f.name, f.value + FoldText(after))], FoldRest(after))
  {
    if !HasLine(rest) {
      ContinuesNowhere(s, fields, rest);
    } else {
      assert fields + [] == fields;
      var after := AfterLine(rest);
      match ParseHeaderLine(LineOf(rest))
      case Blank =>
      case Malformed =>
      case Field(f) =>
        ConcatAssoc(fields, [HeaderField(f.name, f.value + FoldText(after))], SectionFields(FoldRest(after)));
    }
  }

  lemma SkipWspStep(s: text)
    requires s != [] && IsWsp(s[0])
    ensures SkipWsp(s) == SkipWsp(s[1..]) && |SkipWsp(s)| < |s| && Flush(SkipWsp(s))
  {
  }

  /** What the header scan has found between positions `from` and `to`; -1 stands for not found yet. */
  ghost predicate ScanSoFar(s: text, from: nat, to: nat, nameAt: int, colonAt: int, valueAt: int)
    requires from <= to <= |s|
  {
    && -1 <= nameAt < to && -1 <= colonAt < to && -1 <= valueAt < to
    && (forall i :: from <= i < (if nameAt < 0 then to else nameAt) ==> IsWsp(s[i]))
    && (nameAt >= 0 ==> from <= nameAt && !IsWsp(s[nameAt]))
    && (nameAt < 0 ==> colonAt < 0)
    && (colonAt < 0 ==> valueAt < 0)
    && (nameAt >= 0 ==> forall i :: nameAt < i < (if colonAt < 0 then to else colonAt) ==> s[i] != ':')
    && (colonAt >= 0 ==> nameAt < colonAt && s[colonAt] == ':')
    && (colonAt >= 0 ==> forall i :: colonAt < i < (if valueAt < 0 then to else valueAt) ==> IsWsp(s[i]))
    && (valueAt >= 0 ==> colonAt < valueAt && !IsWsp(s[valueAt]))
  }

  lemma Slices(s: text, a: nat, b: nat, c: nat)
    requires a <= b <= c <= |s|
    ensures s[a..c] == s[a..b] + s[b..c]
  {
  }

  lemma LinePieces(s: text, from: nat, nameAt: nat, colonAt: nat, end: nat, to: nat)
    requires from <= nameAt < colonAt < end <= to <= |s| && s[colonAt] == ':'
    ensures s[from..to] == s[from..nameAt] + (s[nameAt..colonAt] + [':'] + (s[colonAt + 1..end] + s[end..to]))
  {
    Slices(s, from, nameAt, to);
    Slices(s, nameAt, colonAt, to);
    Slices(s, colonAt, colonAt + 1, to);
    Slices(s, colonAt + 1, end, to);
    assert s[colonAt..colonAt + 1] == [':'];
    ConcatAssoc(s[nameAt..colonAt], [':'], s[colonAt + 1..to]);
  }

  lemma ScannedField(s: text, from: nat, nameAt: nat, colonAt: nat, end: nat, to: nat)
    requires from <= nameAt < colonAt < end <= to <= |s| && s[colonAt] == ':'
    requires AllWsp(s[from..nameAt]) && Flush(s[nameAt..colonAt]) && NoColon(s[nameAt..colonAt])
    requires AllWsp(s[colonAt + 1..end]) && Flush(s[end..to])
    ensures ParseHeaderLine(s[from..to]) == Field(HeaderField(s[nameAt..colonAt], s[end..to]))
  {
    LinePieces(s, from, nameAt, colonAt, end, to);
    FieldLine(s[from..nameAt], s[nameAt..colonAt], s[colonAt + 1..end], s[end..to]);
  }

  lemma ScannedMalformed(s: text, from: nat, nameAt: nat, to: nat)
    requires from <= nameAt < to <= |s| && AllWsp(s[from..nameAt]) && Flush(s[nameAt..to]) && NoColon(s[nameAt..to])
    ensures ParseHeaderLine(s[from..to]) == Malformed
  {
    Slices(s, from, nameAt, to);
    MalformedLine(s[from..nameAt], s[nameAt..to]);
  }

  /** The scan of a complete line yields its parts. */
  lemma ScannedLine(s: text, from: nat, to: nat, nameAt: int, colonAt: int, valueAt: int)
    requires from <= to <= |s| && ScanSoFar(s, from, to, nameAt, colonAt, valueAt)
    ensures ParseHeaderLine(s[from..to]) ==
            if nameAt < 0 then Blank
            else if colonAt < 0 then Malformed
            else Field(HeaderField(s[nameAt..colonAt], if valueAt < 0 then [] else s[valueAt..to]))
  {
    if nameAt < 0 {
      BlankLine(s[from..to]);
    } else if colonAt < 0 {
      ScannedMalformed(s, from, nameAt, to);
    } else {
      ScannedField(s, from, nameAt, colonAt, if valueAt < 0 then to else valueAt, to);
    }
  }
}
