/** Multipart content: writer, reader and their round trip (libs/apr-toolkit/src/apt_multipart_content.c). */
module Multipart {
  import opened Common
  import opened Text
  import opened TextWriters
  import opened Decimal
  import opened MessageCodec

  const Hyphens: text := "--"
  const DefaultBoundary: text := "break"
  const ContentType: text := "Content-Type"
  const ContentId: text := "Content-Id"
  const ContentLength: text := "Content-Length"

  /** A part as handed to the writer; each component may be absent. */
  datatype Part = Part(kind: Option<text>, id: Option<text>, body: Option<text>)

  /** A part as returned by the reader. */
  datatype ContentPart = ContentPart(header: seq<HeaderField>, kind: Option<text>, id: Option<text>,
                                     length: Option<text>, body: text)

  function Given(name: text, value: Option<text>): seq<HeaderField> {
    if value.Some? then [HeaderField(name, value.value)] else []
  }

  function LengthOf(p: Part): Option<text> {
    if p.body.Some? then Some(Dec(|p.body.value|)) else None
  }

  function BodyOf(p: Part): text {
    if p.body.Some? then p.body.value else []
  }

  function PartFields(p: Part): seq<HeaderField> {
    Given(ContentType, p.kind) + (Given(ContentId, p.id) + Given(ContentLength, LengthOf(p)))
  }

  /** What the reader should return for a part. */
  function Expected(p: Part): ContentPart {
    ContentPart(PartFields(p), p.kind, p.id, LengthOf(p), BodyOf(p))
  }

  /** The delimiter in front of a part. */
  function Delimiter(boundary: text): text {
    CrLf + (Hyphens + (boundary + CrLf))
  }

  function PartText(boundary: text, p: Part): text {
    Delimiter(boundary) + (SectionText(PartFields(p)) + BodyOf(p))
  }

  function FinalText(boundary: text): text {
    Delimiter(boundary + Hyphens)
  }

  function ContentText(boundary: text, parts: seq<Part>): text {
    if parts == [] then FinalText(boundary) else PartText(boundary, parts[0]) + ContentText(boundary, parts[1..])
  }

  /** A boundary that the reader recognises again. */
  predicate SoundBoundary(boundary: text) {
    && boundary != [] && NoEol(boundary) && boundary[0] != '-'
    && boundary[|boundary| - 1] != SP
    && !EndsInHyphens(boundary)
  }

  predicate EndsInHyphens(s: text) {
    |s| >= 2 && s[|s| - 1] == '-' && s[|s| - 2] == '-'
  }

  predicate SoundValue(v: Option<text>) {
    v.Some? ==> Flush(v.value) && NoEol(v.value)
  }

  predicate SoundPart(p: Part) {
    SoundValue(p.kind) && SoundValue(p.id)
  }

  /** A size of zero asks for the default. */
  function ContentSize(size: nat): nat {
    if size == 0 then 4096 else size
  }

  // ----- reading -----

  function Lower(c: char): char {
    if 'A' <= c <= 'Z' then (c as int + 32) as char else c
  }

  /** Case-insensitive comparison; empty strings never match. */
  predicate SameText(a: text, b: text) {
    |a| == |b| && a != [] && forall i :: 0 <= i < |a| ==> Lower(a[i]) == Lower(b[i])
  }

  function TrimSpaces(s: text): text {
    if s != [] && s[|s| - 1] == SP then TrimSpaces(s[..|s| - 1]) else s
  }

  /** The recognised header fields of a part; a name matches when it is a prefix of the known one, and the last
      match counts. */
  function Recognised(fields: seq<HeaderField>, part: ContentPart): ContentPart
    decreases |fields|
  {
    if fields == [] then part else Recognised(fields[1..], Noted(part, fields[0]))
  }

  function Noted(part: ContentPart, f: HeaderField): ContentPart {
    if f.name <= ContentLength then part.(length := Some(f.value))
    else if f.name <= ContentType then part.(kind := Some(f.value))
    else if f.name <= ContentId then part.(id := Some(f.value))
    else part
  }

  datatype Got =
    | Failure
    | Final(boundary: text)
    | Next(boundary: text, part: ContentPart, rest: text)

  /** The part of s that follows the preamble and the hyphens of a delimiter. */
  function AfterHyphens(s: text): text {
    var t := s[SpanTo(s, '-')..];
    t[SpanOf(t, '-')..]
  }

  /** The boundary on a delimiter line. */
  function BoundaryOn(line: text): text {
    var s := TrimSpaces(line);
    if EndsInHyphens(s) then s[..|s| - 2] else s
  }

  /** The delimiter line of the end. */
  predicate IsFinalLine(line: text) {
    EndsInHyphens(TrimSpaces(line))
  }

  /** The next part of s, when the delimiter line has been reached. */
  function PartAt(boundary: text, s: text): (g: Got)
    requires HasLine(s)
    ensures g.Next? ==> |g.rest| < |s|
  {
    var found := BoundaryOn(LineOf(s));
    if boundary != [] && !SameText(boundary, found) then Failure
    else
      var known := if boundary == [] then found else boundary;
      if IsFinalLine(LineOf(s)) then Final(known) else HeaderAndBody(known, AfterLine(s))
  }

  function HeaderAndBody(boundary: text, s: text): (g: Got)
    ensures g.Next? ==> |g.rest| <= |s|
  {
    if !SectionEnds(s) then Failure
    else
      var rest := SectionRest(s);
      var part := Recognised(SectionFields(s), ContentPart(SectionFields(s), None, None, None, []));
      if part.length.None? || part.length.value == [] then Next(boundary, part, rest)
      else
        var n := Atoi(part.length.value);
        if n > |rest| then Failure else Next(boundary, part.(body := rest[..n]), rest[n..])
  }

  /** The reader as a function of the text not read yet. */
  function GetPart(boundary: text, s: text): (g: Got)
    ensures g.Next? ==> |g.rest| < |s|
  {
    var t := AfterHyphens(s);
    if t == [] || !HasLine(t) then Failure else PartAt(boundary, t)
  }

  datatype Reading = Reading(parts: seq<ContentPart>, isFinal: bool)

  /** All parts up to the final delimiter, or as far as they can be read. */
  function ReadAll(boundary: text, s: text): Reading
    decreases |s|
  {
    match GetPart(boundary, s)
    case Failure => Reading([], false)
    case Final(_) => Reading([], true)
    case Next(b, part, rest) =>
      var r := ReadAll(b, rest);
      Reading([part] + r.parts, r.isFinal)
  }

  class MultipartReader {
    const reader: TextReader
    var boundary: text

    /** An empty boundary is learnt from the content. */
    constructor (content: text, boundary: text)
      ensures Valid() && fresh(reader) && this.boundary == boundary && reader.Rest() == content
    {
      reader := new TextReader(content);
      this.boundary := boundary;
    }

    ghost predicate Valid()
      reads this, reader
    {
      reader.Valid() && !reader.isEos
    }

    /** Skips the preamble and the hyphens and reads the delimiter line. */
    method ReadDelimiter() returns (ok: bool, line: text)
      requires Valid()
      modifies reader`pos, reader`isEos
      ensures reader.Valid()
      ensures ok <==> HasLine(AfterHyphens(old(reader.Rest())))
      ensures ok ==> Valid() && line == LineOf(AfterHyphens(old(reader.Rest())))
      ensures ok ==> reader.Rest() == AfterLine(AfterHyphens(old(reader.Rest())))
    {
      ok, line := false, [];
      ghost var s := reader.Rest();
      reader.SkipToChar('-');
      if reader.AtEnd() {
        NothingAfterHyphens(s);
        return;
      }
      reader.CharsSkip('-');
      if reader.AtEnd() {
        return;
      }
      ok, line := reader.LineRead();
    }

    /** Returns the next part, or reports the final delimiter. */
    method Get() returns (ok: bool, part: ContentPart, isFinal: bool)
      requires Valid()
      modifies this`boundary, reader`pos, reader`isEos
      ensures reader.Valid()
      ensures match GetPart(old(boundary), old(reader.Rest()))
              case Failure => !ok
              case Final(b) => ok && isFinal && boundary == b
              case Next(b, p, rest) => ok && !isFinal && Valid() && boundary == b && part == p && reader.Rest() == rest
    {
      part, isFinal := ContentPart([], None, None, None, []), false;
      var line;
      ok, line := ReadDelimiter();
      if !ok {
        return;
      }
      ok, isFinal := MatchBoundary(line);
      if ok && !isFinal {
        ok, part := GetHeaderAndBody();
      }
    }

    /** Compares a delimiter line with the boundary, or learns the boundary from it. */
    method MatchBoundary(line: text) returns (ok: bool, isFinal: bool)
      modifies this`boundary
      ensures isFinal == IsFinalLine(line)
      ensures ok == (old(boundary) == [] || SameText(old(boundary), BoundaryOn(line)))
      ensures boundary == if old(boundary) == [] then BoundaryOn(line) else old(boundary)
    {
      var found := TrimTrailing(line);
      isFinal := EndsInHyphens(found);
      if isFinal {
        found := found[..|found| - 2];
      }
      if boundary == [] {
        boundary, ok := found, true;
      } else {
        ok := SameText(boundary, found);
      }
    }

    method TrimTrailing(line: text) returns (trimmed: text)
      ensures trimmed == TrimSpaces(line)
    {
      trimmed := line;
      while trimmed != [] && trimmed[|trimmed| - 1] == SP
        invariant TrimSpaces(trimmed) == TrimSpaces(line)
        decreases |trimmed|
      {
        trimmed := trimmed[..|trimmed| - 1];
      }
    }

    method GetHeaderAndBody() returns (ok: bool, part: ContentPart)
      requires Valid()
      modifies reader`pos, reader`isEos
      ensures reader.Valid()
      ensures match HeaderAndBody(boundary, old(reader.Rest()))
              case Failure => !ok
              case Final(_) => false
              case Next(_, p, rest) => ok && Valid() && part == p && reader.Rest() == rest
    {
      var fields;
      ok, fields := reader.SectionParse();
      part := ContentPart(fields, None, None, None, []);
      if !ok {
        return;
      }
      part := Recognise(fields, part);
      if part.length.Some? && part.length.value != [] {
        var body;
        ok, body := ReadBody(Atoi(part.length.value));
        part := part.(body := body);
      }
    }

    method ReadBody(n: nat) returns (ok: bool, body: text)
      requires Valid()
      modifies reader`pos
      ensures Valid() && ok == (n <= |old(reader.Rest())|)
      ensures ok ==> body == old(reader.Rest())[..n] && reader.Rest() == old(reader.Rest())[n..]
    {
      ok, body := n <= |reader.text| - reader.pos, [];
      if ok {
        body := reader.text[reader.pos..reader.pos + n];
        reader.pos := reader.pos + n;
      }
    }

    method Recognise(fields: seq<HeaderField>, start: ContentPart) returns (part: ContentPart)
      ensures part == Recognised(fields, start)
    {
      part := start;
      for i := 0 to |fields|
        invariant Recognised(fields, start) == Recognised(fields[i..], part)
      {
        var f := fields[i];
        assert fields[i..][0] == f && fields[i..][1..] == fields[i + 1..];
        if f.name <= ContentLength {
          part := part.(length := Some(f.value));
        } else if f.name <= ContentType {
          part := part.(kind := Some(f.value));
        } else if f.name <= ContentId {
          part := part.(id := Some(f.value));
        }
      }
    }
  }

  lemma NothingAfterHyphens(s: text)
    requires SpanTo(s, '-') == |s|
    ensures AfterHyphens(s) == []
  {
  }

  // ----- writing -----

  class MultipartWriter {
    const writer: TextWriter
    const boundary: text

    constructor (size: nat, boundary: Option<text>)
      ensures Valid() && fresh(writer) && fresh(writer.buf) && writer.Written() == []
      ensures this.boundary == (if boundary.Some? then boundary.value else DefaultBoundary)
      ensures writer.buf.Length == ContentSize(size)
    {
      writer := new TextWriter(ContentSize(size));
      this.boundary := if boundary.Some? then boundary.value else DefaultBoundary;
    }

    ghost predicate Valid()
      reads this, writer
    {
      writer.Valid()
    }

    /** Inserts the delimiter of a part. */
    method Initialize() returns (ok: bool)
      requires Valid()
      modifies writer`pos, writer.buf
      ensures Valid() && ok == (|old(writer.Written())| + |Delimiter(boundary)| < writer.buf.Length)
      ensures ok ==> writer.Written() == old(writer.Written()) + Delimiter(boundary)
    {
      ghost var before := writer.Written();
      ok := writer.EolInsert();
      if ok {
        ok := writer.StringInsert(Hyphens);
        if ok {
          ok := writer.StringInsert(boundary);
          if ok {
            ok := writer.EolInsert();
            DelimiterPieces(before, boundary);
          }
        }
      }
    }

    /** Inserts a header field if it is given. */
    method FieldInsert(name: text, value: Option<text>) returns (ok: bool)
      requires Valid()
      modifies writer`pos, writer.buf
      ensures Valid()
      ensures ok == (value.Some? ==> |old(writer.Written())| + |FieldsText(Given(name, value))| < writer.buf.Length)
      ensures ok ==> writer.Written() == old(writer.Written()) + FieldsText(Given(name, value))
    {
      ok := true;
      if value.Some? {
        OneField(HeaderField(name, value.value));
        ok := writer.NameValueInsert(name, value.value);
      } else {
        assert writer.Written() + [] == writer.Written();
      }
    }

    /** Inserts the decimal length of the body; a number that does not fit is cut, and the end of line after it
        then fails. */
    method LengthInsert(body: text) returns (ok: bool)
      requires Valid()
      modifies writer`pos, writer.buf
      ensures Valid()
      ensures var field := FieldText(HeaderField(ContentLength, Dec(|body|)));
              && ok == (|old(writer.Written())| + |field| < writer.buf.Length)
              && (ok ==> writer.Written() == old(writer.Written()) + field)
    {
      ghost var before := writer.Written();
      ok := writer.HeaderNameInsert(ContentLength);
      if !ok {
        return;
      }
      var digits := Dec(|body|);
      var n := Min(|digits|, writer.buf.Length - 1 - writer.pos);
      writer.Put(digits[..n]);
      if n <= 0 {
        return false;
      }
      ok := writer.EolInsert();
      if ok {
        assert digits[..n] == digits;
        FieldPieces(before, ContentLength, digits);
      }
    }

    /** Adds a part: it is written completely exactly when it fits. */
    method Add(part: Part) returns (ok: bool)
      requires Valid()
      modifies writer`pos, writer.buf
      ensures Valid() && ok == (|old(writer.Written())| + |PartText(boundary, part)| < writer.buf.Length)
      ensures ok ==> writer.Written() == old(writer.Written()) + PartText(boundary, part)
    {
      ghost var before := writer.Written();
      PartTextPieces(before, boundary, part);
      ok := Initialize();
      if !ok { return; }
      ok := FieldInsert(ContentType, part.kind);
      if !ok { return; }
      ok := FieldInsert(ContentId, part.id);
      if !ok { return; }
      if part.body.Some? {
        OneField(HeaderField(ContentLength, Dec(|part.body.value|)));
        ok := LengthInsert(part.body.value);
        if !ok { return; }
      } else {
        assert writer.Written() + [] == writer.Written();
      }
      ok := writer.EolInsert();
      if !ok { return; }
      if part.body.Some? {
        ok := writer.StringInsert(part.body.value);
      } else {
        assert writer.Written() + [] == writer.Written();
      }
    }

    /** Writes the final delimiter. */
    method Finalize() returns (ok: bool)
      requires Valid()
      modifies writer`pos, writer.buf
      ensures Valid() && ok == (|old(writer.Written())| + |FinalText(boundary)| < writer.buf.Length)
      ensures ok ==> writer.Written() == old(writer.Written()) + FinalText(boundary)
    {
      ghost var before := writer.Written();
      ok := writer.EolInsert();
      if !ok { return; }
      ok := writer.StringInsert(Hyphens);
      if !ok { return; }
      ok := writer.StringInsert(boundary);
      if !ok { return; }
      ok := writer.StringInsert(Hyphens);
      if !ok { return; }
      ok := writer.EolInsert();
      ConcatAssoc(before + CrLf + Hyphens, boundary, Hyphens);
      DelimiterPieces(before, boundary + Hyphens);
    }
  }

  /** Header fields without the empty line. */
  function FieldsText(fields: seq<HeaderField>): text {
    if fields == [] then [] else FieldText(fields[0]) + FieldsText(fields[1..])
  }

  lemma FieldPieces(before: text, name: text, value: text)
    ensures before + (name + Separator) + value + CrLf == before + FieldText(HeaderField(name, value))
  {
  }

  lemma OneField(f: HeaderField)
    ensures FieldsText([f]) == FieldText(f)
  {
    assert [f][1..] == [];
    assert FieldText(f) + [] == FieldText(f);
  }

  /** A part is written piece by piece. */
  lemma PartTextPieces(before: text, boundary: text, p: Part)
    ensures before + PartText(boundary, p) ==
            before + Delimiter(boundary) + FieldsText(Given(ContentType, p.kind)) + FieldsText(Given(ContentId, p.id)) +
            FieldsText(Given(ContentLength, LengthOf(p))) + CrLf + BodyOf(p)
  {
    var a, b, c := Given(ContentType, p.kind), Given(ContentId, p.id), Given(ContentLength, LengthOf(p));
    SectionTextFields(a + (b + c));
    FieldsTextConcat(a, b + c);
    FieldsTextConcat(b, c);
    PiecesConcat(before, Delimiter(boundary), FieldsText(a), FieldsText(b), FieldsText(c), BodyOf(p));
  }

  lemma PiecesConcat(before: text, d: text, a: text, b: text, c: text, body: text)
    ensures before + (d + (a + (b + c) + CrLf + body)) == before + d + a + b + c + CrLf + body
  {
    var start := before + d;
    ConcatAssoc(before, d, a + (b + c) + CrLf + body);
    ConcatAssoc(start, a + (b + c) + CrLf, body);
    ConcatAssoc(start, a + (b + c), CrLf);
    ConcatAssoc(start, a, b + c);
    ConcatAssoc(start + a, b, c);
  }

  lemma DelimiterPieces(before: text, boundary: text)
    ensures before + Delimiter(boundary) == before + CrLf + Hyphens + boundary + CrLf
  {
    ConcatAssoc(before, CrLf, Hyphens + (boundary + CrLf));
    ConcatAssoc(before + CrLf, Hyphens, boundary + CrLf);
    ConcatAssoc(before + CrLf + Hyphens, boundary, CrLf);
  }

  lemma {:induction false} FieldsTextConcat(a: seq<HeaderField>, b: seq<HeaderField>)
    ensures FieldsText(a + b) == FieldsText(a) + FieldsText(b)
    decreases |a|
  {
    if a == [] {
      assert a + b == b;
    } else {
      assert (a + b)[0] == a[0] && (a + b)[1..] == a[1..] + b;
      FieldsTextConcat(a[1..], b);
    }
  }

  lemma {:induction false} SectionTextFields(fields: seq<HeaderField>)
    ensures SectionText(fields) == FieldsText(fields) + CrLf
    decreases |fields|
  {
    if fields != [] {
      SectionTextFields(fields[1..]);
    }
  }

  // ----- the round trip -----

  /** A field that is not continued is read as that field. */
  lemma FieldRoundTrip(f: HeaderField, t: text)
    requires SoundField(f) && Flush(t)
    ensures var s := FieldText(f) + t;
            SectionEnds(s) == SectionEnds(t) && SectionFields(s) == [f] + SectionFields(t) && SectionRest(s) == SectionRest(t)
  {
    LineConcat(LineText(f), t);
    FieldLineAtStart(f.name, [SP], f.value);
    assert f.value + [] == f.value;
  }

  lemma EmptyLineRoundTrip(t: text)
    ensures var s := CrLf + t; SectionEnds(s) && SectionFields(s) == [] && SectionRest(s) == t
  {
    assert CrLf + t == [] + CrLf + t;
    LineConcat([], t);
    BlankLine([]);
  }

  /** A generated header section is read back, and nothing after it. */
  lemma {:induction false} SectionRoundTrip(fields: seq<HeaderField>, t: text)
    requires forall i :: 0 <= i < |fields| ==> SoundField(fields[i])
    ensures var s := SectionText(fields) + t;
            SectionEnds(s) && SectionFields(s) == fields && SectionRest(s) == t
    decreases |fields|
  {
    if fields == [] {
      EmptyLineRoundTrip(t);
    } else {
      ConcatAssoc(FieldText(fields[0]), SectionText(fields[1..]), t);
      SectionTextFlush(fields[1..], t);
      SectionRoundTrip(fields[1..], t);
      FieldRoundTrip(fields[0], SectionText(fields[1..]) + t);
    }
  }

  lemma SectionTextFlush(fields: seq<HeaderField>, t: text)
    requires forall i :: 0 <= i < |fields| ==> SoundField(fields[i])
    ensures Flush(SectionText(fields) + t)
  {
    if fields != [] {
      assert FieldText(fields[0])[0] == fields[0].name[0];
    }
  }

  lemma PartFieldsSound(p: Part)
    requires SoundPart(p)
    ensures forall i :: 0 <= i < |PartFields(p)| ==> SoundField(PartFields(p)[i])
  {
    if p.kind.Some? {
      FieldSound(ContentType, p.kind.value);
    }
    if p.id.Some? {
      FieldSound(ContentId, p.id.value);
    }
    if p.body.Some? {
      FieldSound(ContentLength, Dec(|p.body.value|));
    }
  }

  lemma FieldSound(name: text, value: text)
    requires name != [] && Flush(name) && NoColon(name) && NoEol(name) && Flush(value) && NoEol(value)
    ensures SoundField(HeaderField(name, value))
  {
    assert LineText(HeaderField(name, value)) == name + [':', SP] + value;
  }

  /** The recognised fields are those that were given. */
  lemma RecognisedParts(p: Part, h: seq<HeaderField>)
    ensures Recognised(PartFields(p), ContentPart(h, None, None, None, [])) ==
            ContentPart(h, p.kind, p.id, LengthOf(p), [])
  {
    var c := Given(ContentLength, LengthOf(p));
    var b := Given(ContentId, p.id) + c;
    RecognisedGiven(ContentType, p.kind, b, ContentPart(h, None, None, None, []));
    RecognisedGiven(ContentId, p.id, c, ContentPart(h, p.kind, None, None, []));
    assert c + [] == c;
    RecognisedGiven(ContentLength, LengthOf(p), [], ContentPart(h, p.kind, p.id, None, []));
  }

  function WithField(part: ContentPart, name: text, value: Option<text>): ContentPart {
    if value.None? then part
    else if name == ContentLength then part.(length := value)
    else if name == ContentType then part.(kind := value)
    else part.(id := value)
  }

  lemma RecognisedGiven(name: text, value: Option<text>, more: seq<HeaderField>, part: ContentPart)
    requires name == ContentLength || name == ContentType || name == ContentId
    ensures Recognised(Given(name, value) + more, part) == Recognised(more, WithField(part, name, value))
  {
    if value.Some? {
      assert (Given(name, value) + more)[1..] == more;
      assert ContentType[8] != ContentLength[8] && ContentId[8] != ContentLength[8] && ContentId[8] != ContentType[8];
    } else {
      assert Given(name, value) + more == more;
    }
  }

  /** A boundary without its leading hyphens, which cannot be told from those of the delimiter. */
  function Stripped(boundary: text): text {
    boundary[SpanOf(boundary, '-')..]
  }

  /** What precedes the line of a delimiter is skipped. */
  lemma DelimiterSkipped(boundary: text, t: text)
    ensures AfterHyphens(Delimiter(boundary) + t) == Stripped(boundary) + CrLf + t
  {
    var s, n, tail := Delimiter(boundary) + t, SpanOf(boundary, '-'), CrLf + t;
    var u := Hyphens + (boundary + tail);
    assert s == CrLf + u by {
      ConcatAssoc(CrLf, Hyphens + (boundary + CrLf), t);
      ConcatAssoc(Hyphens, boundary + CrLf, t);
      ConcatAssoc(boundary, CrLf, t);
    }
    SpanToUnique(s, '-', 2);
    DropFirst(CrLf, u, 0);
    HyphensSpan(boundary, tail);
    DropFirst(Hyphens, boundary + tail, n);
    assert (boundary + tail)[n..] == boundary[n..] + tail;
    ConcatAssoc(boundary[n..], CrLf, t);
  }

  lemma DropFirst(a: text, b: text, n: nat)
    requires n <= |b|
    ensures (a + b)[|a| + n..] == b[n..]
  {
  }

  lemma HyphensSpan(boundary: text, t: text)
    requires t != [] && t[0] != '-'
    ensures SpanOf(Hyphens + (boundary + t), '-') == 2 + SpanOf(boundary, '-')
  {
    var s, n := Hyphens + (boundary + t), SpanOf(boundary, '-');
    SpanOfAll(boundary);
    assert forall i :: 2 <= i < 2 + n ==> s[i] == boundary[i - 2];
    assert s[2 + n] == (boundary + t)[n];
    SpanOfUnique(s, '-', 2 + n);
  }

  lemma {:induction false} SpanOfAll(s: text)
    ensures forall i :: 0 <= i < SpanOf(s, '-') ==> s[i] == '-'
    decreases |s|
  {
    if s != [] && s[0] == '-' {
      SpanOfAll(s[1..]);
      assert forall i :: 1 <= i < |s| ==> s[i] == s[1..][i - 1];
    }
  }

  /** What the reader makes of a delimiter line. */
  function AtLine(known: text, line: text, t: text): Got {
    if known != [] && !SameText(known, BoundaryOn(line)) then Failure
    else
      var boundary := if known == [] then BoundaryOn(line) else known;
      if IsFinalLine(line) then Final(boundary) else HeaderAndBody(boundary, t)
  }

  lemma DelimiterSeen(known: text, boundary: text, t: text)
    requires NoEol(boundary)
    ensures GetPart(known, Delimiter(boundary) + t) == AtLine(known, Stripped(boundary), t)
  {
    DelimiterSkipped(boundary, t);
    StrippedNoEol(boundary);
    PartAtLine(known, Stripped(boundary), t);
  }

  lemma StrippedNoEol(boundary: text)
    requires NoEol(boundary)
    ensures NoEol(Stripped(boundary))
  {
    var c, n := Stripped(boundary), SpanOf(boundary, '-');
    assert forall i :: 0 <= i < |c| ==> c[i] == boundary[i + n];
  }

  lemma PartAtLine(known: text, line: text, t: text)
    requires NoEol(line)
    ensures var s := line + CrLf + t; s != [] && HasLine(s) && PartAt(known, s) == AtLine(known, line, t)
  {
    LineConcat(line, t);
  }

  lemma {:induction false} TrimmedShorter(s: text)
    ensures TrimSpaces(s) <= s && (|TrimSpaces(s)| == |s| <==> s == [] || s[|s| - 1] != SP)
    decreases |s|
  {
    if s != [] && s[|s| - 1] == SP {
      TrimmedShorter(s[..|s| - 1]);
    }
  }

  /** A boundary with an end of line is cut, and so is not found again. */
  lemma DelimiterCut(known: text, boundary: text, t: text, i: nat)
    requires i < |boundary| && IsEol(boundary[i]) && i < |known|
    ensures GetPart(known, Delimiter(boundary) + t) == Failure
  {
    DelimiterSkipped(boundary, t);
    var n, s := SpanOf(boundary, '-'), Stripped(boundary) + CrLf + t;
    SpanOfAll(boundary);
    assert n <= i && s[i - n] == boundary[i];
    LineLengthBound(s, i - n);
    TrimmedShorter(LineOf(s));
  }

  lemma {:induction false} LineLengthBound(s: text, i: nat)
    requires i < |s| && IsEol(s[i])
    ensures LineLength(s) <= i
    decreases |s|
  {
    if !IsEol(s[0]) {
      LineLengthBound(s[1..], i - 1);
    }
  }

  // ----- boundaries that can be read back -----

  /** The boundary is known: in front of parts it must neither start with a hyphen nor end with a space or two hyphens,
      and in front of the end it must not start with a hyphen. */
  predicate Findable(boundary: text, some: bool) {
    if some then SoundBoundary(boundary) else boundary != [] && NoEol(boundary) && boundary[0] != '-'
  }

  /** The boundary is learnt, without its leading hyphens: it must not be empty, and when there are parts it must not
      look like that of the end, and not lose spaces unless it loses everything. */
  predicate Learnable(boundary: text, some: bool) {
    var c := Stripped(boundary);
    && c != []
    && (some ==> !IsFinalLine(c) && (TrimSpaces(c) == c || TrimSpaces(c) == []))
  }

  lemma {:induction false} SameTextSelf(s: text)
    ensures SameText(s, s) <==> s != []
  {
  }

  lemma HeaderAndBodyRoundTrip(boundary: text, p: Part, rest: text)
    requires SoundPart(p)
    ensures HeaderAndBody(boundary, SectionText(PartFields(p)) + (BodyOf(p) + rest)) == Next(boundary, Expected(p), rest)
  {
    var body := BodyOf(p);
    PartFieldsSound(p);
    SectionRoundTrip(PartFields(p), body + rest);
    RecognisedParts(p, PartFields(p));
    AtoiDec(|body|);
    assert (body + rest)[..|body|] == body && (body + rest)[|body|..] == rest;
  }

  lemma PartSplit(boundary: text, p: Part, rest: text)
    ensures PartText(boundary, p) + rest == Delimiter(boundary) + (SectionText(PartFields(p)) + (BodyOf(p) + rest))
  {
    var section, body := SectionText(PartFields(p)), BodyOf(p);
    ConcatAssoc(Delimiter(boundary), section + body, rest);
    ConcatAssoc(section, body, rest);
  }

  /** A part that was written is read back, and the boundary is known then. */
  lemma GetRoundTrip(known: text, boundary: text, p: Part, rest: text)
    requires NoEol(boundary) && !IsFinalLine(Stripped(boundary)) && SoundPart(p)
    requires known == [] || known == TrimSpaces(Stripped(boundary))
    ensures GetPart(known, PartText(boundary, p) + rest) == Next(TrimSpaces(Stripped(boundary)), Expected(p), rest)
  {
    PartSplit(boundary, p, rest);
    DelimiterSeen(known, boundary, SectionText(PartFields(p)) + (BodyOf(p) + rest));
    HeaderAndBodyRoundTrip(TrimSpaces(Stripped(boundary)), p, rest);
    SameTextSelf(known);
  }

  lemma HyphensStripped(boundary: text)
    ensures Stripped(boundary + Hyphens) == if Stripped(boundary) == [] then [] else Stripped(boundary) + Hyphens
  {
    var s, n := boundary + Hyphens, SpanOf(boundary, '-');
    SpanOfAll(boundary);
    if n == |boundary| {
      SpanOfUnique(s, '-', |s|);
    } else {
      SpanOfUnique(s, '-', n);
      assert s[n..] == boundary[n..] + Hyphens;
    }
  }

  lemma FinalLine(line: text)
    ensures IsFinalLine(line + Hyphens) && BoundaryOn(line + Hyphens) == line
  {
    var s := line + Hyphens;
    TrimmedShorter(s);
    assert s[..|s| - 2] == line;
  }

  lemma ShorterDiffers(a: text, b: text)
    requires |a| != |b|
    ensures !SameText(a, b)
  {
  }

  /** The end is found exactly if the boundary is not only hyphens, and is the one that is known. */
  lemma FinalRead(known: text, boundary: text)
    requires NoEol(boundary) && (known != [] ==> known <= Stripped(boundary))
    ensures GetPart(known, FinalText(boundary)) ==
            var c := Stripped(boundary); if c != [] && (known == [] || known == c) then Final(c) else Failure
  {
    var c := Stripped(boundary);
    assert FinalText(boundary) + [] == FinalText(boundary);
    assert NoEol(boundary + Hyphens);
    DelimiterSeen(known, boundary + Hyphens, []);
    HyphensStripped(boundary);
    if c != [] {
      FinalLine(c);
      SameTextSelf(c);
      if known != [] && known != c {
        ShorterDiffers(known, c);
      }
    }
  }

  /** The end is found with the boundary that is known last. */
  predicate EndFound(c: text, last: text) {
    c != [] && (last == [] || last == c)
  }

  lemma ReadStep(known: text, s: text, boundary: text, part: ContentPart, rest: text)
    requires GetPart(known, s) == Next(boundary, part, rest)
    ensures ReadAll(known, s) == Continued([part], ReadAll(boundary, rest))
  {
  }

  lemma ExpectedFirst(parts: seq<Part>)
    requires parts != []
    ensures ExpectedParts(parts) == [Expected(parts[0])] + ExpectedParts(parts[1..])
  {
  }

  /** From a boundary that is accepted in front of parts, all parts are read, and then the end if it is found. */
  lemma {:induction false} ReadsParts(known: text, boundary: text, parts: seq<Part>)
    requires NoEol(boundary) && forall i :: 0 <= i < |parts| ==> SoundPart(parts[i])
    requires known == [] || known == TrimSpaces(Stripped(boundary))
    requires parts != [] ==> !IsFinalLine(Stripped(boundary))
    ensures var c := Stripped(boundary);
            ReadAll(known, ContentText(boundary, parts)) ==
            Reading(ExpectedParts(parts), EndFound(c, if parts == [] then known else TrimSpaces(c)))
    decreases |parts|
  {
    var c := Stripped(boundary);
    if parts == [] {
      TrimmedShorter(c);
      FinalRead(known, boundary);
    } else {
      var rest := ContentText(boundary, parts[1..]);
      GetRoundTrip(known, boundary, parts[0], rest);
      ReadStep(known, PartText(boundary, parts[0]) + rest, TrimSpaces(c), Expected(parts[0]), rest);
      ReadsParts(TrimSpaces(c), boundary, parts[1..]);
      ExpectedFirst(parts);
    }
  }

  /** With a boundary that is learnt, all parts are read back exactly if the boundary is learnable. */
  lemma LearnsExactly(boundary: text, parts: seq<Part>)
    requires NoEol(boundary) && forall i :: 0 <= i < |parts| ==> SoundPart(parts[i])
    ensures ReadAll([], ContentText(boundary, parts)) == Reading(ExpectedParts(parts), true)
            <==> Learnable(boundary, parts != [])
  {
    if parts != [] && IsFinalLine(Stripped(boundary)) {
      PartSplit(boundary, parts[0], ContentText(boundary, parts[1..]));
      DelimiterSeen([], boundary, SectionText(PartFields(parts[0])) + (BodyOf(parts[0]) + ContentText(boundary, parts[1..])));
      assert |ExpectedParts(parts)| > 0;
    } else {
      ReadsParts([], boundary, parts);
    }
  }

  /** A known boundary that is not sound is not found in front of a part. */
  lemma UnsoundFails(boundary: text, t: text)
    requires boundary != [] && !SoundBoundary(boundary)
    ensures GetPart(boundary, Delimiter(boundary) + t) == Failure
  {
    if NoEol(boundary) {
      DelimiterSeen(boundary, boundary, t);
      TrimmedShorter(Stripped(boundary));
      assert |BoundaryOn(Stripped(boundary))| < |boundary|;
      ShorterDiffers(boundary, BoundaryOn(Stripped(boundary)));
    } else {
      var i :| 0 <= i < |boundary| && IsEol(boundary[i]);
      DelimiterCut(boundary, boundary, t, i);
    }
  }

  lemma UnsoundEndFails(boundary: text)
    requires boundary != [] && !Findable(boundary, false)
    ensures GetPart(boundary, FinalText(boundary)) == Failure
  {
    assert FinalText(boundary) + [] == FinalText(boundary);
    if NoEol(boundary) {
      var c := Stripped(boundary);
      assert NoEol(boundary + Hyphens);
      DelimiterSeen(boundary, boundary + Hyphens, []);
      HyphensStripped(boundary);
      if c != [] {
        FinalLine(c);
      }
      ShorterDiffers(boundary, c);
    } else {
      var i :| 0 <= i < |boundary| && IsEol(boundary[i]);
      DelimiterCut(boundary, boundary + Hyphens, [], i);
    }
  }

  lemma SoundStripped(boundary: text)
    requires boundary != [] && boundary[0] != '-'
    ensures Stripped(boundary) == boundary
  {
  }

  /** With a known boundary, all parts are read back exactly if the boundary can be found. */
  lemma FindsExactly(boundary: text, parts: seq<Part>)
    requires boundary != [] && forall i :: 0 <= i < |parts| ==> SoundPart(parts[i])
    ensures ReadAll(boundary, ContentText(boundary, parts)) == Reading(ExpectedParts(parts), true)
            <==> Findable(boundary, parts != [])
  {
    if parts == [] {
      if Findable(boundary, false) {
        SoundStripped(boundary);
        FinalRead(boundary, boundary);
      } else {
        UnsoundEndFails(boundary);
      }
    } else if SoundBoundary(boundary) {
      SoundStripped(boundary);
      TrimmedShorter(boundary);
      ReadsParts(boundary, boundary, parts);
    } else {
      PartSplit(boundary, parts[0], ContentText(boundary, parts[1..]));
      UnsoundFails(boundary, SectionText(PartFields(parts[0])) + (BodyOf(parts[0]) + ContentText(boundary, parts[1..])));
    }
  }

  /** Equal, or the same letter in the other case. */
  predicate SameLetter(a: char, b: char) {
    || a == b
    || ('a' <= a <= 'z' && b as int == a as int - 32)
    || ('A' <= a <= 'Z' && b as int == a as int + 32)
  }

  predicate SameLetters(a: text, b: text) {
    |a| == |b| && forall i :: 0 <= i < |a| ==> SameLetter(a[i], b[i])
  }

  lemma SameForAll(a: text, b: text, c: text)
    requires SameLetters(a, b)
    ensures SameText(a, c) == SameText(b, c)
  {
    if |a| == |c| && a != [] {
      forall i | 0 <= i < |a|
        ensures Lower(a[i]) == Lower(b[i])
      {
        assert SameLetter(a[i], b[i]);
      }
    }
  }

  /** The same is found, whichever of the two is known. */
  predicate SameGot(g: Got, h: Got) {
    match g
    case Failure => h == Failure
    case Final(_) => h.Final?
    case Next(_, part, rest) => h.Next? && h.part == part && h.rest == rest
  }

  lemma GetSame(a: text, b: text, s: text)
    requires SameLetters(a, b) && a != []
    ensures SameGot(GetPart(a, s), GetPart(b, s))
    ensures GetPart(a, s).Next? ==> GetPart(a, s).boundary == a && GetPart(b, s).boundary == b
  {
    var t := AfterHyphens(s);
    if t != [] && HasLine(t) {
      SameForAll(a, b, BoundaryOn(LineOf(t)));
    }
  }

  /** The boundary that is looked for may be written in any case. */
  lemma {:induction false} CaseDoesNotMatter(a: text, b: text, s: text)
    requires SameLetters(a, b) && a != []
    ensures ReadAll(a, s) == ReadAll(b, s)
    decreases |s|
  {
    GetSame(a, b, s);
    var g := GetPart(a, s);
    if g.Next? {
      CaseDoesNotMatter(a, b, g.rest);
      ReadStep(a, s, a, g.part, g.rest);
      ReadStep(b, s, b, g.part, g.rest);
    }
  }

  /** A name is recognised if it begins one of the known names, and the last such field counts. */
  lemma {:induction false} RecognisesLast(fields: seq<HeaderField>, f: HeaderField, part: ContentPart)
    ensures var r := Recognised(fields, part);
            Recognised(fields + [f], part) ==
            if f.name <= "Content-Length" then r.(length := Some(f.value))
            else if f.name <= "Content-Type" then r.(kind := Some(f.value))
            else if f.name <= "Content-Id" then r.(id := Some(f.value))
            else r
    decreases |fields|
  {
    if fields == [] {
      assert fields + [f] == [f] && [f][1..] == [];
    } else {
      assert (fields + [f])[0] == fields[0] && (fields + [f])[1..] == fields[1..] + [f];
      RecognisesLast(fields[1..], f, Noted(part, fields[0]));
    }
  }

  /** What is written for one empty part, character by character. */
  lemma WrittenExample()
    ensures ContentText("b", [Part(None, None, None)]) == "\r\n--b\r\n\r\n\r\n--b--\r\n"
  {
    var p := Part(None, None, None);
    assert PartFields(p) == [];
    assert PartText("b", p) == "\r\n--b\r\n\r\n";
    assert [p][1..] == [];
    assert FinalText("b") == "\r\n--b--\r\n";
  }

  function ExpectedParts(parts: seq<Part>): (expected: seq<ContentPart>)
    ensures |expected| == |parts| && forall i :: 0 <= i < |parts| ==> expected[i] == Expected(parts[i])
  {
    seq(|parts|, i requires 0 <= i < |parts| => Expected(parts[i]))
  }

  /** Writes parts and the final delimiter. */
  method WriteParts(size: nat, boundary: text, parts: seq<Part>) returns (ok: bool, content: text)
    ensures ok <==> |ContentText(boundary, parts)| < ContentSize(size)
    ensures ok ==> content == ContentText(boundary, parts)
  {
    content := [];
    var w := new MultipartWriter(size, Some(boundary));
    ghost var all := ContentText(boundary, parts);
    assert [] + all == all;
    for i := 0 to |parts|
      invariant w.Valid() && w.boundary == boundary && fresh(w.writer) && fresh(w.writer.buf)
      invariant w.writer.buf.Length == ContentSize(size)
      invariant all == w.writer.Written() + ContentText(boundary, parts[i..])
    {
      assert parts[i..][0] == parts[i] && parts[i..][1..] == parts[i + 1..];
      ConcatAssoc(w.writer.Written(), PartText(boundary, parts[i]), ContentText(boundary, parts[i + 1..]));
      ok := w.Add(parts[i]);
      if !ok {
        return;
      }
    }
    ok := w.Finalize();
    if ok {
      content := w.writer.buf[..w.writer.pos];
    }
  }

  /** Whatever parts are written, reading returns exactly those parts in order and then the final marker, even if the
      bodies contain delimiters, exactly if the boundary can be found or learnt. */
  method RoundTrip(size: nat, boundary: text, parts: seq<Part>, learn: bool)
    returns (ok: bool, got: seq<ContentPart>, isFinal: bool)
    requires forall i :: 0 <= i < |parts| ==> SoundPart(parts[i])
    ensures ok <==> |ContentText(boundary, parts)| < ContentSize(size)
    ensures ok && !learn && boundary != [] ==>
              (got == ExpectedParts(parts) && isFinal <==> Findable(boundary, parts != []))
    ensures ok && (learn || boundary == []) && NoEol(boundary) ==>
              (got == ExpectedParts(parts) && isFinal <==> Learnable(boundary, parts != []))
  {
    var content;
    got, isFinal := [], false;
    ok, content := WriteParts(size, boundary, parts);
    if ok {
      got, isFinal := ReadParts(content, if learn then [] else boundary);
      if !learn && boundary != [] {
        FindsExactly(boundary, parts);
      } else if NoEol(boundary) {
        LearnsExactly(boundary, parts);
      }
    }
  }

  /** Reads parts until the final delimiter or a failure. */
  method ReadParts(content: text, known: text) returns (got: seq<ContentPart>, isFinal: bool)
    ensures Reading(got, isFinal) == ReadAll(known, content)
  {
    got, isFinal := [], false;
    var r := new MultipartReader(content, known);
    ghost var goal := ReadAll(known, content);
    var ok := true;
    while ok
      invariant fresh(r) && fresh(r.reader) && (ok ==> r.Valid())
      invariant ok ==> !isFinal && goal == Continued(got, ReadAll(r.boundary, r.reader.Rest()))
      invariant !ok ==> goal == Reading(got, isFinal)
      decreases ok, if ok then |r.reader.Rest()| else 0
    {
      var part;
      ghost var rest := ReadAll(r.boundary, r.reader.Rest());
      ok, part, isFinal := r.Get();
      if ok && !isFinal {
        ContinuedTwice(got, part, ReadAll(r.boundary, r.reader.Rest()));
        got := got + [part];
      } else {
        ContinuedEnds(got, rest);
        isFinal := ok && isFinal;
        ok := false;
      }
    }
  }

  function Continued(got: seq<ContentPart>, r: Reading): Reading {
    Reading(got + r.parts, r.isFinal)
  }

  lemma ContinuedTwice(got: seq<ContentPart>, part: ContentPart, r: Reading)
    ensures Continued(got, Continued([part], r)) == Continued(got + [part], r)
  {
    ConcatAssoc(got, [part], r.parts);
  }

  lemma ContinuedEnds(got: seq<ContentPart>, r: Reading)
    ensures r.parts == [] ==> Continued(got, r) == Reading(got, r.isFinal)
  {
    assert got + [] == got;
  }
}
