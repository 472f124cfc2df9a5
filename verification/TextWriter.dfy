/** Bounded text output (libs/apr-toolkit/include/apt_text_stream.h, libs/apr-toolkit/src/apt_text_stream.c) and
    the header section generator (libs/apr-toolkit/src/apt_text_message.c). */
module TextWriters {
  import opened Common
  import opened Text

  const Separator: text := [':', SP]

  /** A header field on its line. */
  function LineText(f: HeaderField): text {
    f.name + [':'] + ([SP] + f.value)
  }

  /** One header field as written. */
  function FieldText(f: HeaderField): text {
    LineText(f) + CrLf
  }

  /** A header section as written: the fields and the empty line. */
  function SectionText(fields: seq<HeaderField>): text {
    if fields == [] then CrLf else FieldText(fields[0]) + SectionText(fields[1..])
  }

  /** What inserting a field leaves in a buffer of `size` characters that holds w: nothing more, the field
      without its end of line, or all of it. */
  function InsertField(size: nat, w: text, f: HeaderField): text {
    if |w| + |f.name| + |f.value| + 2 >= size then w
    else
      var named := w + LineText(f);
      if |named| + 2 < size then named + CrLf else named
  }

  /** The generator goes on after a field that did not fit. */
  function InsertFields(size: nat, w: text, fields: seq<HeaderField>): text
    decreases |fields|
  {
    if fields == [] then w else InsertFields(size, InsertField(size, w, fields[0]), fields[1..])
  }

  lemma {:induction false} InsertFieldsFit(size: nat, w: text, fields: seq<HeaderField>)
    requires |w + SectionText(fields)| < size
    ensures InsertFields(size, w, fields) + CrLf == w + SectionText(fields)
    decreases |fields|
  {
    if fields != [] {
      var f := fields[0];
      assert InsertField(size, w, f) == w + FieldText(f);
      ConcatAssoc(w, FieldText(f), SectionText(fields[1..]));
      InsertFieldsFit(size, w + FieldText(f), fields[1..]);
    }
  }

  /** Fields never fill the buffer to its end. */
  lemma {:induction false} InsertFieldsRoom(size: nat, w: text, fields: seq<HeaderField>)
    requires |w| < size
    ensures |InsertFields(size, w, fields)| < size
    decreases |fields|
  {
    if fields != [] {
      InsertFieldsRoom(size, InsertField(size, w, fields[0]), fields[1..]);
    }
  }

  class TextWriter {
    const buf: array<char>
    var pos: nat

    constructor (size: nat)
      ensures Valid() && fresh(buf) && buf.Length == size && Written() == []
    {
      buf := new char[size](_ => '\0');
      pos := 0;
    }

    ghost predicate Valid()
      reads this
    {
      pos <= buf.Length
    }

    ghost function Written(): text
      requires Valid()
      reads this, buf
    {
      buf[..pos]
    }

    method Put(s: text)
      requires Valid() && pos + |s| <= buf.Length
      modifies this`pos, buf
      ensures Valid() && Written() == old(Written()) + s
    {
      forall i | 0 <= i < |s| {
        buf[pos + i] := s[i];
      }
      pos := pos + |s|;
      assert buf[..pos] == old(buf[..pos]) + s;
    }

    /** Inserts a string if it leaves at least one character free. */
    method StringInsert(s: text) returns (ok: bool)
      requires Valid()
      modifies this`pos, buf
      ensures Valid() && ok == (|old(Written())| + |s| < buf.Length)
      ensures Written() == if ok then old(Written()) + s else old(Written())
    {
      ok := pos + |s| < buf.Length;
      if ok {
        Put(s);
      }
    }

    method EolInsert() returns (ok: bool)
      requires Valid()
      modifies this`pos, buf
      ensures Valid() && ok == (|old(Written())| + 2 < buf.Length)
      ensures Written() == if ok then old(Written()) + CrLf else old(Written())
    {
      ok := StringInsert(CrLf);
    }

    method NameValueInsert(name: text, value: text) returns (ok: bool)
      requires Valid()
      modifies this`pos, buf
      ensures Valid() && Written() == InsertField(buf.Length, old(Written()), HeaderField(name, value))
      ensures ok == (|old(Written())| + |FieldText(HeaderField(name, value))| < buf.Length)
    {
      if pos + |name| + |value| + 2 >= buf.Length {
        return false;
      }
      Put(LineText(HeaderField(name, value)));
      ok := EolInsert();
    }

    /** Inserts "name: ". */
    method HeaderNameInsert(name: text) returns (ok: bool)
      requires Valid()
      modifies this`pos, buf
      ensures Valid() && ok == (|old(Written())| + |name| + 2 < buf.Length)
      ensures Written() == if ok then old(Written()) + (name + Separator) else old(Written())
    {
      ok := StringInsert(name + Separator);
    }

    /** The failures of single fields are ignored, so success alone does not mean that the section is complete:
        it is written completely exactly when it fits. */
    method SectionGenerate(fields: seq<HeaderField>) returns (ok: bool)
      requires Valid()
      modifies this`pos, buf
      ensures Valid()
      ensures ok == (|InsertFields(buf.Length, old(Written()), fields)| + 2 < buf.Length)
      ensures Written() == InsertFields(buf.Length, old(Written()), fields) + if ok then CrLf else []
      ensures ok && Written() == old(Written()) + SectionText(fields)
              <==> |old(Written()) + SectionText(fields)| < buf.Length
    {
      ghost var before := Written();
      for i := 0 to |fields|
        invariant Valid()
        invariant InsertFields(buf.Length, before, fields) == InsertFields(buf.Length, Written(), fields[i..])
      {
        var _ := NameValueInsert(fields[i].name, fields[i].value);
        assert fields[i..][0] == fields[i] && fields[i..][1..] == fields[i + 1..];
      }
      if |before + SectionText(fields)| < buf.Length {
        InsertFieldsFit(buf.Length, before, fields);
      }
      ok := EolInsert();
    }
  }

  /** A field may be lost although the section is reported as written. */
  lemma SectionCanLoseFields()
    ensures var fields := [HeaderField(['a', 'b', 'c', 'd', 'e'], [])];
            InsertFields(7, [], fields) == [] && |InsertFields(7, [], fields)| + 2 < 7
  {
    var f := HeaderField(['a', 'b', 'c', 'd', 'e'], []);
    assert InsertField(7, [], f) == [];
  }
}
