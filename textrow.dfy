/** One row in the text format of PostgreSQL's `COPY` command: fields
    separated by tabs, `\N` for null, a backslash before every backslash,
    newline, carriage return and tab inside a value, and a final newline.
    Beside the encoder stands a decoder that reads such a line back the way
    `COPY … FROM` does for these escapes, and the proof that the two agree. */
module TextRow {
  import opened Strings
  import opened Document
  import opened Schema
  import opened ValueCoercer

  /** The four characters `escapeText` puts a backslash in front of. */
  predicate IsSpecial(c: char)
  {
    c == '\\' || c == '\n' || c == '\r' || c == '\t'
  }

  function CountSpecial(s: string): nat
  {
    if s == [] then 0 else (if IsSpecial(s[0]) then 1 else 0) + CountSpecial(s[1..])
  }

  /** `escapeText`: one backslash is inserted before each special character. */
  function Escape(s: string): (r: string)
    ensures |r| == |s| + CountSpecial(s)
  {
    if s == [] then []
    else (if IsSpecial(s[0]) then ['\\', s[0]] else [s[0]]) + Escape(s[1..])
  }

  /** Drops every escaping backslash: a backslash and the character after it
      become that character. */
  function Unescape(r: string): string
  {
    if r == [] then []
    else if r[0] == '\\' && |r| >= 2 then [r[1]] + Unescape(r[2..])
    else [r[0]] + Unescape(r[1..])
  }

  /** Dropping each escaping backslash gives the input back. */
  lemma {:induction false} UnescapeEscape(s: string)
    ensures Unescape(Escape(s)) == s
  {
    if s != [] {
      UnescapeEscape(s[1..]);
      var rest := Escape(s[1..]);
      if IsSpecial(s[0]) {
        assert Escape(s) == ['\\', s[0]] + rest;
        assert (['\\', s[0]] + rest)[2..] == rest;
      } else {
        assert Escape(s) == [s[0]] + rest;
        assert ([s[0]] + rest)[1..] == rest;
      }
      assert s == [s[0]] + s[1..];
    }
  }

  /** A string is left unchanged exactly when none of the four characters
      occurs in it. */
  lemma {:induction false} EscapeFixpoint(s: string)
    ensures Escape(s) == s <==> forall i :: 0 <= i < |s| ==> !IsSpecial(s[i])
  {
    if s != [] {
      EscapeFixpoint(s[1..]);
      if !IsSpecial(s[0]) {
        assert forall i :: 1 <= i < |s| ==> s[i] == s[1..][i - 1];
        assert s == [s[0]] + s[1..];
      }
    }
  }

  /** Escaping twice is not escaping once: a lone backslash shows it. */
  lemma EscapeNotIdempotent()
    ensures Escape(Escape("\\")) != Escape("\\")
  {
    assert Escape("\\") == "\\\\";
    assert |Escape("\\\\")| == 4;
  }

  /** Escaping adds only backslashes, so any other character absent from
      the input is absent from the output. */
  lemma {:induction false} EscapeExcludes(s: string, c: char)
    requires c !in s && c != '\\'
    ensures c !in Escape(s)
  {
    if s != [] {
      EscapeExcludes(s[1..], c);
    }
  }

  /** A raw field the decoder can take back in one piece: no unescaped tab,
      newline or carriage return, and no backslash left without a successor. */
  predicate FieldSafe(r: string)
    decreases |r|
  {
    if r == [] then true
    else if r[0] == '\\' then |r| >= 2 && FieldSafe(r[2..])
    else r[0] != '\t' && r[0] != '\n' && r[0] != '\r' && FieldSafe(r[1..])
  }

  lemma {:induction false} EscapeFieldSafe(s: string)
    ensures FieldSafe(Escape(s))
  {
    if s != [] {
      EscapeFieldSafe(s[1..]);
      var rest := Escape(s[1..]);
      if IsSpecial(s[0]) {
        assert (['\\', s[0]] + rest)[2..] == rest;
      } else {
        assert ([s[0]] + rest)[1..] == rest;
      }
    }
  }

  /** The null marker `\N`. */
  const NullMarker: string := "\\N"

  /** No escaped string reads as the null marker, since an escaping backslash
      is only ever followed by a special character. */
  lemma EscapeIsNotNull(s: string)
    ensures Escape(s) != NullMarker
  {
    if s != [] {
      if IsSpecial(s[0]) {
        assert Escape(s)[1] == s[0] != 'N';
      } else {
        assert Escape(s)[0] == s[0] != '\\';
      }
    }
  }

  /** Text that needs no escaping: how numbers and booleans are written. */
  predicate PlainText(t: string)
  {
    forall i :: 0 <= i < |t| ==> !IsSpecial(t[i])
  }

  lemma {:induction false} PlainTextRaw(t: string)
    requires PlainText(t)
    ensures FieldSafe(t) && Unescape(t) == t && t != NullMarker
  {
    if t != [] {
      PlainTextRaw(t[1..]);
      assert t == [t[0]] + t[1..];
    }
  }

  /** The text of one field, as `toTextFormat` pushes it. */
  function FieldText(numText: real -> string, c: Cell): string
  {
    match c
    case CNull => NullMarker
    case CText(s) => Escape(s)
    case CNum(x) => numText(x)
    case CBool(b) => if b then "true" else "false"
  }

  /** A whole line for a row of values. */
  function TextLine(numText: real -> string, cells: seq<Cell>): string
  {
    Join(seq(|cells|, i requires 0 <= i < |cells| => FieldText(numText, cells[i])), "\t") + "\n"
  }

  /** `toTextFormat`: the values of `transformValues` are turned into fields
      one by one, joined by tabs and ended with a newline. */
  method ToTextFormat(lib: Library, spec: Spec, doc: Value) returns (line: string)
    ensures line == TextLine(lib.numText, Row(lib, spec, doc))
  {
    var values := TransformValues(lib, spec, doc);
    var parts: seq<string> := [];
    for i := 0 to |values|
      invariant parts == seq(i, j requires 0 <= j < i => FieldText(lib.numText, values[j]))
    {
      var value := values[i];
      var part: string;
      if value.CText? {
        part := Escape(value.s);
      } else if value.CNull? {
        part := NullMarker;
      } else if value.CNum? {
        part := lib.numText(value.x);
      } else {
        part := if value.b then "true" else "false";
      }
      parts := parts + [part];
    }
    line := Join(parts, "\t") + "\n";
  }

  // Reading a line back.

  /** Puts `a` in front of the first field of a split, if there is one. */
  function Prepend(a: string, r: Option<seq<string>>): (r': Option<seq<string>>)
    requires r.Some? ==> |r.value| >= 1
    ensures r'.Some? <==> r.Some?
    ensures r'.Some? ==>
      |r'.value| == |r.value| && r'.value[0] == a + r.value[0] && r'.value[1..] == r.value[1..]
  {
    match r
    case None => None
    case Some(fs) => Some([a + fs[0]] + fs[1..])
  }

  /** Cuts a line body into raw fields at the tabs that no backslash escapes.
      An unescaped newline or carriage return, or a backslash at the very end,
      means the text is not a single well-formed line. */
  function SplitFields(s: string): (r: Option<seq<string>>)
    ensures r.Some? ==> |r.value| >= 1
    decreases |s|
  {
    if s == [] then Some([""])
    else if s[0] == '\\' then
      if |s| < 2 then None else Prepend(s[..2], SplitFields(s[2..]))
    else if s[0] == '\t' then
      match SplitFields(s[1..])
      case None => None
      case Some(fs) => Some([""] + fs)
    else if s[0] == '\n' || s[0] == '\r' then None
    else Prepend(s[..1], SplitFields(s[1..]))
  }

  /** A raw field: `\N` is null, anything else is text with its escaping
      backslashes dropped. */
  function DecodeField(raw: string): Option<string>
  {
    if raw == NullMarker then None else Some(Unescape(raw))
  }

  /** Reads one line of `COPY` text back into its fields. */
  function DecodeLine(line: string): Option<seq<Option<string>>>
  {
    if line == [] || line[|line| - 1] != '\n' then None
    else match SplitFields(line[..|line| - 1])
      case None => None
      case Some(raws) => Some(seq(|raws|, i requires 0 <= i < |raws| => DecodeField(raws[i])))
  }

  /** What a value reads back as: null, or the text that was written for it. */
  function Expected(numText: real -> string, c: Cell): Option<string>
  {
    match c
    case CNull => None
    case CText(s) => Some(s)
    case CNum(x) => Some(numText(x))
    case CBool(b) => Some(if b then "true" else "false")
  }

  lemma PrependPrepend(a: string, b: string, r: Option<seq<string>>)
    requires r.Some? ==> |r.value| >= 1
    ensures Prepend(a, Prepend(b, r)) == Prepend(a + b, r)
  {
    if r.Some? {
      assert a + (b + r.value[0]) == a + b + r.value[0];
    }
  }

  /** A field-safe prefix stays in the first field. */
  lemma {:induction false} SplitFieldsPrefix(f: string, rest: string)
    requires FieldSafe(f)
    ensures SplitFields(f + rest) == Prepend(f, SplitFields(rest))
    decreases |f|
  {
    if f == [] {
      assert f + rest == rest;
      if SplitFields(rest).Some? {
        var fs := SplitFields(rest).value;
        assert f + fs[0] == fs[0];
        assert [f + fs[0]] + fs[1..] == fs;
      }
    } else {
      var k := if f[0] == '\\' then 2 else 1;
      SplitFieldsPrefix(f[k..], rest);
      var s := f + rest;
      assert s[k..] == f[k..] + rest;
      assert s[..k] == f[..k];
      assert SplitFields(s) == Prepend(f[..k], SplitFields(s[k..]));
      PrependPrepend(f[..k], f[k..], SplitFields(rest));
      assert f[..k] + f[k..] == f;
    }
  }

  /** Field-safe fields joined by tabs split back into exactly those fields. */
  lemma {:induction false} SplitJoin(fields: seq<string>)
    requires |fields| >= 1
    requires forall i :: 0 <= i < |fields| ==> FieldSafe(fields[i])
    ensures SplitFields(Join(fields, "\t")) == Some(fields)
  {
    if |fields| == 1 {
      SplitFieldsPrefix(fields[0], "");
      assert SplitFields("") == Some([""]);
      assert fields[0] + "" == fields[0];
      var p := Prepend(fields[0], Some([""]));
      assert p.Some? && |p.value| == 1 && p.value[0] == fields[0];
      assert p.value == fields;
    } else {
      var tail := Join(fields[1..], "\t");
      SplitJoin(fields[1..]);
      assert ("\t" + tail)[1..] == tail;
      var fs := [""] + fields[1..];
      assert SplitFields("\t" + tail) == Some(fs);
      assert fs[0] == "" && fs[1..] == fields[1..];
      SplitFieldsPrefix(fields[0], "\t" + tail);
      assert fields[0] + "\t" + tail == fields[0] + ("\t" + tail);
      assert Join(fields, "\t") == fields[0] + "\t" + tail;
      assert fields[0] + "" == fields[0];
      assert Prepend(fields[0], Some(fs)) == Some([fields[0] + ""] + fields[1..]);
      assert [fields[0]] + fields[1..] == fields;
    }
  }

  lemma FieldTextDecodes(numText: real -> string, c: Cell)
    requires forall x :: PlainText(numText(x))
    ensures FieldSafe(FieldText(numText, c))
    ensures DecodeField(FieldText(numText, c)) == Expected(numText, c)
  {
    match c
    case CNull =>
      assert FieldSafe(NullMarker[2..]);
    case CText(s) =>
      EscapeFieldSafe(s);
      EscapeIsNotNull(s);
      UnescapeEscape(s);
    case CNum(x) =>
      PlainTextRaw(numText(x));
    case CBool(b) =>
      PlainTextRaw(if b then "true" else "false");
  }

  /** Round trip: splitting a line on its unescaped tabs, reading `\N` as null
      and dropping the escaping backslashes gives back one field per value,
      each the value's text, as long as numbers are written without special
      characters. In particular a line has exactly one unescaped tab fewer
      than it has values, and ends in its only unescaped newline. */
  lemma TextLineRoundTrip(numText: real -> string, cells: seq<Cell>)
    requires |cells| >= 1
    requires forall x :: PlainText(numText(x))
    ensures DecodeLine(TextLine(numText, cells))
      == Some(seq(|cells|, i requires 0 <= i < |cells| => Expected(numText, cells[i])))
  {
    var fields := seq(|cells|, i requires 0 <= i < |cells| => FieldText(numText, cells[i]));
    forall i | 0 <= i < |fields|
      ensures FieldSafe(fields[i]) && DecodeField(fields[i]) == Expected(numText, cells[i])
    {
      FieldTextDecodes(numText, cells[i]);
    }
    SplitJoin(fields);
    var line := TextLine(numText, cells);
    assert line[..|line| - 1] == Join(fields, "\t");
    assert line != [] && line[|line| - 1] == '\n';
    assert SplitFields(line[..|line| - 1]) == Some(fields);
    var decoded := seq(|fields|, i requires 0 <= i < |fields| => DecodeField(fields[i]));
    var expected := seq(|cells|, i requires 0 <= i < |cells| => Expected(numText, cells[i]));
    assert DecodeLine(line) == Some(decoded);
    assert forall i :: 0 <= i < |cells| ==> decoded[i] == expected[i];
    assert decoded == expected;
  }

  /** The text line for a whole document reads back as its coerced row. */
  lemma DocumentLineRoundTrip(lib: Library, spec: Spec, doc: Value)
    requires Width(spec) >= 1
    requires forall x :: PlainText(lib.numText(x))
    ensures var row := Row(lib, spec, doc);
      DecodeLine(TextLine(lib.numText, row))
        == Some(seq(|row|, i requires 0 <= i < |row| => Expected(lib.numText, row[i])))
  {
    TextLineRoundTrip(lib.numText, Row(lib, spec, doc));
  }

  /** The whole text line of a canonical document holds no NUL: strings were
      sanitised, and the JSON and number texts hold none. */
  lemma LineNoNul(lib: Library, spec: Spec, doc: Value)
    requires Canonical(doc)
    requires forall j :: NUL !in lib.stringify(j)
    requires forall x :: NUL !in lib.numText(x)
    ensures NUL !in TextLine(lib.numText, Row(lib, spec, doc))
  {
    var row := Row(lib, spec, doc);
    RowNoNul(lib, spec, doc);
    var fields := seq(|row|, i requires 0 <= i < |row| => FieldText(lib.numText, row[i]));
    forall i | 0 <= i < |row|
      ensures NUL !in fields[i]
    {
      match row[i]
      case CText(s) => EscapeExcludes(s, NUL);
      case CNull => assert NUL !in NullMarker;
      case CBool(b) =>
      case CNum(x) =>
    }
    JoinExcludes(fields, "\t", NUL);
  }
}
