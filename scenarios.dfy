/** Worked rows: a two-column table keyed by `_id` with an integer column read
    from a nested path, and one string column holding a NUL and a tab. */
module Scenarios {
  import opened Strings
  import opened Document
  import opened Schema
  import opened ValueCoercer
  import opened TextRow

  /** The two source paths of the example table. */
  const IdPath: string := "_id"
  const AgePath: string := "profile.age"

  /** The source path of the one-column `notes` table. */
  const NotePath: string := "note"

  /** `_id` names the top-level member. */
  lemma IdPathResolves(id: Value, profile: Value)
    ensures Get(Obj([Member("_id", id), Member("profile", profile)]), IdPath) == Some(id)
  {
    SplitNoSep(IdPath, '.');
    var doc := Obj([Member("_id", id), Member("profile", profile)]);
    assert Field(doc.members, IdPath) == Some(id);
    assert GetIn(doc, ["_id"]) == GetIn(id, []);
  }

  lemma AgePathSplit()
    ensures Split(AgePath, '.') == ["profile", "age"]
  {
    SplitNoSep("age", '.');
    assert AgePath == "profile" + ['.'] + "age";
    SplitAtFirst("profile", "age", '.');
  }

  lemma ProfileField(id: Value, profile: Value)
    ensures Field([Member("_id", id), Member("profile", profile)], "profile") == Some(profile)
  {
  }

  lemma AgeInProfile(id: Value, ages: seq<Member>)
    ensures GetIn(Obj([Member("_id", id), Member("profile", Obj(ages))]), ["profile", "age"])
      == GetIn(Obj(ages), ["age"])
  {
    ProfileField(id, Obj(ages));
  }

  lemma AgeField(ages: seq<Member>)
    ensures GetIn(Obj(ages), ["age"]) == Field(ages, "age")
  {
  }

  /** `profile.age` names `age` inside `profile`. */
  lemma AgePathResolves(id: Value, ages: seq<Member>)
    ensures Get(Obj([Member("_id", id), Member("profile", Obj(ages))]), AgePath)
      == Field(ages, "age")
  {
    AgePathSplit();
    AgeInProfile(id, ages);
    AgeField(ages);
  }

  /** An identifier's hex text is written as it is. */
  lemma HexField(hex: string)
    requires IsHexId(hex)
    ensures Escape(hex) == hex
  {
    EscapeFixpoint(hex);
  }

  function PeopleSpec(): Spec
  {
    Spec([Column("id", IdPath, "text"), Column("age", AgePath, "integer")], None, ["id"])
  }

  /** The row has the `_id` value, then the `profile.age` value. */
  lemma PeopleRow(lib: Library, doc: Value)
    ensures Row(lib, PeopleSpec(), doc)
      == [Coerce(lib, PeopleSpec().columns[0], Get(doc, IdPath)),
          Coerce(lib, PeopleSpec().columns[1], Get(doc, AgePath))]
  {
  }

  /** A two-value line is the two fields with a tab between. */
  lemma TwoFieldLine(numText: real -> string, a: Cell, b: Cell)
    ensures TextLine(numText, [a, b]) == FieldText(numText, a) + "\t" + FieldText(numText, b) + "\n"
  {
    var fields := seq(2, i requires 0 <= i < 2 => FieldText(numText, [a, b][i]));
    assert fields == [FieldText(numText, a), FieldText(numText, b)];
    assert fields[1..] == [FieldText(numText, b)];
    assert Join(fields, "\t") == fields[0] + "\t" + Join(fields[1..], "\t");
  }

  function PersonWithAge(hex: string): Value
  {
    Obj([Member("_id", ObjectId(hex)), Member("profile", Obj([Member("age", Num(30.7))]))])
  }

  function PersonWithoutAge(hex: string): Value
  {
    Obj([Member("_id", ObjectId(hex)), Member("profile", Obj([]))])
  }

  /** The `id` column of either document holds the hex text. */
  lemma IdCell(lib: Library, hex: string, profile: Value)
    ensures Coerce(lib, PeopleSpec().columns[0], Get(Obj([Member("_id", ObjectId(hex)), Member("profile", profile)]), IdPath))
      == CText(hex)
  {
    IdPathResolves(ObjectId(hex), profile);
  }

  /** 30.7 in the `integer` column `age` becomes 30. */
  lemma AgeCell(lib: Library, hex: string)
    ensures Coerce(lib, PeopleSpec().columns[1], Get(PersonWithAge(hex), AgePath)) == CNum(30.0)
  {
    AgePathResolves(ObjectId(hex), [Member("age", Num(30.7))]);
    assert Field([Member("age", Num(30.7))], "age") == Some(Num(30.7));
    AgeTruncated(lib);
  }

  lemma AgeTruncated(lib: Library)
    ensures Coerce(lib, PeopleSpec().columns[1], Some(Num(30.7))) == CNum(30.0)
  {
    assert IsIntegerType(PeopleSpec().columns[1].sqlType);
    assert Trunc(30.7) == 30;
  }

  /** A missing `profile.age` becomes null. */
  lemma MissingAgeCell(lib: Library, hex: string)
    ensures Coerce(lib, PeopleSpec().columns[1], Get(PersonWithoutAge(hex), AgePath)) == CNull
  {
    AgePathResolves(ObjectId(hex), []);
  }

  /** An identifier (say `507f1f77bcf86cd799439011`) becomes its hex text
      and 30.7 in an `integer` column becomes 30. */
  lemma IdentifierAndTruncatedAgeRow(lib: Library, hex: string)
    ensures Row(lib, PeopleSpec(), PersonWithAge(hex)) == [CText(hex), CNum(30.0)]
  {
    PeopleRow(lib, PersonWithAge(hex));
    IdCell(lib, hex, Obj([Member("age", Num(30.7))]));
    AgeCell(lib, hex);
  }

  /** A document without `profile.age` gets null for that column. */
  lemma MissingAgeRow(lib: Library, hex: string)
    ensures Row(lib, PeopleSpec(), PersonWithoutAge(hex)) == [CText(hex), CNull]
  {
    PeopleRow(lib, PersonWithoutAge(hex));
    IdCell(lib, hex, Obj([]));
    MissingAgeCell(lib, hex);
  }

  /** A line whose first value is an identifier's hex text. */
  lemma IdentifierLine(numText: real -> string, hex: string, c: Cell)
    requires IsHexId(hex)
    ensures TextLine(numText, [CText(hex), c]) == hex + "\t" + FieldText(numText, c) + "\n"
  {
    HexField(hex);
    TwoFieldLine(numText, CText(hex), c);
  }

  /** The text line of the first document is `<hex>\t30\n`. */
  lemma IdentifierAndTruncatedAgeLine(lib: Library, hex: string)
    requires IsHexId(hex) && lib.numText(30.0) == "30"
    ensures TextLine(lib.numText, Row(lib, PeopleSpec(), PersonWithAge(hex))) == hex + "\t30\n"
  {
    IdentifierAndTruncatedAgeRow(lib, hex);
    IdentifierLine(lib.numText, hex, CNum(30.0));
  }

  /** The text line of the second document is `<hex>\t\\N\n`. */
  lemma MissingAgeLine(lib: Library, hex: string)
    requires IsHexId(hex)
    ensures TextLine(lib.numText, Row(lib, PeopleSpec(), PersonWithoutAge(hex))) == hex + "\t\\N\n"
  {
    MissingAgeRow(lib, hex);
    IdentifierLine(lib.numText, hex, CNull);
  }

  /** A table with one text column `note` read from `note`. */
  function NoteSpec(): Spec
  {
    Spec([Column("note", NotePath, "text")], None, ["note"])
  }

  function NoteDoc(s: string): Value
  {
    Obj([Member("note", Str(s))])
  }

  /** The row of a note is its sanitised text. */
  lemma NoteRow(lib: Library, s: string)
    ensures Row(lib, NoteSpec(), NoteDoc(s)) == [CText(Sanitize(s))]
  {
    SplitNoSep(NotePath, '.');
    assert Field(NoteDoc(s).members, NotePath) == Some(Str(s));
    assert GetIn(NoteDoc(s), [NotePath]) == GetIn(Str(s), []);
    RowColumn(lib, NoteSpec(), NoteDoc(s), 0);
  }

  /** A one-value line is the field and the newline. */
  lemma OneFieldLine(numText: real -> string, c: Cell)
    ensures TextLine(numText, [c]) == FieldText(numText, c) + "\n"
  {
    var fields := seq(1, i requires 0 <= i < 1 => FieldText(numText, [c][i]));
    assert fields == [FieldText(numText, c)];
  }

  /** The NUL becomes a space first, then the tab gets its backslash. */
  lemma SanitizeThenEscape()
    ensures Escape(Sanitize("a\0b\tc")) == "a b\\\tc"
  {
    assert Sanitize("a\0b\tc") == "a b\tc";
    assert Escape("c") == "c";
    assert Escape("\tc") == "\\\tc";
    assert Escape("b\tc") == "b\\\tc";
    assert Escape(" b\tc") == " b\\\tc";
  }

  /** A note holding a NUL and a tab is written with a space for the NUL and
      an escaped tab: `a b\<TAB>c`. */
  lemma NulAndTab(lib: Library)
    ensures TextLine(lib.numText, Row(lib, NoteSpec(), NoteDoc("a\0b\tc"))) == "a b\\\tc\n"
  {
    NoteRow(lib, "a\0b\tc");
    SanitizeThenEscape();
    OneFieldLine(lib.numText, CText(Sanitize("a\0b\tc")));
  }
}
