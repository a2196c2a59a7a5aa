/** `transformValues`: one coerced value per column, in schema order, then the
    catch-all JSON when `extraProps` is set. */
module ValueCoercer {
  import opened Strings
  import opened Document
  import opened StructuredEncoder
  import opened Schema

  /** A coerced value, ready to be bound as a parameter or written as text. */
  datatype Cell = CNull | CBool(b: bool) | CNum(x: real) | CText(s: string)

  /** What the core calls but does not define: `JSON.stringify`'s text for an
      already-replaced tree, the `./omit` helper, and JavaScript's rendering of
      a number as text. */
  datatype Library = Library(
    stringify: Json -> string,
    omit: (Value, seq<string>) -> Value,
    numText: real -> string)

  /** `Math.trunc`: the integer part, rounding toward zero. */
  function Trunc(x: real): (r: int)
    ensures 0.0 <= x ==> r as real <= x < r as real + 1.0
    ensures x < 0.0 ==> r as real - 1.0 < x <= r as real
  {
    if x >= 0.0 then x.Floor else -((-x).Floor)
  }

  lemma TruncExamples()
    ensures Trunc(3.9) == 3 && Trunc(-3.9) == -3 && Trunc(30.7) == 30
  {
  }

  /** The column types whose numbers are truncated. */
  predicate IsIntegerType(t: string)
  {
    t == "smallint" || t == "integer" || t == "bigint"
  }

  /** The `switch (typeof source)` of one column: `None` is `undefined`. */
  function Coerce(lib: Library, column: Column, source: Option<Value>): Cell
  {
    match source
    case None => CNull
    case Some(v) =>
      match v
      case Null => CNull
      case ObjectId(h) => CText(h)
      case Decimal(t) => CText(t)
      case Arr(_) => CText(lib.stringify(Replace(v)))
      case Obj(_) => CText(lib.stringify(Replace(v)))
      case Num(x) => if IsIntegerType(column.sqlType) then CNum(Trunc(x) as real) else CNum(x)
      case Str(s) => CText(Sanitize(s))
      case Bool(b) => CBool(b)
  }

  /** The value stored in the catch-all column: the JSON of the document, or
      of what `omit` leaves of it when `omit` is configured. */
  function ExtraCell(lib: Library, extra: ExtraProps, doc: Value): Cell
  {
    var kept := match extra.omit case None => doc case Some(paths) => lib.omit(doc, paths);
    CText(lib.stringify(Replace(kept)))
  }

  /** The whole row `transformValues` yields for `doc`. */
  function Row(lib: Library, spec: Spec, doc: Value): (r: seq<Cell>)
    ensures |r| == Width(spec)
  {
    var cols := spec.columns;
    seq(|cols|, i requires 0 <= i < |cols| => Coerce(lib, cols[i], Get(doc, cols[i].source)))
    + match spec.extraProps case None => [] case Some(extra) => [ExtraCell(lib, extra, doc)]
  }

  /** The generator, drained: the `for … of` over the columns with one value
      pushed per column, then the catch-all value. */
  method TransformValues(lib: Library, spec: Spec, doc: Value) returns (values: seq<Cell>)
    ensures values == Row(lib, spec, doc)
  {
    var columns := spec.columns;
    values := [];
    for i := 0 to |columns|
      invariant values == Row(lib, spec, doc)[..i]
    {
      var column := columns[i];
      var source := Get(doc, column.source);
      var value: Cell;
      match source {
        case None =>
          value := CNull;
        case Some(v) =>
          match v {
            case Null =>
              value := CNull;
            case ObjectId(h) =>
              value := CText(h);
            case Decimal(t) =>
              value := CText(t);
            case Arr(_) =>
              value := CText(lib.stringify(Replace(v)));
            case Obj(_) =>
              value := CText(lib.stringify(Replace(v)));
            case Num(x) =>
              if IsIntegerType(column.sqlType) {
                value := CNum(Trunc(x) as real);
              } else {
                value := CNum(x);
              }
            case Str(s) =>
              value := CText(Sanitize(s));
            case Bool(b) =>
              value := CBool(b);
          }
      }
      values := values + [value];
    }
    if spec.extraProps.Some? {
      var extra := spec.extraProps.value;
      var kept := if extra.omit.Some? then lib.omit(doc, extra.omit.value) else doc;
      values := values + [CText(lib.stringify(Replace(kept)))];
    }
  }

  /** The `i`-th value comes from the `i`-th column. */
  lemma RowColumn(lib: Library, spec: Spec, doc: Value, i: nat)
    requires i < |spec.columns|
    ensures Row(lib, spec, doc)[i] == Coerce(lib, spec.columns[i], Get(doc, spec.columns[i].source))
  {
  }

  /** With `extraProps` the last value is the JSON of the (possibly trimmed)
      document. */
  lemma RowExtra(lib: Library, spec: Spec, doc: Value)
    requires spec.extraProps.Some?
    ensures Row(lib, spec, doc)[|spec.columns|] ==
      CText(lib.stringify(Replace(
        if spec.extraProps.value.omit.Some? then lib.omit(doc, spec.extraProps.value.omit.value) else doc)))
  {
  }

  /** A column yields null exactly when its source is absent or null. */
  lemma CoerceNull(lib: Library, column: Column, source: Option<Value>)
    ensures Coerce(lib, column, source) == CNull <==> source.None? || source.value == Null
  {
  }

  /** A numeric source in an integer column yields a whole number no farther
      from zero than the source and less than one away from it; in any other
      column it is passed through. */
  lemma CoerceNumber(lib: Library, column: Column, x: real)
    ensures var c := Coerce(lib, column, Some(Num(x)));
      IsIntegerType(column.sqlType) ==>
        && c.CNum? && c.x == c.x.Floor as real
        && (0.0 <= x ==> c.x <= x < c.x + 1.0)
        && (x < 0.0 ==> c.x - 1.0 < x <= c.x)
    ensures !IsIntegerType(column.sqlType) ==> Coerce(lib, column, Some(Num(x))) == CNum(x)
  {
  }

  /** Identifiers, decimals and strings become text: the hex form, the
      decimal text, the sanitised string. Booleans are passed through, and
      any other object or array becomes the JSON text of its replaced tree. */
  lemma CoerceScalars(lib: Library, column: Column, v: Value)
    ensures v.ObjectId? ==> Coerce(lib, column, Some(v)) == CText(v.hex)
    ensures v.Decimal? ==> Coerce(lib, column, Some(v)) == CText(v.text)
    ensures v.Str? ==> Coerce(lib, column, Some(v)) == CText(Sanitize(v.s))
    ensures v.Bool? ==> Coerce(lib, column, Some(v)) == CBool(v.b)
    ensures (v.Arr? || v.Obj?) ==> Coerce(lib, column, Some(v)) == CText(lib.stringify(Replace(v)))
  {
  }

  /** No text coming from a string, an identifier or a decimal source holds a
      NUL, given that identifiers and decimals carry their canonical texts. */
  lemma CoerceTextNoNul(lib: Library, column: Column, v: Value)
    requires v.Str? || (v.ObjectId? && IsHexId(v.hex)) || (v.Decimal? && NUL !in v.text)
    ensures Coerce(lib, column, Some(v)).CText? && NUL !in Coerce(lib, column, Some(v)).s
  {
    match v
    case Str(s) => SanitizeNoNul(s);
    case ObjectId(h) =>
    case Decimal(t) =>
  }

  /** Any text a column yields from a canonical source holds no NUL, as long
      as the JSON text holds none (`JSON.stringify` writes a NUL as `\u0000`). */
  lemma CoerceNoNul(lib: Library, column: Column, source: Option<Value>)
    requires source.Some? ==> Canonical(source.value)
    requires forall j :: NUL !in lib.stringify(j)
    ensures Coerce(lib, column, source).CText? ==> NUL !in Coerce(lib, column, source).s
  {
    if source.Some? {
      match source.value
      case Str(s) => SanitizeNoNul(s);
      case ObjectId(h) => HexIdNoNul(h);
      case _ =>
    }
  }

  /** No text value of a canonical document's row holds a NUL, which is what
      PostgreSQL demands of text. */
  lemma RowNoNul(lib: Library, spec: Spec, doc: Value)
    requires Canonical(doc)
    requires forall j :: NUL !in lib.stringify(j)
    ensures var row := Row(lib, spec, doc);
      forall i :: 0 <= i < |row| && row[i].CText? ==> NUL !in row[i].s
  {
    var row := Row(lib, spec, doc);
    forall i | 0 <= i < |row| && row[i].CText?
      ensures NUL !in row[i].s
    {
      if i < |spec.columns| {
        var column := spec.columns[i];
        var source := Get(doc, column.source);
        if source.Some? {
          GetInCanonical(doc, Split(column.source, '.'));
        }
        CoerceNoNul(lib, column, source);
        RowColumn(lib, spec, doc, i);
      }
    }
  }
}
