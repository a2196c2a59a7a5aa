/** The target-table description and the DDL / statement fragments built from
    it: the column-name list, the `$n` placeholder list and the body of
    `CREATE TABLE`. */
module Schema {
  import opened Strings
  import opened Document

  /** One target column: its name, the dotted path of its source in the
      document, and its PostgreSQL type name as configured. */
  datatype Column = Column(name: string, source: string, sqlType: string)

  /** The optional catch-all column: its type, and the paths `omit` removes
      from the document before it is stored (`None` when `omit` is not set). */
  datatype ExtraProps = ExtraProps(sqlType: string, omit: Option<seq<string>>)

  /** `spec.target.columns`, `spec.target.extraProps` and the names of
      `spec.keys.primaryKey`, in configuration order. */
  datatype Spec = Spec(columns: seq<Column>, extraProps: Option<ExtraProps>, primaryKey: seq<string>)

  /** The unquoted name of the catch-all column. */
  const ExtraPropsColumn: string := "_extra_props"

  /** How many values, names and placeholders one row has. */
  function Width(spec: Spec): nat
  {
    |spec.columns| + (if spec.extraProps.Some? then 1 else 0)
  }

  /** A double-quoted identifier (the name is not escaped). */
  function Quote(name: string): (r: string)
    ensures |r| == |name| + 2 && r[0] == '"' && r[|r| - 1] == '"' && r[1..|r| - 1] == name
  {
    "\"" + name + "\""
  }

  /** A quoted column name is never the catch-all name, which starts with `_`. */
  lemma QuotedIsNotCatchAll(name: string)
    ensures Quote(name) != ExtraPropsColumn
  {
    assert Quote(name)[0] != ExtraPropsColumn[0];
  }

  /** `getColumnNames`: the quoted column names in schema order, then the bare
      catch-all name when `extraProps` is set. */
  method ColumnNames(spec: Spec) returns (names: seq<string>)
    ensures |names| == Width(spec)
    ensures forall i :: 0 <= i < |spec.columns| ==> names[i] == Quote(spec.columns[i].name)
    ensures spec.extraProps.Some? ==> names[|spec.columns|] == ExtraPropsColumn
  {
    var columns := spec.columns;
    names := [];
    for i := 0 to |columns|
      invariant |names| == i
      invariant forall j :: 0 <= j < i ==> names[j] == Quote(columns[j].name)
    {
      names := names + [Quote(columns[i].name)];
    }
    if spec.extraProps.Some? {
      names := names + [ExtraPropsColumn];
    }
  }

  /** The `i`-th (0-based) positional parameter, `$` followed by `i + 1`. */
  function Placeholder(i: nat): (r: string)
    ensures |r| >= 2 && r[0] == '$' && AllDigits(r[1..]) && ParseNat(r[1..]) == i + 1
  {
    ParseNatText(i + 1);
    assert ("$" + NatText(i + 1))[1..] == NatText(i + 1);
    "$" + NatText(i + 1)
  }

  /** Distinct positions never share a placeholder. */
  lemma PlaceholderInjective(i: nat, j: nat)
    requires Placeholder(i) == Placeholder(j)
    ensures i == j
  {
  }

  /** `getPlaceholders`: `$1, $2, …, $k` with no gap, `k` the row width, so
      the list lines up with `ColumnNames`. */
  method Placeholders(spec: Spec) returns (ps: seq<string>)
    ensures |ps| == Width(spec)
    ensures forall i :: 0 <= i < |ps| ==> ps[i] == Placeholder(i)
  {
    var columns := spec.columns;
    ps := [];
    for i := 0 to |columns|
      invariant |ps| == i
      invariant forall j :: 0 <= j < i ==> ps[j] == Placeholder(j)
    {
      ps := ps + [Placeholder(i)];
    }
    if spec.extraProps.Some? {
      ps := ps + [Placeholder(|columns|)];
    }
  }

  /** `"<name>" <type>`. */
  function ColumnClause(c: Column): string
  {
    Quote(c.name) + " " + c.sqlType
  }

  /** `PRIMARY KEY ("k1","k2",…)`. */
  function PrimaryKeyClause(keys: seq<string>): string
  {
    "PRIMARY KEY (" + Join(seq(|keys|, i requires 0 <= i < |keys| => Quote(keys[i])), ",") + ")"
  }

  /** The clauses of the table body: one per column in order, the catch-all
      clause when configured, and one final primary-key clause. The last
      ensures is a convenience for readers of the joined body: no earlier
      clause starts with `P`, so the body holds exactly one clause beginning
      `PRIMARY KEY`. */
  function TableClauses(spec: Spec): (r: seq<string>)
    ensures |r| == Width(spec) + 1
    ensures forall i :: 0 <= i < |spec.columns| ==> r[i] == ColumnClause(spec.columns[i])
    ensures spec.extraProps.Some? ==> r[|spec.columns|] == ExtraPropsColumn + " " + spec.extraProps.value.sqlType
    ensures r[|r| - 1] == PrimaryKeyClause(spec.primaryKey)
    ensures forall i :: 0 <= i < |r| - 1 ==> |r[i]| > 0 && r[i][0] != 'P'
  {
    var cols := spec.columns;
    seq(|cols|, i requires 0 <= i < |cols| => ColumnClause(cols[i]))
    + (if spec.extraProps.Some? then [ExtraPropsColumn + " " + spec.extraProps.value.sqlType] else [])
    + [PrimaryKeyClause(spec.primaryKey)]
  }

  /** `getTableBody`: the clauses joined by commas. */
  method TableBody(spec: Spec) returns (body: string)
    ensures body == Join(TableClauses(spec), ",")
  {
    var columns := spec.columns;
    var clauses: seq<string> := [];
    for i := 0 to |columns|
      invariant clauses == TableClauses(spec)[..i]
    {
      clauses := clauses + [ColumnClause(columns[i])];
    }
    if spec.extraProps.Some? {
      clauses := clauses + [ExtraPropsColumn + " " + spec.extraProps.value.sqlType];
    }
    var keyNames: seq<string> := [];
    for i := 0 to |spec.primaryKey|
      invariant keyNames == seq(i, j requires 0 <= j < i => Quote(spec.primaryKey[j]))
    {
      keyNames := keyNames + [Quote(spec.primaryKey[i])];
    }
    clauses := clauses + ["PRIMARY KEY (" + Join(keyNames, ",") + ")"];
    assert clauses == TableClauses(spec);
    body := Join(clauses, ",");
  }
}
