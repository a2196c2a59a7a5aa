/** MongoDB-style documents, the JSON trees they are encoded through, and the
    dotted-path lookup `lodash/get` performs on them. */
module Document {
  import opened Strings

  /** A document node, one variant per runtime kind the coercion tells apart.
      `ObjectId` carries what `toHexString()` returns, `Decimal` what a
      `Decimal128`'s `toString()` returns. Objects keep their keys in order. */
  datatype Value =
    | Null
    | Bool(b: bool)
    | Num(x: real)
    | Str(s: string)
    | ObjectId(hex: string)
    | Decimal(text: string)
    | Arr(items: seq<Value>)
    | Obj(members: seq<Member>)

  datatype Member = Member(key: string, value: Value)

  /** The tree `JSON.stringify` serialises once `toJSON` and the replacer have
      run. `JDecimal` stands for a `Decimal128`'s own JSON form, which the
      driver library chooses. */
  datatype Json =
    | JNull
    | JBool(b: bool)
    | JNum(x: real)
    | JStr(s: string)
    | JDecimal(text: string)
    | JArr(items: seq<Json>)
    | JObj(members: seq<(string, Json)>)

  /** A canonical ObjectId text: 24 lower-case hexadecimal digits. */
  predicate IsHexId(h: string)
  {
    |h| == 24 && forall i :: 0 <= i < |h| ==> ('0' <= h[i] <= '9' || 'a' <= h[i] <= 'f')
  }

  /** An ObjectId's hex text is never altered by sanitisation. */
  lemma HexIdIsClean(h: string)
    requires IsHexId(h)
    ensures Sanitize(h) == h
  {
    SanitizeFixpoint(h);
  }

  /** Every ObjectId in the document carries a canonical hex text and every
      decimal a text without NUL, as the driver produces them. */
  predicate Canonical(v: Value)
  {
    match v
    case ObjectId(h) => IsHexId(h)
    case Decimal(t) => NUL !in t
    case Arr(items) => forall i :: 0 <= i < |items| ==> Canonical(items[i])
    case Obj(ms) => forall i :: 0 <= i < |ms| ==> Canonical(ms[i].value)
    case _ => true
  }

  /** A canonical hex text holds no NUL. */
  lemma HexIdNoNul(h: string)
    requires IsHexId(h)
    ensures NUL !in h
  {
    assert forall i :: 0 <= i < |h| ==> h[i] != NUL;
  }

  /** The value of the first member named `key`, if there is one. */
  function Field(ms: seq<Member>, key: string): (r: Option<Value>)
    ensures r.None? <==> forall i :: 0 <= i < |ms| ==> ms[i].key != key
    ensures r.Some? ==> exists i :: 0 <= i < |ms| && ms[i].key == key && ms[i].value == r.value
                                    && forall j :: 0 <= j < i ==> ms[j].key != key
  {
    if ms == [] then None
    else if ms[0].key == key then Some(ms[0].value)
    else
      var r := Field(ms[1..], key);
      assert r.Some? ==> exists i :: 0 <= i < |ms| - 1 && ms[1..][i].key == key && ms[1..][i].value == r.value
                                   && forall j :: 0 <= j < i ==> ms[1..][j].key != key;
      r
  }

  datatype Option<T> = None | Some(value: T)

  /** Follows `segs` through nested objects; any other node on the way, or a
      missing key, makes the lookup come back absent. */
  function GetIn(v: Value, segs: seq<string>): Option<Value>
    decreases segs
  {
    if segs == [] then Some(v)
    else match v
      case Obj(ms) =>
        (match Field(ms, segs[0])
         case None => None
         case Some(w) => GetIn(w, segs[1..]))
      case _ => None
  }

  /** `get(doc, path)` for a dotted path; `None` is `undefined`. */
  function Get(doc: Value, path: string): Option<Value>
  {
    GetIn(doc, Split(path, '.'))
  }

  /** Looking up a path made of two parts is looking up the first part and
      then the second inside what it found. */
  lemma {:induction false} GetInAppend(v: Value, p: seq<string>, q: seq<string>)
    ensures GetIn(v, p + q) == match GetIn(v, p) case None => None case Some(w) => GetIn(w, q)
    decreases p
  {
    if p == [] {
      assert p + q == q;
    } else {
      assert p + q != [] && (p + q)[0] == p[0] && (p + q)[1..] == p[1..] + q;
      if v.Obj? && Field(v.members, p[0]).Some? {
        GetInAppend(Field(v.members, p[0]).value, p[1..], q);
      }
    }
  }

  /** Whatever a lookup finds inside a canonical document is canonical. */
  lemma {:induction false} GetInCanonical(v: Value, segs: seq<string>)
    requires Canonical(v) && GetIn(v, segs).Some?
    ensures Canonical(GetIn(v, segs).value)
    decreases segs
  {
    if segs != [] {
      var w := Field(v.members, segs[0]).value;
      var i :| 0 <= i < |v.members| && v.members[i].key == segs[0] && v.members[i].value == w
               && forall j :: 0 <= j < i ==> v.members[j].key != segs[0];
      assert Canonical(v.members[i].value);
      GetInCanonical(w, segs[1..]);
    }
  }
}
