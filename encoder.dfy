/** The nested-value encoding: `JSON.stringify(value, transformObjectValue)`
    taken apart into the tree the replacer produces, which is modelled here,
    and the serialisation of that tree into text, which is left to the JSON
    library (a function parameter wherever text is needed). */
module StructuredEncoder {
  import opened Strings
  import opened Document

  /** The member an ObjectId leaf turns into. */
  function OidObject(hex: string): Json
  {
    JObj([("$oid", JStr(Sanitize(hex)))])
  }

  /** The JSON tree `JSON.stringify` builds when `transformObjectValue` is the
      replacer. `toJSON` turns an ObjectId into its hex text, and the replacer,
      which looks at the original value still held by the parent, wraps that
      text as `{"$oid": hex}`; the hex is then visited as a string in its own
      right and sanitised. Every other string is sanitised; everything else is
      left as the default encoding has it. */
  function Replace(v: Value): Json
  {
    match v
    case Null => JNull
    case Bool(b) => JBool(b)
    case Num(x) => JNum(x)
    case Str(s) => JStr(Sanitize(s))
    case ObjectId(h) => OidObject(h)
    case Decimal(t) => JDecimal(t)
    case Arr(items) => JArr(seq(|items|, i requires 0 <= i < |items| => Replace(items[i])))
    case Obj(ms) => JObj(seq(|ms|, i requires 0 <= i < |ms| => (ms[i].key, Replace(ms[i].value))))
  }

  /** The JSON tree `JSON.stringify` builds with no replacer: ObjectIds become
      their hex text (their `toJSON`) and strings are kept as they are. */
  function Standard(v: Value): Json
  {
    match v
    case Null => JNull
    case Bool(b) => JBool(b)
    case Num(x) => JNum(x)
    case Str(s) => JStr(s)
    case ObjectId(h) => JStr(h)
    case Decimal(t) => JDecimal(t)
    case Arr(items) => JArr(seq(|items|, i requires 0 <= i < |items| => Standard(items[i])))
    case Obj(ms) => JObj(seq(|ms|, i requires 0 <= i < |ms| => (ms[i].key, Standard(ms[i].value))))
  }

  /** No string value in the tree holds a NUL (member keys are not looked at:
      the replacer only ever sees values). */
  predicate Clean(j: Json)
  {
    match j
    case JStr(s) => NUL !in s
    case JArr(items) => forall i :: 0 <= i < |items| ==> Clean(items[i])
    case JObj(ms) => forall i :: 0 <= i < |ms| ==> Clean(ms[i].1)
    case _ => true
  }

  /** The document holds no ObjectId and no string with a NUL, that is,
      nothing the replacer would change. */
  predicate Plain(v: Value)
  {
    match v
    case Str(s) => NUL !in s
    case ObjectId(_) => false
    case Arr(items) => forall i :: 0 <= i < |items| ==> Plain(items[i])
    case Obj(ms) => forall i :: 0 <= i < |ms| ==> Plain(ms[i].value)
    case _ => true
  }

  /** The node reached from `v` by following child positions (array index or
      member index) along `path`. */
  function At(v: Value, path: seq<nat>): Option<Value>
    decreases path
  {
    if path == [] then Some(v)
    else match v
      case Arr(items) => if path[0] < |items| then At(items[path[0]], path[1..]) else None
      case Obj(ms) => if path[0] < |ms| then At(ms[path[0]].value, path[1..]) else None
      case _ => None
  }

  /** The same for a JSON tree. */
  function JAt(j: Json, path: seq<nat>): Option<Json>
    decreases path
  {
    if path == [] then Some(j)
    else match j
      case JArr(items) => if path[0] < |items| then JAt(items[path[0]], path[1..]) else None
      case JObj(ms) => if path[0] < |ms| then JAt(ms[path[0]].1, path[1..]) else None
      case _ => None
  }

  /** The replacer is applied at every depth: whatever node sits at a
      position of the document, the encoded tree holds that node's encoding at
      the same position. (The converse fails only below an ObjectId, whose
      encoding gains the `$oid` member.) */
  lemma {:induction false} ReplaceAt(v: Value, path: seq<nat>)
    ensures At(v, path).Some? ==> JAt(Replace(v), path) == Some(Replace(At(v, path).value))
    decreases path
  {
    if path != [] {
      match v
      case Arr(items) =>
        if path[0] < |items| {
          ReplaceAt(items[path[0]], path[1..]);
        }
      case Obj(ms) =>
        if path[0] < |ms| {
          ReplaceAt(ms[path[0]].value, path[1..]);
        }
      case _ =>
    }
  }

  /** Every ObjectId anywhere in a document is encoded as `{"$oid": hex}`,
      with the hex text sanitised (a canonical hex text is kept as it is). */
  lemma ObjectIdEncodedAt(v: Value, path: seq<nat>, hex: string)
    requires At(v, path) == Some(ObjectId(hex))
    ensures JAt(Replace(v), path) == Some(JObj([("$oid", JStr(Sanitize(hex)))]))
    ensures IsHexId(hex) ==> JAt(Replace(v), path) == Some(JObj([("$oid", JStr(hex))]))
  {
    ReplaceAt(v, path);
    if IsHexId(hex) {
      HexIdIsClean(hex);
    }
  }

  /** Every string anywhere in a document is encoded sanitised. */
  lemma StringEncodedAt(v: Value, path: seq<nat>, s: string)
    requires At(v, path) == Some(Str(s))
    ensures JAt(Replace(v), path) == Some(JStr(Sanitize(s)))
  {
    ReplaceAt(v, path);
  }

  /** No string value in the encoded tree holds a NUL; member keys are
      copied as they are. */
  lemma {:induction false} ReplaceClean(v: Value)
    ensures Clean(Replace(v))
  {
    match v
    case Str(s) => SanitizeNoNul(s);
    case ObjectId(h) => SanitizeNoNul(h);
    case Arr(items) =>
      forall i | 0 <= i < |items| ensures Clean(Replace(items[i])) {
        ReplaceClean(items[i]);
      }
    case Obj(ms) =>
      forall i | 0 <= i < |ms| ensures Clean(Replace(ms[i].value)) {
        ReplaceClean(ms[i].value);
      }
    case _ =>
  }

  /** The replacer changes nothing exactly when the document holds no ObjectId
      and no string with a NUL: everything else keeps its default encoding. */
  lemma {:induction false} ReplaceIsStandard(v: Value)
    ensures Replace(v) == Standard(v) <==> Plain(v)
  {
    match v
    case Str(s) => SanitizeFixpoint(s);
    case ObjectId(h) =>
    case Arr(items) =>
      forall i | 0 <= i < |items| ensures Replace(items[i]) == Standard(items[i]) <==> Plain(items[i]) {
        ReplaceIsStandard(items[i]);
      }
      if Plain(v) {
        assert Replace(v).items == Standard(v).items;
      } else {
        var i :| 0 <= i < |items| && !Plain(items[i]);
        assert Replace(v).items[i] != Standard(v).items[i];
      }
    case Obj(ms) =>
      forall i | 0 <= i < |ms| ensures Replace(ms[i].value) == Standard(ms[i].value) <==> Plain(ms[i].value) {
        ReplaceIsStandard(ms[i].value);
      }
      if Plain(v) {
        assert Replace(v).members == Standard(v).members;
      } else {
        var i :| 0 <= i < |ms| && !Plain(ms[i].value);
        assert Replace(v).members[i] != Standard(v).members[i];
      }
    case _ =>
  }
}
