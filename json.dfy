/**
 * Parsed JSON values as the scraper sees them, and JavaScript's optional chaining over them.
 * A JavaScript `undefined` is `None`; a JSON `null` is `Some(JNull)`.
 */
module Json {
  import opened Wrappers

  datatype Json =
    | JNull
    | JBool(b: bool)
    | JNum(n: int)
    | JStr(s: string)
    | JArr(items: seq<Json>)
    | JObj(fields: map<string, Json>)

  /** `v?.key` (and `v.key` once `v` is known not to be nullish): an own key of an object, else undefined. */
  function Prop(v: Option<Json>, key: string): (r: Option<Json>)
    ensures r.Some? ==> v.Some? && v.value.JObj? && key in v.value.fields && r.value == v.value.fields[key]
    ensures v.Some? && v.value.JObj? && key in v.value.fields ==> r.Some?
  {
    match v
    case Some(JObj(m)) => if key in m then Some(m[key]) else None
    case _ => None
  }

  /** `v?.[0]`: the first element of an array, key "0" of an object, the first character of a string. */
  function First(v: Option<Json>): Option<Json> {
    match v
    case Some(JArr(xs)) => if |xs| > 0 then Some(xs[0]) else None
    case Some(JObj(m)) => if "0" in m then Some(m["0"]) else None
    case Some(JStr(s)) => if |s| > 0 then Some(JStr([s[0]])) else None
    case _ => None
  }

  /** `undefined` or `null`: the values at which `?.` stops. */
  predicate Nullish(v: Option<Json>) {
    v.None? || v.value.JNull?
  }

  /** The values JavaScript's `||` treats as false. */
  predicate Falsy(v: Option<Json>) {
    match v
    case None => true
    case Some(j) => j.JNull? || j == JBool(false) || j == JNum(0) || j == JStr("")
  }

  /** `v || ''`. */
  function OrEmpty(v: Option<Json>): (r: Json)
    ensures Falsy(v) ==> r == JStr("")
    ensures !Falsy(v) ==> r == v.value
  {
    if Falsy(v) then JStr("") else v.value
  }

  /**
   * JavaScript's `a === b` on two looked-up values. Arrays and objects compare by identity; two
   * of them taken from different records are different objects, so they never compare equal here.
   */
  predicate StrictEquals(a: Option<Json>, b: Option<Json>) {
    match (a, b)
    case (None, None) => true
    case (Some(JNull), Some(JNull)) => true
    case (Some(JBool(x)), Some(JBool(y))) => x == y
    case (Some(JNum(x)), Some(JNum(y))) => x == y
    case (Some(JStr(x)), Some(JStr(y))) => x == y
    case _ => false
  }

  /** Values that `===` compares by value (everything but arrays and objects). */
  predicate Primitive(v: Option<Json>) {
    v.None? || !(v.value.JArr? || v.value.JObj?)
  }

  lemma StrictEqualsIsValueEquality(a: Option<Json>, b: Option<Json>)
    requires Primitive(a) && Primitive(b)
    ensures StrictEquals(a, b) <==> a == b
  {
  }

  /**
   * A JavaScript object built by the scraper: each key maps to its value, `None` standing for
   * a key written with the value `undefined`; a key that is absent reads as `undefined` too.
   */
  type Record = map<string, Option<Json>>

  /** `r[key]`. */
  function Field(r: Record, key: string): Option<Json> {
    if key in r then r[key] else None
  }
}
