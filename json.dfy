/** JSON values as the upstream service returns them, with Python's notion of
    truthiness and `dict.get`. Numbers are integers only. */
module JsonValues {
  import opened Wrappers

  datatype Json =
    | JNull
    | JBool(b: bool)
    | JNum(n: int)
    | JStr(s: string)
    | JArr(elems: seq<Json>)
    | JObj(fields: map<string, Json>)

  /** `bool(v)` in Python: null, false, 0, "", [] and {} are false. */
  predicate Truthy(v: Json) {
    match v
    case JNull => false
    case JBool(b) => b
    case JNum(n) => n != 0
    case JStr(s) => s != ""
    case JArr(a) => |a| > 0
    case JObj(m) => |m| > 0
  }

  /** `d.get(key)` on a dictionary. */
  function Lookup(fields: map<string, Json>, key: string): (r: Option<Json>)
    ensures r.Some? <==> key in fields
    ensures r.Some? ==> r.value == fields[key]
  {
    if key in fields then Some(fields[key]) else None
  }

  /** `a or b` on optional JSON values: the first truthy one, if any. */
  function FirstTruthy(a: Option<Json>, b: Option<Json>): (r: Option<Json>)
    ensures r.Some? ==> Truthy(r.value) && (r == a || r == b)
    ensures r.None? <==> !(a.Some? && Truthy(a.value)) && !(b.Some? && Truthy(b.value))
    ensures a.Some? && Truthy(a.value) ==> r == a
  {
    if a.Some? && Truthy(a.value) then a
    else if b.Some? && Truthy(b.value) then b
    else None
  }
}
