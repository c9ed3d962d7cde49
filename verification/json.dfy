/** Decoded JSON values as the backend sees them after `json.loads` (or a
    Django `JSONField`), with Python's truthiness, `or`, `dict.get` and `str()`. */
module Json {

  import opened Wrappers
  import opened Numbers

  /** A JSON value. A non-integral number is a Python float and is carried as
      the text `str()` gives for it, which is all the backend ever uses of it. */
  datatype Json =
    | JNull
    | JBool(b: bool)
    | JInt(i: int)
    | JFloat(text: string)
    | JStr(s: string)
    | JList(items: seq<Json>)
    | JObj(fields: map<string, Json>)

  /** Python's `bool(v)`: None, False, 0, 0.0, "", [] and {} are false. */
  predicate Truthy(v: Json) {
    match v
    case JNull => false
    case JBool(b) => b
    case JInt(i) => i != 0
    case JFloat(t) => t != "0.0" && t != "-0.0"
    case JStr(s) => s != ""
    case JList(xs) => xs != []
    case JObj(m) => m != map[]
  }

  /** Python's `a or b`. */
  function Or(a: Json, b: Json): (r: Json)
    ensures Truthy(a) ==> r == a
    ensures !Truthy(a) ==> r == b
  {
    if Truthy(a) then a else b
  }

  /** Python's `d.get(k)` on a JSON object; `None` for a missing key or a non-object. */
  function Get(v: Json, k: string): (r: Json)
    ensures v.JObj? && k in v.fields ==> r == v.fields[k]
    ensures !(v.JObj? && k in v.fields) ==> r == JNull
  {
    if v.JObj? && k in v.fields then v.fields[k] else JNull
  }

  /** Python's `str(v)`. Lists and objects are rendered by `show` (Python's `repr`). */
  function Str(v: Json, show: Json -> string): string {
    match v
    case JNull => "None"
    case JBool(b) => if b then "True" else "False"
    case JInt(i) => IntToString(i)
    case JFloat(t) => t
    case JStr(s) => s
    case JList(_) => show(v)
    case JObj(_) => show(v)
  }

  /** An empty JSON object, Python's `{}`. */
  const EmptyObject: Json := JObj(map[])
}
