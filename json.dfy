/** Decoded JSON as the Python code sees it (`r.json()`), with the few Python
    operations the core applies to it: truthiness, `dict.get`, `a or b`, and the
    `(x or "")` idiom that turns a value into a string before `.strip()` or
    `.upper()`. An operation that Python would reject with an exception (calling
    `.get` on something that is not a dict, `.strip()` on a number) yields `Err`. */
module Json {
  import opened Base

  datatype Json =
    | Null
    | Bool(b: bool)
    | Num(n: real)
    | Str(s: string)
    | Arr(items: seq<Json>)
    | Obj(fields: map<string, Json>)

  /** Python's `bool(value)`. */
  predicate Truthy(j: Json) {
    match j
    case Null => false
    case Bool(b) => b
    case Num(n) => n != 0.0
    case Str(s) => s != ""
    case Arr(xs) => xs != []
    case Obj(m) => m != map[]
  }

  /** Python `a or b`. */
  function Or(a: Json, b: Json): (r: Json)
    ensures Truthy(a) ==> r == a
    ensures !Truthy(a) ==> r == b
  {
    if Truthy(a) then a else b
  }

  /** Python `obj.get(key, default)`; an `AttributeError` when `obj` is not a dict. */
  function GetOr(obj: Json, key: string, default: Json): (r: Result<Json>)
    ensures r.Ok? <==> obj.Obj?
    ensures obj.Obj? && key in obj.fields ==> r == Ok(obj.fields[key])
    ensures obj.Obj? && key !in obj.fields ==> r == Ok(default)
  {
    match obj
    case Obj(m) => Ok(if key in m then m[key] else default)
    case _ => Err("AttributeError: object has no attribute 'get'")
  }

  /** The value stored under `key`, or null when `obj` is not a dict or lacks the key. */
  function Field(obj: Json, key: string): Json {
    if obj.Obj? && key in obj.fields then obj.fields[key] else Null
  }

  /** A record whose `response` can be read with `.get`: a dict whose
      `response`, when present, is a dict too. The adsbdb answers wrap their
      payload in `response`. */
  predicate ReadableResponse(rec: Json) {
    rec.Obj? && ("response" in rec.fields ==> rec.fields["response"].Obj?)
  }

  /** `rec["response"][name]`, null where a level is missing. */
  function Payload(rec: Json, name: string): Json {
    Field(Field(rec, "response"), name)
  }

  /** Python `obj.get(key)`, which yields `None` for a missing key. */
  function Get(obj: Json, key: string): (r: Result<Json>)
    ensures r.Ok? <==> obj.Obj?
    ensures r.Ok? ==> r.value == (if key in obj.fields then obj.fields[key] else Null)
    ensures r.Ok? ==> r.value == Field(obj, key)
  {
    GetOr(obj, key, Null)
  }

  /** A value that `(value or "")` turns into a string: a falsy one or a string. */
  predicate Textual(j: Json) {
    !Truthy(j) || j.Str?
  }

  /** The string `(value or "")` gives for a textual value. */
  function StrOf(j: Json): string {
    if j.Str? then j.s else ""
  }

  /** Python `(value or "")` where the result is then used as a string: falsy values
      give "", a string gives itself, anything else fails at the string method. */
  function TextOf(j: Json): (r: Result<string>)
    ensures !Truthy(j) ==> r == Ok("")
    ensures j.Str? ==> r == Ok(j.s)
    ensures r.Err? <==> Truthy(j) && !j.Str?
    ensures r.Ok? <==> Textual(j)
    ensures r.Ok? ==> r.value == StrOf(j)
  {
    if !Truthy(j) then Ok("")
    else if j.Str? then Ok(j.s)
    else Err("AttributeError: value is not a string")
  }

  /** Python `s or None` for a string `s` about to be stored. */
  function StrOrNull(s: string): (r: Json)
    ensures Truthy(r) <==> s != ""
    ensures s != "" ==> r == Str(s)
    ensures s == "" ==> r == Null
  {
    if s == "" then Null else Str(s)
  }
}
