/**
 * JSON documents as `JSON.parse` returns them and `JSON.stringify` writes them.
 * Numbers are reals (IEEE-754 rounding is not modelled) and the order of an
 * object's members is not modelled.
 */
module Json {
  import opened Wrappers

  datatype Json =
    | Null
    | Bool(b: bool)
    | Num(n: real)
    | Str(s: string)
    | Arr(elems: seq<Json>)
    | Obj(fields: map<string, Json>)

  /** JavaScript truthiness of a parsed value (a parsed document holds no NaN and no undefined). */
  predicate Truthy(j: Json) {
    match j
    case Null => false
    case Bool(b) => b
    case Num(n) => n != 0.0
    case Str(s) => s != ""
    case Arr(_) => true
    case Obj(_) => true
  }

  /**
   * The property read `j.key` on a value that is not null: an own member of an
   * object, and undefined (None) otherwise. The keys read by the stages are never
   * `length` or an index, so arrays and strings have none of them.
   */
  function Get(j: Json, key: string): (r: Option<Json>)
    ensures r.Some? <==> j.Obj? && key in j.fields
  {
    if j.Obj? && key in j.fields then Some(j.fields[key]) else None
  }

  /** `respData && Object.prototype.hasOwnProperty.call(respData, key)`. */
  predicate HasOwn(j: Json, key: string) {
    Truthy(j) && j.Obj? && key in j.fields
  }

  /** `{ error: message }`, the document every error artifact built by the stages has. */
  function ErrorDoc(message: string): Json {
    Obj(map["error" := Str(message)])
  }

  /** Member `key` set to `v`, or left out when `v` is undefined: `JSON.stringify` drops such members. */
  function Put(fields: map<string, Json>, key: string, v: Option<Json>): map<string, Json> {
    if v.Some? then fields[key := v.value] else fields
  }
}
