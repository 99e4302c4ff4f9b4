/**
 * JavaScript values as they arrive in decoded socket and HTTP payloads.
 * JSON stringify/parse is the identity on these values.
 */
module Json {

  /** A decoded JSON value; `Undefined` stands for a field that is absent. */
  datatype Json =
    | Undefined
    | Null
    | Bool(b: bool)
    | Num(n: real)
    | Str(s: string)
    | Arr(items: seq<Json>)
    | Obj(fields: map<string, Json>)

  /** JavaScript truthiness. JSON carries no NaN, so a number is falsy only when it is zero. */
  predicate Truthy(v: Json) {
    match v
    case Undefined => false
    case Null => false
    case Bool(b) => b
    case Num(n) => n != 0.0
    case Str(s) => s != ""
    case Arr(_) => true
    case Obj(_) => true
  }

  /** `typeof v === 'object'`, which holds of null, arrays and objects. */
  predicate IsObjectType(v: Json) {
    v.Null? || v.Arr? || v.Obj?
  }

  /** Property access `v.name` on a value that is not null: undefined unless `v` is an object holding the key. */
  function Field(v: Json, name: string): (r: Json)
    ensures !v.Obj? ==> r == Undefined
    ensures v.Obj? && name in v.fields ==> r == v.fields[name]
  {
    if v.Obj? && name in v.fields then v.fields[name] else Undefined
  }
}
