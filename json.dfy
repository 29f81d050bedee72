/**
 * JSON values, as the serializer's validated `attrs` and the models'
 * JSONField columns hold them. Numbers are integers only; the model never
 * needs a fractional JSON number.
 */
module Json {

  datatype Value =
    | Null
    | Bool(b: bool)
    | Int(n: int)
    | Str(s: string)
    | List(items: seq<Value>)
    | Obj(fields: map<string, Value>)
}
