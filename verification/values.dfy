/** The values a Mongo document or a Python JSON-like structure holds. */
module Values {
  import opened Wrappers

  /** A Mongo ObjectId, identified with the 96-bit number it encodes. */
  type ObjectId = nat

  /** A dict is a map from its keys to its values; key order is not kept. */
  datatype Value =
    | Null
    | Bool(b: bool)
    | Int(i: int)
    | Str(s: string)
    | Oid(id: ObjectId)
    | List(items: seq<Value>)
    | Dict(fields: map<string, Value>)

  /** Python's `None` for an absent string, the string otherwise. */
  function OptStr(s: Option<string>): Value
  {
    match s
    case None => Null
    case Some(t) => Str(t)
  }
}
