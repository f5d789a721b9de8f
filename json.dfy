/** JSON values, for the free-form parts of records (audit diffs and metadata, API responses). */
module Json {
  import opened Wrappers

  datatype Json =
    | JNull
    | JBool(b: bool)
    | JNumber(n: int)
    | JString(s: string)
    | JArray(items: seq<Json>)
    | JObject(fields: map<string, Json>)
  {
    /** `typeof value === 'object' && value !== null` (arrays are objects too). */
    predicate IsObject()
    {
      JArray? || JObject?
    }

    /** JavaScript truthiness: `null`, `false`, `0` and `""` are falsy, every array and object is truthy. */
    predicate Truthy()
    {
      match this
      case JNull => false
      case JBool(b) => b
      case JNumber(n) => n != 0
      case JString(s) => s != ""
      case _ => true
    }

    /** `value[name]` on an object: `None` stands for `undefined`. */
    function Get(name: string): Option<Json>
    {
      if JObject? && name in fields then Some(fields[name]) else None
    }
  }
}
