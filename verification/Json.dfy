/** The JSON tree of outputs, parameters and items (serde_json, toml). */
module Json {
  import opened Wrappers

  // The members of an object are listed in key order, as the source's maps
  // iterate them.
  datatype Value =
    | Null
    | Bool(b: bool)
    | Number(n: int)
    | String(text: string)
    | Array(items: seq<Value>)
    | Object(members: seq<Field>)

  datatype Field = Field(key: string, value: Value)
}
