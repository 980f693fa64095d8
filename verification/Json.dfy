/** JSON values as serde_json holds them, over a representation `N` of numbers.  Objects are
    maps: a key occurs once and its position carries no meaning. */
module Json {
  import opened Outcomes

  datatype Value<+N> =
    | Null
    | Bool(b: bool)
    | Number(n: N)
    | String(s: string)
    | Array(items: seq<Value<N>>)
    | Object(fields: map<string, Value<N>>)
  {
    /** `get` with a text index: a member of an object, nothing on any other value. */
    function Get(key: string): Option<Value<N>> {
      if Object? && key in fields then Some(fields[key]) else None
    }

    function AsStr(): Option<string> {
      if String? then Some(s) else None
    }

    function AsArray(): Option<seq<Value<N>>> {
      if Array? then Some(items) else None
    }
  }
}
