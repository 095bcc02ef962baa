/**
 * JSON values and the field accessors the gateway reads them through. A value here is a document, whose
 * objects list their members in some order; the program's own maps keep them sorted by key.
 */
module Json {
  import opened Prelude

  /** An object keeps its members in the order the document gives them. */
  datatype Value =
    | Null
    | Bool(b: bool)
    | Int(i: int)
    | Float(r: real)
    | String(s: string)
    | Array(items: seq<Value>)
    | Object(members: seq<Member>)

  datatype Member = Member(key: string, value: Value)

  const U64_END: int := 0x1_0000_0000_0000_0000
  const I64_END: int := 0x8000_0000_0000_0000

  function Lookup(members: seq<Member>, key: string): Option<Value> {
    if members == [] then None
    else if members[0].key == key then Some(members[0].value)
    else Lookup(members[1..], key)
  }

  function Get(v: Value, key: string): Option<Value> {
    if v.Object? then Lookup(v.members, key) else None
  }

  function AsString(v: Option<Value>): Option<string> {
    if v.Some? && v.value.String? then Some(v.value.s) else None
  }

  function AsItems(v: Option<Value>): Option<seq<Value>> {
    if v.Some? && v.value.Array? then Some(v.value.items) else None
  }

  function AsU64(v: Option<Value>): Option<nat> {
    if v.Some? && v.value.Int? && 0 <= v.value.i < U64_END then Some(v.value.i) else None
  }

  function AsI64(v: Option<Value>): Option<int> {
    if v.Some? && v.value.Int? && -I64_END <= v.value.i < I64_END then Some(v.value.i) else None
  }

  /** The string held at `key`, if there is one. */
  function StringAt(v: Value, key: string): Option<string> {
    AsString(Get(v, key))
  }

  /** The array held at `key`, or nothing at all. */
  function ItemsAt(v: Value, key: string): seq<Value> {
    AsItems(Get(v, key)).UnwrapOr([])
  }

  /** An event may wrap the response it is about; a bare response is its own root. */
  function Root(v: Value): Value {
    Get(v, "response").UnwrapOr(v)
  }
}
