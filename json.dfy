/**
 * The part of serde_json's `Value` that the adapters rely on: the six kinds
 * of JSON value, `value["key"]` lookup, and the text a String or a Number
 * leaf turns into with `to_string()`.
 */
module Json {

  /** A parsed JSON document. A Number keeps the text that serde_json's
      `Number::to_string` renders it as; floats are not modelled. */
  datatype Value =
    | Null
    | Bool(b: bool)
    | Number(text: string)
    | String(s: string)
    | Array(items: seq<Value>)
    | Object(members: map<string, Value>)

  /** serde_json's `value[key]` with a string key: the member of an object,
      and `Null` for a missing key or a document that is not an object. */
  function Index(v: Value, key: string): Value
  {
    match v
    case Object(members) => if key in members then members[key] else Null
    case _ => Null
  }

  /** The two leaf kinds an adapter can ask for. */
  datatype Kind = StringKind | NumberKind

  predicate HasKind(v: Value, kind: Kind)
  {
    match kind
    case StringKind => v.String?
    case NumberKind => v.Number?
  }

  /** `to_string()` on a String payload (the string itself) or on a Number
      (its rendering). */
  function Render(v: Value): string
    requires v.String? || v.Number?
  {
    if v.String? then v.s else v.text
  }

  /** Lookup reads back what an object holds at a key, `Null` once the key
      is removed, and is not disturbed by updates at other keys. */
  lemma IndexOfUpdate(m: map<string, Value>, key: string, other: string, x: Value)
    requires other != key
    ensures Index(Object(m[key := x]), key) == x
    ensures Index(Object(m - {key}), key) == Null
    ensures Index(Object(m[other := x]), key) == Index(Object(m), key)
  {
  }

  /** A document that is not an object yields `Null` at every key, so no
      leaf kind can be read from it. */
  lemma NonObjectHasNoLeaves(v: Value, key: string, kind: Kind)
    requires !v.Object?
    ensures Index(v, key) == Null
    ensures !HasKind(Index(v, key), kind)
  {
  }
}
