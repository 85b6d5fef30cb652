/** Position records as the tracking server returns them: JSON objects whose
    fields the exporter reads with `pos.get(key)` and `pos.get(key, default)`. */
module Positions {

  datatype Option<+T> = None | Some(value: T)

  /** A JSON scalar. Numbers are opaque tokens: the exporter never computes
      with them, it only hands them on (through `str()` or a serializer). */
  datatype Value =
    | Null
    | Bool(b: bool)
    | Int(i: int)
    | Float(r: real)
    | Str(s: string)

  /** The default `0` of `pos.get(key, 0)`: a Python int, not a float. */
  const Zero: Value := Int(0)

  /** The default `''` of `pos.get(key, '')`. */
  const EmptyText: Value := Str("")

  /** Python truthiness: None, False, zero and the empty string are falsy. */
  predicate Truthy(v: Value)
  {
    match v
    case Null => false
    case Bool(b) => b
    case Int(i) => i != 0
    case Float(r) => r != 0.0
    case Str(s) => s != ""
  }

  /** One key of a position object: None when the key is absent. A key that is
      present with a JSON null is Some(Null). */
  type Field = Option<Value>

  /** The eight keys of a position record that the exporter reads; any other
      key is ignored by every encoder. */
  datatype Position = Position(
    latitude: Field,
    longitude: Field,
    altitude: Field,
    fixTime: Field,
    speed: Field,
    course: Field,
    accuracy: Field,
    address: Field)

  /** `pos.get(key, default)`: the default replaces only an ABSENT key; a key
      present with null yields Null. */
  function GetOr(f: Field, default: Value): Value
  {
    match f
    case None => default
    case Some(v) => v
  }

  /** `if pos.get(key):` — an absent key reads as None, which is falsy. */
  predicate Present(f: Field)
  {
    f.Some? && Truthy(f.value)
  }

  /** The optional element written under `if pos.get(key):`: the field's value
      when it is truthy, nothing otherwise. */
  function IfPresent(f: Field): Option<Value>
  {
    if Present(f) then f else None
  }
}
