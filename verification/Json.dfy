/** Decoded JSON as Python sees it: values, `==`, and the type-strict `exact`. */
module Json {
  import opened Outcomes

  datatype Json =
    | Null | Bool(b: bool) | Int(n: int) | Float(r: real) | Str(s: string)
    | List(items: seq<Json>) | Dict(fields: map<string, Json>)

  function Number(j: Json): Option<real> {
    match j
    case Bool(b) => Some(if b then 1.0 else 0.0)
    case Int(n) => Some(n as real)
    case Float(r) => Some(r)
    case _ => None
  }

  /** Python `==`: numbers compare across types, containers element by element. */
  predicate PyEq(x: Json, y: Json)
    decreases x
  {
    match x
    case Null => y.Null?
    case Str(s) => y == Str(s)
    case List(items) =>
      && y.List? && |y.items| == |items|
      && forall i :: 0 <= i < |items| ==> PyEq(items[i], y.items[i])
    case Dict(fields) =>
      && y.Dict? && y.fields.Keys == fields.Keys
      && forall k :: k in fields ==> PyEq(fields[k], y.fields[k])
    case _ => Number(y).Some? && Number(x) == Number(y)
  }

  predicate SameType(x: Json, y: Json) {
    match x
    case Null => y.Null?
    case Bool(_) => y.Bool?
    case Int(_) => y.Int?
    case Float(_) => y.Float?
    case Str(_) => y.Str?
    case List(_) => y.List?
    case Dict(_) => y.Dict?
  }

  /** `exact`: the same type and equal. */
  predicate Exact(actual: Json, expected: Json) {
    SameType(actual, expected) && PyEq(actual, expected)
  }

  /** `dict.get` with its `None` default. */
  function Get(fields: map<string, Json>, key: string): Json {
    if key in fields then fields[key] else Null
  }

  const U64: int := 0xFFFF_FFFF_FFFF_FFFF

  /** `integer`: an int proper, within u64. */
  predicate IsUnsigned(j: Json) {
    j.Int? && 0 <= j.n <= U64
  }
}
