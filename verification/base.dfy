/** Shared value types: optional values, results carrying an error message,
    and the JavaScript primitives the proposal tool tests for truthiness. */
module Base {

  /** A JSON field that may be absent (`undefined` or `null` in the source). */
  datatype Option<+T> = None | Some(value: T)

  /** The outcome of a step that may throw; `Err` carries the error's message. */
  datatype Result<+T> = Ok(value: T) | Err(error: string)

  /** A JavaScript primitive value. Numbers are modelled as integers (no NaN). */
  datatype Scalar = Undefined | Null | Bool(b: bool) | Num(n: int) | Str(s: string)

  /** JavaScript truthiness of a primitive: `undefined`, `null`, `false`, `0`
      and `''` are falsy, everything else is truthy. */
  predicate Truthy(v: Scalar) {
    match v
    case Undefined => false
    case Null => false
    case Bool(b) => b
    case Num(n) => n != 0
    case Str(s) => s != ""
  }

  /** `field || fallback` for an optional string field: a missing or empty
      string falls back. */
  function OrText(field: Option<string>, fallback: string): (r: string)
    ensures field.Some? && field.value != "" ==> r == field.value
    ensures field.None? || field.value == "" ==> r == fallback
  {
    if field.Some? && field.value != "" then field.value else fallback
  }

  /** `field || 0` for an optional amount. */
  function OrZero(field: Option<real>): (r: real)
    ensures field.Some? ==> r == field.value
    ensures field.None? ==> r == 0.0
  {
    if field.Some? then field.value else 0.0
  }

  /** `list && list.length`: the list is present and has at least one item. */
  predicate HasItems<T>(list: Option<seq<T>>) {
    list.Some? && |list.value| > 0
  }

  /** The items of an optional list, `[]` when it is missing. */
  function ItemsOf<T>(list: Option<seq<T>>): (r: seq<T>)
    ensures HasItems(list) <==> |r| > 0
  {
    if list.Some? then list.value else []
  }
}
