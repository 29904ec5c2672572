/**
 * The few JavaScript value semantics the views rely on: an optional
 * (null/undefined-able) value, truthiness of strings and numbers, and the
 * `||` and `??` fallbacks written over them.
 */
module JsValues {

  /** A value that may be `null` or `undefined` (both are `None`). */
  datatype Option<+T> = None | Some(value: T) {
    /** `x ?? d`: the value unless it is null or undefined. */
    function GetOr(d: T): T {
      match this
      case Some(v) => v
      case None => d
    }
  }

  /** A string is truthy when it is present and not empty. */
  predicate Truthy(s: Option<string>) {
    s.Some? && s.value != ""
  }

  /** A number is truthy when it is present and not zero (NaN is not modelled). */
  predicate TruthyInt(n: Option<int>) {
    n.Some? && n.value != 0
  }

  /** `a || b` on two optional strings: `a` when truthy, otherwise `b` as it is. */
  function Or(a: Option<string>, b: Option<string>): (r: Option<string>)
    ensures Truthy(a) ==> r == a
    ensures !Truthy(a) ==> r == b
  {
    if Truthy(a) then a else b
  }

  /** `a || d` with a string default: the default replaces every falsy `a`. */
  function OrElse(a: Option<string>, d: string): (r: string)
    ensures Truthy(a) ==> r == a.value
    ensures !Truthy(a) ==> r == d
  {
    if Truthy(a) then a.value else d
  }

  /** The text a template literal `${x}` produces for an optional string. */
  function Interpolate(s: Option<string>): (r: string)
    ensures s.Some? ==> r == s.value
    ensures s.None? ==> r == "undefined"
  {
    match s
    case Some(v) => v
    case None => "undefined"
  }
}
