/** The parts of JavaScript's value semantics that the provisioning code relies on. */
module Js {

  datatype Option<+T> = None | Some(value: T)

  /** How a promise settles: resolved with a value or rejected with an error. */
  datatype Result<+T, +E> = Ok(value: T) | Err(error: E)

  /** A leaf value of the YAML configuration (loaded with the JSON schema).
      Numbers are integers here: fractional numbers and NaN are not modelled. */
  datatype Scalar = Undefined | Null | Bool(b: bool) | Number(n: int) | Str(s: string)

  /** An `Error` object: Node's file-system errors carry a `code`, a plain `new Error(...)` does not. */
  datatype Error = Error(code: Option<string>, message: string)

  /** JavaScript truthiness, as used by `!x`, `x && y` and `x || y`. */
  predicate Truthy(v: Scalar)
  {
    match v
    case Undefined => false
    case Null => false
    case Bool(b) => b
    case Number(n) => n != 0
    case Str(s) => s != ""
  }

  /** `a || b` */
  function Or(a: Scalar, b: Scalar): Scalar
  {
    if Truthy(a) then a else b
  }

  /** `Array.prototype.find`, giving the index of the element it returns. */
  function Find<T>(s: seq<T>, p: T -> bool): (r: Option<nat>)
    ensures r.Some? ==> r.value < |s| && p(s[r.value])
    ensures r.Some? ==> forall j :: 0 <= j < r.value ==> !p(s[j])
    ensures r.None? <==> forall j :: 0 <= j < |s| ==> !p(s[j])
  {
    if s == [] then None
    else if p(s[0]) then Some(0)
    else match Find(s[1..], p)
      case None => None
      case Some(k) => Some(k + 1)
  }
}
