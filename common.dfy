/** Small shared vocabulary: optional values and the JavaScript truthiness
    rules the scripts rely on when they test a timestamp or a big blind. */
module Common {

  datatype Option<+T> = None | Some(value: T)

  /** `x || d` for a value that may be null. */
  function OrElse<T>(o: Option<T>, d: T): T
  {
    match o
    case Some(v) => v
    case None => d
  }

  /** A timestamp is truthy in JavaScript when it is present and not 0. */
  predicate TruthyInt(o: Option<int>)
  {
    o.Some? && o.value != 0
  }

  /** A number is truthy when it is present and not 0 (NaN is not modelled). */
  predicate TruthyReal(o: Option<real>)
  {
    o.Some? && o.value != 0.0
  }

  /** A string is truthy when it is present and not empty. */
  predicate TruthyString(o: Option<string>)
  {
    o.Some? && o.value != ""
  }

  function Min(a: real, b: real): (r: real)
    ensures r <= a && r <= b && (r == a || r == b)
  {
    if a <= b then a else b
  }

  function Abs(x: int): (r: nat)
    ensures r == x || r == -x
  {
    if x < 0 then -x else x
  }

  function AbsReal(x: real): (r: real)
    ensures r >= 0.0 && (r == x || r == -x)
  {
    if x < 0.0 then -x else x
  }
}
