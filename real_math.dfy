/// The floating-point helpers the source takes from Rust's `f64`, stated
/// over Dafny's exact `real`.
module RealMath {

  /// `core::f64::consts::PI`, written out to the digits Rust prints.
  const PI: real := 3.141592653589793

  function Abs(x: real): (r: real)
    ensures r >= 0.0 && (r == x || r == -x)
  {
    if x < 0.0 then -x else x
  }

  /// Division. Rust's `f64` division by zero gives an infinity or NaN,
  /// which `real` cannot hold; the model yields 0 there instead.
  function Div(a: real, b: real): (r: real)
    ensures b != 0.0 ==> r * b == a
  {
    if b == 0.0 then 0.0 else a / b
  }

  /// `f64::ceil`, the least integer not below `x`.
  function Ceil(x: real): (r: int)
    ensures x <= r as real < x + 1.0
  {
    -((-x).Floor)
  }

  /// `f64::to_degrees`.
  function ToDegrees(rad: real): real
  {
    rad * 180.0 / PI
  }
}
