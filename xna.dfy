/**
 * The framework value types the core passes around, and the unseen helper
 * functions it calls. Positions and velocities are exact real vectors;
 * colours are kept symbolic; the helpers are supplied by the caller as
 * uninterpreted total functions.
 */
module Xna {

  datatype Vector2 = Vector2(x: real, y: real)
  {
    function Plus(v: Vector2): Vector2 { Vector2(x + v.x, y + v.y) }
    function Times(k: real): Vector2 { Vector2(x * k, y * k) }
  }

  const Zero: Vector2 := Vector2(0.0, 0.0)

  datatype Rectangle = Rectangle(x: int, y: int, width: int, height: int)

  /**
   * A colour, or the result of Color.Lerp(from, to, elapsed / span) kept as
   * a term: the interpolation amount is recorded as a ratio of two tick counts.
   */
  datatype Color = Rgba(r: int, g: int, b: int, a: int) | Lerp(from: Color, to: Color, elapsed: int, span: int)

  const White: Color := Rgba(255, 255, 255, 255)
  /** default(Color), the value of a colour field nobody has assigned. */
  const Transparent: Color := Rgba(0, 0, 0, 0)

  /** MathHelper.ToRadians. */
  function ToRadians(degrees: real): real { degrees * 0.017453292519943295 }

  /**
   * What a unit is pushed with. AlongVelocity(v, m) is `v / v.Length() * m`,
   * kept as a term because normalising needs a square root.
   */
  datatype Force = Push(vector: Vector2) | AlongVelocity(velocity: Vector2, magnitude: real)

  /**
   * The helpers of XnaHelper and Vector2.Length, whose code is not part of this
   * model. randomAngle takes the random draw it would otherwise take from a
   * shared generator as its third argument.
   */
  datatype XnaHelper = XnaHelper(
    rectsCollide: (Rectangle, Rectangle) -> bool,
    pointInRect: (Vector2, Rectangle) -> bool,
    directionBetween: (Vector2, Vector2) -> Vector2,
    radiansFromVector: Vector2 -> real,
    vectorFromAngle: real -> Vector2,
    randomAngle: (real, real, real) -> real,
    length: Vector2 -> real)
}
