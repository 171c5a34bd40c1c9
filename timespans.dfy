/**
 * The .NET numeric conventions the simulation core relies on.
 * A TimeSpan is an integer count of 100-nanosecond ticks; floating-point
 * quantities are modelled as exact reals.
 */
module TimeSpans {

  const TicksPerMillisecond: int := 10_000
  const TicksPerSecond: int := 10_000_000

  function Abs(a: int): int { if a < 0 then -a else a }

  /** TimeSpan.TotalSeconds. */
  function Seconds(t: int): real
  {
    t as real / TicksPerSecond as real
  }

  /** The C# cast `(int)x` of a floating-point value: truncation toward zero. */
  function Truncate(x: real): (n: int)
    ensures 0.0 <= x ==> 0 <= n && n as real <= x < n as real + 1.0
    ensures x < 0.0 ==> n <= 0 && n as real - 1.0 < x <= n as real
  {
    if x >= 0.0 then x.Floor else -((-x).Floor)
  }

  /**
   * TimeSpan.FromSeconds as the .NET Framework implements it: the value is
   * rounded to the nearest whole millisecond, halves away from zero.
   */
  function FromSeconds(s: real): (t: int)
    ensures t % TicksPerMillisecond == 0
    ensures -5000.0 <= t as real - s * TicksPerSecond as real <= 5000.0
    ensures 0.0 <= s ==> 0 <= t
    ensures s <= 0.0 ==> t <= 0
  {
    var ms := s * 1000.0;
    var whole := if ms >= 0.0 then (ms + 0.5).Floor else -((-ms + 0.5).Floor);
    whole * TicksPerMillisecond
  }

  /** C#'s integer division `a / b`: the quotient is truncated toward zero. */
  function Quot(a: int, b: int): int
    requires b != 0
  {
    var q := Abs(a) / Abs(b);
    if (a < 0) == (b < 0) then q else -q
  }

  /**
   * C#'s integer remainder `a % b`: what is left of `a` after the truncated
   * quotient, so the remainder has the sign of `a`.
   */
  function Rem(a: int, b: int): (r: int)
    requires b != 0
    ensures a == Quot(a, b) * b + r
    ensures 0 <= a ==> 0 <= r < Abs(b)
    ensures a < 0 ==> -Abs(b) < r <= 0
    ensures 0 <= a < Abs(b) ==> r == a
    ensures a == Abs(b) ==> r == 0
  {
    var m := Abs(b);
    var q := Abs(a) / m;
    var n := RemNat(Abs(a), m);
    assert Abs(a) == q * m + n;
    if a >= 0 then
      assert b < 0 ==> q * b == -(q * m);
      n
    else
      assert b < 0 ==> q * b == -(q * m);
      -(n as int)
  }

  function RemNat(a: nat, m: nat): (r: nat)
    requires m > 0
    ensures a == (a / m) * m + r
    ensures r < m
    ensures a < m ==> r == a
    ensures a == m ==> r == 0
  {
    a % m
  }
}
