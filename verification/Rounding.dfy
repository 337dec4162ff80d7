/** Exact decimal arithmetic is arithmetic on the rational numbers the decimals denote; only
    division rounds, in one of two modes. */
module Rounding {

  datatype Rounder = RoundHalfEven | RoundUp

  /** What a rounding mode promises about an exact number q and the integer n chosen for it:
      nearest with ties to even, or away from zero. */
  ghost predicate RoundsTo(mode: Rounder, q: real, n: int) {
    match mode
    case RoundHalfEven =>
      && n as real - 0.5 <= q <= n as real + 0.5
      && (q == n as real - 0.5 || q == n as real + 0.5 ==> n % 2 == 0)
    case RoundUp =>
      if q >= 0.0 then q <= n as real < q + 1.0 else q - 1.0 < n as real <= q
  }

  /** Each mode picks one integer only. */
  lemma RoundsToUnique(mode: Rounder, q: real, m: int, n: int)
    requires RoundsTo(mode, q, m) && RoundsTo(mode, q, n)
    ensures m == n
  {
    assert mode.RoundHalfEven? ==> -1 <= m - n <= 1;
  }

  function Round(q: real, mode: Rounder): (n: int)
    ensures RoundsTo(mode, q, n)
  {
    var below := q.Floor;
    var fraction := q - below as real;
    var up := match mode
      case RoundHalfEven => fraction > 0.5 || (fraction == 0.5 && below % 2 != 0)
      case RoundUp => fraction > 0.0 && q >= 0.0;
    if up then below + 1 else below
  }

  /** QuoRound at scale 0: the exact quotient, rounded to a whole number. */
  function QuoRound(x: real, y: real, mode: Rounder): (z: int)
    requires y != 0.0
    ensures RoundsTo(mode, x / y, z)
  {
    Round(x / y, mode)
  }

  // ---------- order and products ----------

  lemma MulAssoc(x: real, y: real, z: real)
    ensures (x * y) * z == x * (y * z)
  {
  }

  lemma ScaleOrder(a: real, b: real, t: real)
    requires t > 0.0
    ensures a < b <==> a * t < b * t
    ensures a > b <==> a * t > b * t
    ensures a == b <==> a * t == b * t
  {
    if a < b { assert (b - a) * t > 0.0; }
    if b < a { assert (a - b) * t > 0.0; }
  }
}
