/**
 * The few JavaScript number operations the player's index arithmetic uses.
 * `Rem` is `%` on integers: the remainder takes the sign of the dividend
 * (Dafny's own `%` is Euclidean and never negative).
 */
module JsArith {

  function Abs(x: int): nat {
    if x < 0 then -x else x
  }

  /** `a % n` for an integer dividend and a positive divisor: it differs from
      the Euclidean remainder by exactly `n` when it is negative. */
  function Rem(a: int, n: int): (r: int)
    requires n > 0
    ensures -n < r < n
    ensures a >= 0 ==> r >= 0
    ensures a <= 0 ==> r <= 0
    ensures r >= 0 ==> r == a % n
    ensures r < 0 ==> r + n == a % n
  {
    var m := Abs(a) % n;
    if a >= 0 then m
    else
      EuclidOfNegation(-a, n);
      -m
  }

  /** How Dafny's Euclidean remainder of `-x` relates to that of `x`. */
  lemma EuclidOfNegation(x: int, n: int)
    requires x >= 0 && n > 0
    ensures x % n == 0 ==> (-x) % n == 0
    ensures x % n != 0 ==> (-x) % n == n - x % n
  {
    var q, m := x / n, x % n;
    if m == 0 {
      EuclidUnique(-x, n, -q, 0);
    } else {
      EuclidUnique(-x, n, -q - 1, n - m);
    }
  }

  /** The Euclidean remainder is the only one in `[0, n)`. */
  lemma EuclidUnique(x: int, n: int, q: int, r: int)
    requires n > 0 && 0 <= r < n
    requires x == q * n + r
    ensures x % n == r
  {
    var d := q - x / n;
    assert d * n == x % n - r by {
      assert x == (x / n) * n + x % n;
      assert d * n == q * n - (x / n) * n;
    }
  }

  /** A JavaScript number as far as the player's index arithmetic can reach:
      an integer, or `NaN` once a division by zero has happened. */
  datatype Num = Int(v: int) | NaN

  function Add(x: Num, y: Num): (r: Num)
    ensures r.NaN? <==> x.NaN? || y.NaN?
    ensures r.Int? ==> r.v == x.v + y.v
  {
    if x.NaN? || y.NaN? then NaN else Int(x.v + y.v)
  }

  /** `x % y`: NaN whenever an operand is NaN or the divisor is zero; the
      divisor's sign does not matter. */
  function Mod(x: Num, y: Num): (r: Num)
    ensures r.NaN? <==> x.NaN? || y.NaN? || y.v == 0
    ensures r.Int? ==> Abs(r.v) < Abs(y.v)
    ensures r.Int? ==> (x.v >= 0 ==> r.v >= 0) && (x.v <= 0 ==> r.v <= 0)
    ensures r.Int? && r.v >= 0 ==> r.v == x.v % Abs(y.v)
    ensures r.Int? && r.v < 0 ==> r.v + Abs(y.v) == x.v % Abs(y.v)
  {
    if x.NaN? || y.NaN? || y.v == 0 then NaN else Int(Rem(x.v, Abs(y.v)))
  }
}
