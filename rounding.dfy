/** Python's `round(x, d)`, taken on the exact rational value rather than on a
    binary float: results are integers counting units of 10^-d. */
module Rounding {

  /** The nearest integer to `x`; a value exactly halfway goes to the even neighbour. */
  function RoundHalfEven(x: real): (n: int)
    ensures x - 0.5 <= n as real <= x + 0.5
    ensures (n as real == x - 0.5 || n as real == x + 0.5) ==> n % 2 == 0
  {
    var f := x.Floor;
    var d := x - f as real;
    if d < 0.5 then f else if d > 0.5 then f + 1 else if f % 2 == 0 then f else f + 1
  }

  /** `round(count / total * 100, 1)`, in tenths of a percent. */
  function Percentage(count: int, total: nat): (tenths: int)
    requires total > 0
    ensures 0 <= count <= total ==> 0 <= tenths <= 1000
    ensures 2 * count == total ==> tenths == 500
    ensures 5 * count == total ==> tenths == 200
  {
    PercentageExact(count, total);
    RoundHalfEven((count * 1000) as real / total as real)
  }

  /** The exact percentage (in tenths) before rounding. */
  lemma PercentageExact(count: int, total: nat)
    requires total > 0
    ensures 0 <= count <= total ==> 0.0 <= (count * 1000) as real / total as real <= 1000.0
    ensures 2 * count == total ==> (count * 1000) as real / total as real == 500.0
    ensures 5 * count == total ==> (count * 1000) as real / total as real == 200.0
  {
    var a, b := (count * 1000) as real, total as real;
    if 0 <= count <= total {
      DivAtMost(a, b, 1000.0);
      DivAtLeast(a, b, 0.0);
    }
    if 2 * count == total {
      DivExact(a, b, 500.0);
    }
    if 5 * count == total {
      DivExact(a, b, 200.0);
    }
  }

  lemma DivAtMost(a: real, b: real, c: real)
    requires b > 0.0 && a <= c * b
    ensures a / b <= c
  {}

  lemma DivAtLeast(a: real, b: real, c: real)
    requires b > 0.0 && a >= c * b
    ensures a / b >= c
  {}

  lemma DivExact(a: real, b: real, c: real)
    requires b > 0.0 && a == c * b
    ensures a / b == c
  {}

  /** `part / whole` in true division: the share of a part in a whole, within 0 and 1 when
      the part is no larger than the whole. */
  function Ratio(part: nat, whole: nat): (r: real)
    requires whole > 0
    ensures part == 0 ==> r == 0.0
    ensures part <= whole ==> 0.0 <= r <= 1.0
    ensures r * whole as real == part as real
  {
    ShareBounds(part, whole);
    part as real / whole as real
  }

  lemma ShareBounds(part: nat, whole: nat)
    requires whole > 0
    ensures part <= whole ==> 0.0 <= part as real / whole as real <= 1.0
    ensures (part as real / whole as real) * whole as real == part as real
  {
    if part <= whole {
      DivAtMost(part as real, whole as real, 1.0);
    }
    DivAtLeast(part as real, whole as real, 0.0);
  }

  /** `round(sum / n, 2)`, in hundredths. */
  function Hundredths(sum: real, n: nat): int
    requires n > 0
  {
    RoundHalfEven(sum * 100.0 / n as real)
  }

  /** `round(sum / n, 1)`, in tenths. */
  function Tenths(sum: int, n: nat): int
    requires n > 0
  {
    RoundHalfEven((sum * 10) as real / n as real)
  }
}
