/** Amounts, percentages and the two-decimal rounding the service applies to
    every commission (`round(x, 2)`), over exact reals. */
module Money {

  /** A whole number of cents. */
  predicate IsCents(x: real) {
    (x * 100.0).Floor as real == x * 100.0
  }

  /** The whole number of cents nearest to `x`, ties to the even one. */
  function RoundCents(x: real): (m: int)
    ensures -0.5 <= m as real - x * 100.0 <= 0.5
    ensures x >= 0.0 ==> m >= 0
    ensures (m as real - x * 100.0 == 0.5 || x * 100.0 - m as real == 0.5) ==> m % 2 == 0
  {
    var y := x * 100.0;
    var n := y.Floor;
    var frac := y - n as real;
    if frac < 0.5 then n
    else if frac > 0.5 then n + 1
    else if n % 2 == 0 then n
    else n + 1
  }

  lemma CentsOfInt(m: int)
    ensures IsCents(m as real / 100.0)
  {
    assert (m as real / 100.0) * 100.0 == m as real;
  }

  /** Rounds to the nearest cent, ties to the even cent, as Python's `round`
      does on a value it can represent exactly. */
  function Round2(x: real): (r: real)
    ensures IsCents(r)
    ensures -0.005 <= r - x <= 0.005
    ensures IsCents(x) ==> r == x
    ensures x >= 0.0 ==> r >= 0.0
  {
    var m := RoundCents(x);
    CentsOfInt(m);
    assert IsCents(x) ==> m as real == x * 100.0;
    m as real / 100.0
  }

  /** `percentage` percent of `amount`. */
  function PercentOf(amount: real, percentage: real): real {
    amount * percentage / 100.0
  }

  lemma CentsAdd(a: real, b: real)
    requires IsCents(a) && IsCents(b)
    ensures IsCents(a + b)
  {
    var na, nb := (a * 100.0).Floor, (b * 100.0).Floor;
    assert (a + b) * 100.0 == (na + nb) as real;
  }

  /** Rounding never reverses the order of two amounts. */
  lemma Round2Monotonic(x: real, y: real)
    requires x <= y
    ensures Round2(x) <= Round2(y)
  {
    var nx, ny := (x * 100.0).Floor, (y * 100.0).Floor;
    assert nx <= ny;
    if nx == ny {
      assert x * 100.0 - nx as real <= y * 100.0 - ny as real;
    }
  }

  lemma ScaleBelow(a: real, b: real, c: real)
    requires 0.0 <= a && b <= c
    ensures a * b <= a * c
  {
    assert a * c - a * b == a * (c - b);
  }

  /** A percentage between 0 and 100 of a whole-cents, non-negative total
      rounds to an amount between nothing and the whole total. */
  lemma CommissionWithinTotal(total: real, percentage: real)
    requires IsCents(total) && 0.0 <= total
    requires 0.0 <= percentage <= 100.0
    ensures 0.0 <= Round2(PercentOf(total, percentage)) <= total
  {
    var p := PercentOf(total, percentage);
    ScaleBelow(total, 0.0, percentage);
    ScaleBelow(total, percentage, 100.0);
    assert 0.0 <= total * percentage <= total * 100.0;
    assert p == (total * percentage) / 100.0;
    assert (total * 100.0) / 100.0 == total;
    assert 0.0 <= p <= total;
    Round2Monotonic(p, total);
    assert Round2(total) == total;
  }
}
