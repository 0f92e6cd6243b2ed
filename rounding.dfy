/** Python's `round` of a rational number `num / den` to an integer: the
    nearest integer, and the even one of the two when `num / den` lies
    exactly halfway. */
module Rounding {

  function RoundHalfEven(num: int, den: int): (r: int)
    requires den > 0
    // nearest: no integer is closer to num / den than r
    ensures 2 * (num - r * den) <= den && 2 * (r * den - num) <= den
    // an exact half goes to the even neighbour
    ensures 2 * (num - r * den) == den || 2 * (r * den - num) == den ==> r % 2 == 0
  {
    var q, rem := num / den, num % den;
    assert num == q * den + rem;
    if 2 * rem < den then q
    else if 2 * rem > den then q + 1
    else if q % 2 == 0 then q
    else q + 1
  }

  /** The two properties above pin the result down: any integer that is as
      near and, on a tie, even, is the result. */
  lemma RoundHalfEvenUnique(num: int, den: int, r: int)
    requires den > 0
    requires 2 * (num - r * den) <= den && 2 * (r * den - num) <= den
    requires 2 * (num - r * den) == den || 2 * (r * den - num) == den ==> r % 2 == 0
    ensures r == RoundHalfEven(num, den)
  {
    var s := RoundHalfEven(num, den);
    if r < s {
      BetweenOneApart(num, den, r, s);
    } else if s < r {
      BetweenOneApart(num, den, s, r);
    }
  }

  /** A positive `den` taken `k` times stays within one `den` only for k <= 1. */
  lemma FactorAtMostOne(k: int, den: int)
    requires den > 0 && k * den <= den
    ensures k <= 1
  {
    assert (k - 1) * den <= 0;
  }

  /** Two integers within half of `den` of the same `num` are at most one
      apart, and one apart only when `num` lies halfway between them. */
  lemma BetweenOneApart(num: int, den: int, a: int, b: int)
    requires den > 0 && a < b
    requires 2 * (num - b * den) <= den && 2 * (a * den - num) <= den
    requires 2 * (num - a * den) <= den && 2 * (b * den - num) <= den
    ensures b == a + 1 && 2 * (num - a * den) == den && 2 * (b * den - num) == den
  {
    assert (b - a) * den == b * den - a * den;
    FactorAtMostOne(b - a, den);
    assert b * den == a * den + den;
  }

  /** Of two nearest-even roundings, the one of the smaller number is not
      larger. */
  lemma NearestOrdered(num1: int, num2: int, den: int, r1: int, r2: int)
    requires den > 0 && num1 <= num2
    requires 2 * (r1 * den - num1) <= den && 2 * (num2 - r2 * den) <= den
    requires 2 * (r1 * den - num1) == den ==> r1 % 2 == 0
    requires 2 * (num2 - r2 * den) == den ==> r2 % 2 == 0
    ensures r1 <= r2
  {
    assert (r1 - r2) * den == r1 * den - r2 * den;
    FactorAtMostOne(r1 - r2, den);
    assert r1 == r2 + 1 ==> r1 * den == r2 * den + den;
  }

  /** Rounding never reverses the order of two fractions with the same
      denominator. */
  lemma RoundHalfEvenMonotone(num1: int, num2: int, den: int)
    requires den > 0 && num1 <= num2
    ensures RoundHalfEven(num1, den) <= RoundHalfEven(num2, den)
  {
    NearestOrdered(num1, num2, den, RoundHalfEven(num1, den), RoundHalfEven(num2, den));
  }
}
