/** Multiplication, and the few facts about it that the shape arithmetic rests on. */
module Arith {

  /** Named, so that a proof about shapes can hide that it is multiplication. */
  function Mul(a: int, b: int): (r: int)
    ensures 0 <= a && 0 <= b ==> 0 <= r
  {
    Positive(a, b);
    a * b
  }

  lemma Positive(a: int, b: int)
    ensures 0 <= a && 0 <= b ==> 0 <= a * b
  {}

  lemma Units(a: int)
    ensures Mul(0, a) == 0 == Mul(a, 0) && Mul(1, a) == a == Mul(a, 1)
  {}

  lemma Associate(a: int, b: int, c: int)
    ensures Mul(a, Mul(b, c)) == Mul(Mul(a, b), c)
  {}

  lemma Distribute(a: int, b: int, c: int)
    ensures Mul(a + b, c) == Mul(a, c) + Mul(b, c)
  {}

  /** One group of `w` more. */
  lemma Next(a: int, w: int)
    ensures Mul(a + 1, w) == Mul(a, w) + w
  {
    Distribute(a, 1, w);
  }

  lemma Monotone(a: int, b: int, w: int)
    requires a <= b && 0 <= w
    ensures Mul(a, w) <= Mul(b, w)
  {}

  /** `a` whole groups of `w`, and one more, fit below `b` groups when `a < b`. */
  lemma GroupFits(a: int, b: int, w: int)
    requires 0 <= a < b && 0 <= w
    ensures 0 <= Mul(a, w) && Mul(a, w) + w <= Mul(b, w)
  {
    hide Mul;
    Next(a, w);
    Monotone(a + 1, b, w);
  }

  /** Quotient and remainder are unique. */
  lemma QuotientUnique(q: nat, r: int, q': nat, r': int, w: int)
    requires 0 <= r < w && 0 <= r' < w && Mul(q, w) + r == Mul(q', w) + r'
    ensures q == q' && r == r'
  {
    hide Mul;
    if q < q' {
      GroupFits(q, q', w);
    } else if q' < q {
      GroupFits(q', q, w);
    }
  }

  /** Quotient and remainder of a rank among `n` groups of `w`. */
  lemma SplitRank(i: int, w: int, n: int)
    requires 0 < w && 0 <= i < Mul(n, w)
    ensures 0 <= i / w < n && 0 <= i % w < w && Mul(i / w, w) + i % w == i
  {
    var q := i / w;
    assert i == w * q + i % w;
    if n <= q {
      Monotone(n, q, w);
    }
  }
}
