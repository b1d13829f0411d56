/** Facts about floor division of non-negative integers (JavaScript `bigint` division). */
module Arith {

  /** Floor division characterised by its bounds. */
  lemma FloorBounds(x: nat, d: nat)
    requires d > 0
    ensures (x / d) * d <= x < (x / d + 1) * d
  {
    assert x == (x / d) * d + x % d;
  }

  /** Multiplication by a positive factor can be cancelled in an inequality. */
  lemma CancelLe(a: int, b: int, c: int)
    requires c > 0 && a * c <= b * c
    ensures a <= b
  {
  }

  /** The same for a strict inequality. */
  lemma CancelLt(a: int, b: int, c: int)
    requires c > 0 && a * c < b * c
    ensures a < b
  {
  }

  /** The floor of `x / d` is the unique `q` with `q * d <= x < (q + 1) * d`. */
  lemma FloorUnique(x: nat, d: nat, q: int)
    requires d > 0 && q * d <= x < (q + 1) * d
    ensures x / d == q
  {
    FloorBounds(x, d);
    var f := x / d;
    CancelLt(f, q + 1, d);
    CancelLt(q, f + 1, d);
  }
}
