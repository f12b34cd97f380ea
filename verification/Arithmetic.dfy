/** Small facts about division with remainder that the solver does not find by itself. */
module Arithmetic {
  lemma MultipleBound(d: int, n: int)
    requires n > 0
    ensures d >= 1 ==> d * n >= n
    ensures d <= -1 ==> d * n <= -n
  {
    if d >= 1 {
      assert (d - 1) * n >= 0;
    } else if d <= -1 {
      assert (-1 - d) * n >= 0;
    }
  }

  /** Quotient and remainder are determined by x == q * n + r with r in range. */
  lemma DivModUnique(x: int, n: int, q: int, r: int)
    requires 0 <= r < n
    requires x == q * n + r
    ensures x / n == q && x % n == r
  {
    var d := x / n - q;
    assert x == (x / n) * n + x % n;
    assert d * n == (x / n) * n - q * n;
    MultipleBound(d, n);
  }

  /** Position `offset` places after `start` on a ring of `n` places. */
  function Rotate(start: nat, offset: nat, n: nat): (i: nat)
    requires n > 0
    ensures i < n
  {
    (start + offset) % n
  }

  /** Every place on the ring is reached within one turn. */
  lemma RotationCovers(start: nat, n: nat, i: nat) returns (k: nat)
    requires i < n
    ensures k < n && Rotate(start, k, n) == i
  {
    var q, r := start / n, start % n;
    assert start == q * n + r;
    if i >= r {
      k := i - r;
      DivModUnique(start + k, n, q, i);
    } else {
      k := i + n - r;
      assert (q + 1) * n == q * n + n;
      DivModUnique(start + k, n, q + 1, i);
    }
  }
}
