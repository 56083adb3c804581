/** Facts about Euclidean division that the solver does not find on its own. */
module Arith {

  lemma {:induction false} MulAtLeast(k: int, p: int)
    requires k >= 1 && p > 0
    ensures k * p >= p
    decreases k
  {
    if k > 1 {
      MulAtLeast(k - 1, p);
      assert k * p == (k - 1) * p + p;
    }
  }

  /** Two remainders in `0 .. p - 1` that differ by a multiple of `p` are equal. */
  lemma SameResidue(r1: int, r2: int, p: int, k: int)
    requires p > 0 && 0 <= r1 < p && 0 <= r2 < p && r1 - r2 == k * p
    ensures r1 == r2
  {
    if k >= 1 {
      MulAtLeast(k, p);
    } else if k <= -1 {
      MulAtLeast(-k, p);
    }
  }

  /** The Euclidean remainder is determined by the quotient-remainder decomposition. */
  lemma ModUnique(a: int, p: int, q: int, r: int)
    requires p > 0 && 0 <= r < p && a == q * p + r
    ensures a % p == r
  {
    var q', r' := a / p, a % p;
    assert a == q' * p + r';
    assert r' - r == (q - q') * p;
    SameResidue(r', r, p, q - q');
  }

  /** Reducing a value below twice the modulus takes off at most one modulus. */
  lemma ModBelowTwice(a: int, n: int)
    requires n > 0 && 0 <= a < 2 * n
    ensures a % n == if a < n then a else a - n
  {
    if a < n {
      ModUnique(a, n, 0, a);
    } else {
      ModUnique(a, n, 1, a - n);
    }
  }
}
