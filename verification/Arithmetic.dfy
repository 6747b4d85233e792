/** Uniqueness of quotients and remainders, proved once by hand. */
module Arithmetic {
  lemma MultipleIsLarge(n: nat, k: int)
    requires n >= 1
    ensures k >= 1 ==> n * k >= n
    ensures k <= -1 ==> n * k + n <= 0
  {
    if k >= 1 { assert n * k >= n * 1; }
    if k <= -1 { assert n * k <= n * -1; }
  }

  lemma DoubledProduct(a: nat, b: nat)
    ensures 2 * (a * b) == (2 * a) * b
  {
  }

  lemma RemainderIsUnique(o: nat, n: nat, q: nat, r: nat)
    requires n >= 1 && r < n && o == n * q + r
    ensures o % n == r
  {
    var q', r' := o / n, o % n;
    assert n * (q' - q) == r - r';
    MultipleIsLarge(n, q' - q);
  }

  lemma QuotientIsUnique(o: nat, n: nat, q: nat, r: nat)
    requires n >= 1 && r < n && o == n * q + r
    ensures o / n == q
  {
    var q', r' := o / n, o % n;
    assert n * (q' - q) == r - r';
    MultipleIsLarge(n, q' - q);
  }
}
