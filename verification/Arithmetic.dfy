/** Facts about multiplication and division that need more than linear arithmetic. */
module Arithmetic {

  lemma MulDistributes(n: int, a: int, b: int)
    ensures n * (a - b) == n * a - n * b
  {
  }

  lemma MulAtLeast(n: int, d: int)
    requires 0 <= n
    ensures d >= 1 ==> n * d >= n
    ensures d <= -1 ==> n * d <= -n
  {
    if d >= 1 {
      assert n * d == n * (d - 1) + n;
      assert n * (d - 1) >= 0;
    } else if d <= -1 {
      assert n * d == n * (d + 1) - n;
      assert n * (d + 1) <= 0;
    }
  }

  lemma DivMod(k: nat, n: nat)
    requires 0 < n
    ensures n * (k / n) + k % n == k && 0 <= k % n < n
  {
  }

  /** Euclidean division has only one answer. */
  lemma DivisionIsUnique(n: nat, q: int, r: nat, q': int, r': nat)
    requires r < n && r' < n && n * q + r == n * q' + r'
    ensures q == q' && r == r'
  {
    MulDistributes(n, q, q');
    MulAtLeast(n, q - q');
  }

  lemma NextRemainder(k: nat, n: nat)
    requires 0 < n
    ensures (k + 1) % n == if k % n + 1 == n then 0 else k % n + 1
  {
    DivMod(k, n);
    DivMod(k + 1, n);
    var q, r := k / n, k % n;
    if r + 1 == n {
      MulDistributes(n, q + 1, 1);
      DivisionIsUnique(n, (k + 1) / n, (k + 1) % n, q + 1, 0);
    } else {
      DivisionIsUnique(n, (k + 1) / n, (k + 1) % n, q, r + 1);
    }
  }

  lemma RemainderOfSmall(r: nat, n: nat)
    requires r < n
    ensures r % n == r
  {
    DivMod(r, n);
    DivisionIsUnique(n, r / n, r % n, 0, r);
  }

  lemma NextTurn(k: nat, n: nat)
    requires 0 < n
    ensures (k % n + 1) % n == (k + 1) % n
  {
    DivMod(k, n);
    NextRemainder(k, n);
    NextRemainder(k % n, n);
    RemainderOfSmall(k % n, n);
  }
}
