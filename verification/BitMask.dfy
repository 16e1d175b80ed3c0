/** Masking with a power of two minus one, as ring indices are computed. */
module BitMask {

  /** Bitwise and of two unsigned integers. */
  function And(x: nat, y: nat): (r: nat)
    decreases y
  {
    if y == 0 then 0 else 2 * And(x / 2, y / 2) + if x % 2 == 1 && y % 2 == 1 then 1 else 0
  }

  predicate PowerOfTwo(n: nat)
    decreases n
  {
    n == 1 || (n > 1 && n % 2 == 0 && PowerOfTwo(n / 2))
  }

  /** For a power of two the mask n - 1 computes the remainder. */
  lemma {:induction false} MaskIsRemainder(x: nat, n: nat)
    requires PowerOfTwo(n)
    ensures And(x, n - 1) == x % n
    decreases n
  {
    if n > 1 {
      var h := n / 2;
      assert (n - 1) / 2 == h - 1 && (n - 1) % 2 == 1;
      MaskIsRemainder(x / 2, h);
      RemainderOfHalf(x, h);
    }
  }

  lemma RemainderOfHalf(x: nat, h: nat)
    requires h >= 1
    ensures x % (2 * h) == 2 * ((x / 2) % h) + x % 2
  {
    var q, r := (x / 2) / h, (x / 2) % h;
    assert x / 2 == q * h + r;
    assert x == 2 * (q * h + r) + x % 2;
    Remainder(x, 2 * h, q, 2 * r + x % 2);
  }

  lemma Remainder(x: int, n: nat, q: int, r: int)
    requires n >= 1 && 0 <= r < n
    requires x == q * n + r
    ensures x % n == r
  {
    var d := x / n - q;
    assert x == (x / n) * n + x % n;
    assert d * n == r - x % n;
    assert d >= 1 ==> d * n >= n;
    assert d <= -1 ==> d * n + n <= 0;
  }

  /** Two positions less than n apart never share a slot. */
  lemma CloseSlotsDiffer(i: nat, j: nat, n: nat)
    requires n >= 1 && i < j < i + n
    ensures i % n != j % n
  {
    var d := j / n - i / n;
    assert i == (i / n) * n + i % n && j == (j / n) * n + j % n;
    assert j - i == d * n + (j % n - i % n);
    assert d >= 1 ==> d * n >= n;
    assert d <= 0 ==> d * n <= 0;
  }
}
