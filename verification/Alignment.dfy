/** Rounding arithmetic shared by every layout computation. */
module Alignment {

  const PAGE_SIZE: nat := 4096
  const TWO_32: nat := 0x1_0000_0000

  /** The least multiple of n that is not below x. */
  function RoundUp(x: nat, n: nat): (r: nat)
    requires n > 0
    ensures r % n == 0
    ensures x <= r < x + n
  {
    RoundUpExists(x, n);
    var r: nat :| r % n == 0 && x <= r < x + n;
    r
  }

  lemma RoundUpExists(x: nat, n: nat)
    requires n > 0
    ensures exists r: nat :: r % n == 0 && x <= r < x + n
    ensures forall r: nat, q: nat :: r % n == 0 && x <= r < x + n && q % n == 0 && x <= q < x + n ==> r == q
  {
    var r := (x + n - 1) / n * n;
    MultipleHasNoRemainder((x + n - 1) / n, n);
    DivMod(x + n - 1, n);
    assert r % n == 0 && x <= r < x + n;
    forall r: nat, q: nat | r % n == 0 && x <= r < x + n && q % n == 0 && x <= q < x + n ensures r == q {
      if r <= q { CloseMultiples(r, q, n); } else { CloseMultiples(q, r, n); }
    }
  }

  lemma DivMod(x: nat, n: nat)
    requires n > 0
    ensures x == x / n * n + x % n
    ensures 0 <= x % n < n
  {
  }

  lemma ScaleAtLeast(k: nat, n: nat)
    requires k > 0
    ensures k * n >= n
  {
    assert k * n == n + (k - 1) * n;
  }

  lemma ScaleMonotone(a: nat, b: nat, n: nat)
    requires a <= b
    ensures a * n <= b * n
  {
    assert b * n == a * n + (b - a) * n;
  }

  lemma MultipleHasNoRemainder(k: nat, n: nat)
    requires n > 0
    ensures (k * n) % n == 0
  {
    DivMod(k * n, n);
    var q := k * n / n;
    if q < k {
      ScaleAtLeast(k - q, n);
    } else if k < q {
      ScaleAtLeast(q - k, n);
    }
  }

  lemma MultipleOf(x: nat, n: nat) returns (k: nat)
    requires n > 0 && x % n == 0
    ensures x == k * n
  {
    DivMod(x, n);
    k := x / n;
  }

  /** Sums of multiples are multiples. */
  lemma AddMultiples(a: nat, b: nat, n: nat)
    requires n > 0 && a % n == 0 && b % n == 0
    ensures (a + b) % n == 0
  {
    var i := MultipleOf(a, n);
    var j := MultipleOf(b, n);
    assert a + b == (i + j) * n;
    MultipleHasNoRemainder(i + j, n);
  }

  /** Two multiples less than n apart are equal. */
  lemma CloseMultiples(a: nat, b: nat, n: nat)
    requires n > 0 && a % n == 0 && b % n == 0 && a <= b < a + n
    ensures a == b
  {
    var i := MultipleOf(a, n);
    var j := MultipleOf(b, n);
    if i < j {
      assert (j - i) * n == b - a;
      ScaleAtLeast(j - i, n);
    } else if j < i {
      assert (i - j) * n == a - b;
      ScaleAtLeast(i - j, n);
    }
  }

  /** A multiple inside [x, x + n) can only be RoundUp(x, n). */
  lemma RoundUpUnique(x: nat, n: nat, r: nat)
    requires n > 0 && r % n == 0 && x <= r < x + n
    ensures r == RoundUp(x, n)
  {
    if r <= RoundUp(x, n) {
      CloseMultiples(r, RoundUp(x, n), n);
    } else {
      CloseMultiples(RoundUp(x, n), r, n);
    }
  }

  /** Rounding commutes with a shift by a multiple. */
  lemma RoundUpShift(x: nat, k: nat, n: nat)
    requires n > 0 && k % n == 0
    ensures RoundUp(x + k, n) == RoundUp(x, n) + k
  {
    AddMultiples(RoundUp(x, n), k, n);
    RoundUpUnique(x + k, n, RoundUp(x, n) + k);
  }

  lemma RoundUpMonotone(x: nat, y: nat, n: nat)
    requires n > 0 && x <= y
    ensures RoundUp(x, n) <= RoundUp(y, n)
  {
    if RoundUp(y, n) < RoundUp(x, n) {
      RoundUpUnique(x, n, RoundUp(y, n));
    }
  }
}
