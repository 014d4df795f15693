/** Division, remainder and cut-point facts shared by the address and tiling proofs. */
module Arith {

  lemma DivMod(q: int, n: int, r: int)
    requires 0 <= r < n
    ensures (q * n + r) / n == q
    ensures (q * n + r) % n == r
  {
    var x := q * n + r;
    assert x == n * (x / n) + x % n;
    var d := x / n - q;
    assert n * d == r - x % n by {
      assert n * d == n * (x / n) - n * q;
    }
    assert -n < d * n < n;
    if d >= 1 {
      MulMono(1, d, n);
      assert false;
    } else if d <= -1 {
      MulMono(d, -1, n);
      assert false;
    }
  }

  lemma MulMono(a: int, b: int, n: int)
    requires a <= b && 0 <= n
    ensures a * n <= b * n
  {
  }

  lemma DivLe(x: nat, n: nat)
    requires 0 < n
    ensures 0 <= x / n <= x
  {
    var q := x / n;
    assert x == n * q + x % n;
    if q > x {
      MulMono(1, n, q);
      assert false;
    }
  }

  lemma Factors(a: nat, b: nat)
    requires 0 < a * b
    ensures 0 < a && 0 < b
  {
  }

  lemma Factors2(a: nat, b: nat)
    requires 0 < a && 0 < b
    ensures 0 < a * b
  {
    MulMono(1, a, b);
  }

  lemma CancelRight(a: int, b: int, n: nat)
    requires 0 < n && a * n == b * n
    ensures a == b
  {
    assert (a + 1) * n == a * n + n;
    assert (b + 1) * n == b * n + n;
    if a < b {
      MulMono(a + 1, b, n);
    } else if b < a {
      MulMono(b + 1, a, n);
    }
  }

  /** Cells of a row-major table: (q, r) is read off q * n + r in one way only, and stays in range. */
  lemma CellUnique(q: int, r: int, q': int, r': int, n: int)
    requires 0 <= r < n && 0 <= r' < n
    requires q * n + r == q' * n + r'
    ensures q == q' && r == r'
  {
    DivMod(q, n, r);
    DivMod(q', n, r');
  }

  lemma CellInRange(q: int, r: int, m: int, n: int)
    requires 0 <= q < m && 0 <= r < n
    ensures 0 <= q * n + r < m * n
  {
    MulMono(q + 1, m, n);
    assert (q + 1) * n == q * n + n;
    assert q * n >= 0;
  }

  lemma DivBounds(x: int, n: int, m: int)
    requires 0 <= x < m * n && 0 < n
    ensures 0 <= x / n < m && 0 <= x % n < n && x == (x / n) * n + x % n
  {
    if x / n >= m {
      MulMono(m, x / n, n);
    }
  }

  lemma QuotientBelow(t: int, n: int, all: int)
    requires 0 <= t < n * all && 0 < n
    ensures 0 <= t / n < all
  {
    Swap(n, all);
    DivBounds(t, n, all);
  }

  lemma QuotientBetween(t: int, n: int, lo: int, hi: int)
    requires 0 <= t && 0 < n && lo <= t / n < hi
    ensures n * lo <= t < n * hi
  {
    var q := t / n;
    assert t == n * q + t % n;
    MulMono(lo, q, n);
    MulMono(q + 1, hi, n);
    Swap(n, lo);
    Swap(n, hi);
    Swap(n, q);
    assert (q + 1) * n == q * n + n;
  }

  lemma Swap(a: int, b: int)
    ensures a * b == b * a
  {
  }

  lemma Regroup(a: int, b: int, c: int)
    ensures a * (b * c) == (a * b) * c
  {
  }

  lemma NextMultiple(s: int, n: int)
    ensures (s + 1) * n == s * n + n
  {
  }

  lemma Distribute(n: int, a: int, b: int)
    ensures n * (a + b) == n * a + n * b
  {
  }

  /** A rising sequence of cut points puts every x of [cut(0), cut(m)) into exactly one piece. */
  lemma {:induction false} CutCovers(cut: int -> int, m: nat, x: int) returns (s: nat)
    requires cut(0) <= x < cut(m)
    ensures s < m && cut(s) <= x < cut(s + 1)
    decreases m
  {
    if x >= cut(m - 1) {
      s := m - 1;
    } else {
      s := CutCovers(cut, m - 1, x);
    }
  }

  lemma QuotientPositive(a: nat, b: nat)
    requires 0 < b <= a
    ensures 0 < a / b
  {
  }
}
