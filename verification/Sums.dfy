/** Finite sums of reals over an index range, with the algebra the kernels need. */
module Sums {

  /** f(lo) + f(lo + 1) + ... + f(hi - 1) */
  function Sum(f: int -> real, lo: int, hi: int): real
    requires lo <= hi
    decreases hi - lo
  {
    if lo == hi then 0.0 else Sum(f, lo, hi - 1) + f(hi - 1)
  }

  lemma SumOne(f: int -> real, i: int)
    ensures Sum(f, i, i) == 0.0 && Sum(f, i, i + 1) == f(i)
  {
  }

  lemma {:induction false} SumExt(f: int -> real, g: int -> real, lo: int, hi: int)
    requires lo <= hi
    requires forall i :: lo <= i < hi ==> f(i) == g(i)
    ensures Sum(f, lo, hi) == Sum(g, lo, hi)
    decreases hi - lo
  {
    if lo < hi {
      SumExt(f, g, lo, hi - 1);
    }
  }

  lemma {:induction false} SumSplit(f: int -> real, lo: int, mid: int, hi: int)
    requires lo <= mid <= hi
    ensures Sum(f, lo, hi) == Sum(f, lo, mid) + Sum(f, mid, hi)
    decreases hi - mid
  {
    if mid < hi {
      SumSplit(f, lo, mid, hi - 1);
    }
  }

  lemma {:induction false} SumScale(f: int -> real, g: int -> real, c: real, lo: int, hi: int)
    requires lo <= hi
    requires forall i :: lo <= i < hi ==> g(i) == c * f(i)
    ensures Sum(g, lo, hi) == c * Sum(f, lo, hi)
    decreases hi - lo
  {
    if lo < hi {
      SumScale(f, g, c, lo, hi - 1);
    }
  }

  lemma {:induction false} SumAdd(f: int -> real, g: int -> real, h: int -> real, lo: int, hi: int)
    requires lo <= hi
    requires forall i :: lo <= i < hi ==> h(i) == f(i) + g(i)
    ensures Sum(h, lo, hi) == Sum(f, lo, hi) + Sum(g, lo, hi)
    decreases hi - lo
  {
    if lo < hi {
      SumAdd(f, g, h, lo, hi - 1);
    }
  }

  lemma {:induction false} SumZero(f: int -> real, lo: int, hi: int)
    requires lo <= hi
    requires forall i :: lo <= i < hi ==> f(i) == 0.0
    ensures Sum(f, lo, hi) == 0.0
    decreases hi - lo
  {
    if lo < hi {
      SumZero(f, lo, hi - 1);
    }
  }

  lemma {:induction false} SumPositive(f: int -> real, lo: int, hi: int)
    requires lo < hi
    requires forall i :: lo <= i < hi ==> f(i) > 0.0
    ensures Sum(f, lo, hi) > 0.0
    decreases hi - lo
  {
    if lo + 1 < hi {
      SumPositive(f, lo, hi - 1);
    } else {
      assert Sum(f, lo, lo) == 0.0;
    }
  }

  /** The sum over [lo + d, hi + d) is the sum over [lo, hi) of the shifted function. */
  lemma {:induction false} SumShift(f: int -> real, g: int -> real, d: int, lo: int, hi: int)
    requires lo <= hi
    requires forall i :: lo <= i < hi ==> g(i) == f(i + d)
    ensures Sum(f, lo + d, hi + d) == Sum(g, lo, hi)
    decreases hi - lo
  {
    if lo < hi {
      SumShift(f, g, d, lo, hi - 1);
    }
  }
}
