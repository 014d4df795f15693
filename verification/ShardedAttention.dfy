/** Attention of one query over N keys with the keys shared out to several workers.

    Every worker normalises the softmax over its own keys and leaves its maximum, its sum and its
    normalised output; the leader merges them with revise factors.  Numbers are exact reals and the
    exponential is any function with the two laws it needs. */
module ShardedAttention {
  import opened Sums
  import Arith

  // ---------- the exponential ----------

  ghost predicate ExpLaws(exp: real -> real) {
    && (forall a, b, c {:trigger exp(a), exp(b), exp(c)} :: c == a + b ==> exp(c) == exp(a) * exp(b))
    && (forall a :: exp(a) > 0.0)
  }

  lemma ExpAt(exp: real -> real, z: real, m: real, shift: real)
    requires ExpLaws(exp)
    ensures exp(z - m) * exp(m - shift) == exp(z - shift)
    ensures exp(z - shift) > 0.0
  {
    assert exp((z - m) + (m - shift)) == exp(z - m) * exp(m - shift);
    assert (z - m) + (m - shift) == z - shift;
  }

  // ---------- balance211 ----------

  /** The first key of worker tid and how many keys it has. */
  function Balance211(n: nat, team: nat, tid: nat): (int, int) {
    if team <= 1 || n == 0 then (0, n)
    else
      var n1 := (n + team - 1) / team;
      var n2 := n1 - 1;
      var t1 := n - n2 * team;
      (if tid <= t1 then tid * n1 else t1 * n1 + (tid - t1) * n2, if tid < t1 then n1 else n2)
  }

  /** The most keys one worker gets; the size of a score buffer. */
  function BlockSize(n: nat, team: nat): int
    requires 0 < team
  {
    (n + team - 1) / team
  }

  /** Where worker tid's keys start; the keys of tid end where those of tid + 1 start. */
  function Cut(n: nat, team: nat, tid: int): int {
    if tid <= 0 then 0 else if tid >= team then n else Balance211(n, team, tid).0
  }

  lemma CutEnds(n: nat, team: nat)
    requires 0 < team
    ensures Cut(n, team, 0) == 0 && Cut(n, team, team) == n
  {
  }

  lemma CeilDiv(n: nat, team: nat)
    requires 0 < team && 0 < n
    ensures var n1 := (n + team - 1) / team; n1 >= 1 && 1 <= n - (n1 - 1) * team <= team
  {
    var x := n + team - 1;
    var n1 := x / team;
    assert x == team * n1 + x % team;
    assert (n1 - 1) * team == n1 * team - team;
    if n1 < 1 {
      Arith.MulMono(n1, 0, team);
      assert false;
    }
  }

  /** The workers' ranges tile [0, n): each starts where the one before ends, and no worker gets more
      than the ceil(n / team) keys its score buffer is sized for, nor two fewer than another. */
  lemma BalanceTiles(n: nat, team: nat, tid: nat)
    requires 0 < team && tid < team
    ensures Balance211(n, team, tid).0 == Cut(n, team, tid)
    ensures Balance211(n, team, tid).0 + Balance211(n, team, tid).1 == Cut(n, team, tid + 1)
    ensures 0 <= Cut(n, team, tid) <= Cut(n, team, tid + 1) <= n
    ensures BlockSize(n, team) - 1 <= Balance211(n, team, tid).1 <= BlockSize(n, team)
  {
    var n1 := BlockSize(n, team);
    if team == 1 {
    } else if n == 0 {
      Arith.DivMod(0, team, team - 1);
    } else {
      CeilDiv(n, team);
      BalanceCase(n, team, tid, n1, n1 - 1, n - (n1 - 1) * team);
    }
  }

  lemma BalanceCase(n: nat, team: nat, tid: nat, n1: nat, n2: nat, t1: nat)
    requires 1 < team && tid < team && 0 < n
    requires n1 == (n + team - 1) / team && n2 == n1 - 1 && t1 == n - n2 * team && 1 <= t1 <= team
    ensures Balance211(n, team, tid).0 == Cut(n, team, tid)
    ensures Balance211(n, team, tid).0 + Balance211(n, team, tid).1 == Cut(n, team, tid + 1)
    ensures 0 <= Cut(n, team, tid) <= Cut(n, team, tid + 1) <= n
    ensures n2 <= Balance211(n, team, tid).1 <= n1
  {
    var rest := team - t1;
    WholeIsPieces(n1, n2, t1, rest, n);
    if tid < t1 {
      NextCut(tid, n1, t1);
      Arith.MulMono(0, rest, n2);
    } else {
      NextCut(tid - t1, n2, rest);
      Arith.MulMono(0, t1, n1);
    }
  }

  lemma WholeIsPieces(n1: nat, n2: nat, t1: nat, rest: nat, n: nat)
    requires n1 == n2 + 1 && n == t1 + n2 * (t1 + rest)
    ensures n == t1 * n1 + rest * n2
  {
    Arith.Distribute(n2, t1, rest);
    Arith.Distribute(t1, n2, 1);
    Arith.Swap(n2, t1);
    Arith.Swap(n2, rest);
  }

  lemma NextCut(k: nat, size: nat, pieces: nat)
    requires k < pieces
    ensures (k + 1) * size == k * size + size
    ensures 0 <= k * size && (k + 1) * size <= pieces * size
  {
    Arith.MulMono(k + 1, pieces, size);
    Arith.MulMono(0, k, size);
  }

  // ---------- softmax-weighted averages ----------

  function ExpTerm(exp: real -> real, z: int -> real, shift: real): int -> real {
    j => exp(z(j) - shift)
  }

  function ExpDotTerm(exp: real -> real, z: int -> real, v: int -> real, shift: real): int -> real {
    j => exp(z(j) - shift) * v(j)
  }

  /** Sum of exp(z(j) - shift) over the keys [lo, hi) */
  function ExpSum(exp: real -> real, z: int -> real, shift: real, lo: int, hi: int): real
    requires lo <= hi
  {
    Sum(ExpTerm(exp, z, shift), lo, hi)
  }

  /** Sum of exp(z(j) - shift) * v(j) */
  function ExpDot(exp: real -> real, z: int -> real, v: int -> real, shift: real, lo: int, hi: int): real
    requires lo <= hi
  {
    Sum(ExpDotTerm(exp, z, v, shift), lo, hi)
  }

  lemma ExpSumPositive(exp: real -> real, z: int -> real, shift: real, lo: int, hi: int)
    requires ExpLaws(exp) && lo < hi
    ensures ExpSum(exp, z, shift, lo, hi) > 0.0
  {
    SumPositive(ExpTerm(exp, z, shift), lo, hi);
  }

  /** One column of unsharded attention: softmax of the n scores, times the values. */
  function Attention(exp: real -> real, z: int -> real, v: int -> real, n: nat): real
    requires ExpLaws(exp) && 0 < n
  {
    ExpSumPositive(exp, z, 0.0, 0, n);
    ExpDot(exp, z, v, 0.0, 0, n) / ExpSum(exp, z, 0.0, 0, n)
  }

  /** Attention written out: values weighted by the exponentials of their scores, over the sum of those. */
  lemma AttentionRatio(exp: real -> real, z: int -> real, v: int -> real, n: nat, num: int -> real, den: int -> real)
    requires ExpLaws(exp) && 0 < n
    requires forall j :: 0 <= j < n ==> den(j) == exp(z(j)) && num(j) == exp(z(j)) * v(j)
    ensures Sum(den, 0, n) > 0.0 && Attention(exp, z, v, n) == Sum(num, 0, n) / Sum(den, 0, n)
  {
    hide ExpLaws, Sum, ExpTerm, ExpDotTerm;
    ExpSumPositive(exp, z, 0.0, 0, n);
    forall j | 0 <= j < n
      ensures den(j) == ExpTerm(exp, z, 0.0)(j) && num(j) == ExpDotTerm(exp, z, v, 0.0)(j)
    {
      UnshiftedTerms(exp, z, v, j);
    }
    SumExt(den, ExpTerm(exp, z, 0.0), 0, n);
    SumExt(num, ExpDotTerm(exp, z, v, 0.0), 0, n);
  }

  lemma UnshiftedTerms(exp: real -> real, z: int -> real, v: int -> real, j: int)
    requires ExpLaws(exp)
    ensures ExpTerm(exp, z, 0.0)(j) == exp(z(j)) && ExpDotTerm(exp, z, v, 0.0)(j) == exp(z(j)) * v(j)
    ensures exp(z(j)) > 0.0
  {
    ExpAt(exp, z(j), 0.0, 0.0);
    hide ExpLaws;
    assert z(j) - 0.0 == z(j);
  }

  /** A single key is attended to with weight 1. */
  lemma AttentionOfOne(exp: real -> real, z: int -> real, v: int -> real)
    requires ExpLaws(exp)
    ensures Attention(exp, z, v, 1) == v(0)
  {
    hide ExpLaws, Sum, Attention;
    var den, num := ExpTerm(exp, z, 0.0), ExpDotTerm(exp, z, v, 0.0);
    UnshiftedTerms(exp, z, v, 0);
    AttentionRatio(exp, z, v, 1, num, den);
    SumOne(den, 0);
    SumOne(num, 0);
    OneTermOver(exp(z(0)), v(0));
  }

  lemma OneTermOver(e: real, v: real)
    requires e > 0.0
    ensures (e * v) / e == v
  {
  }

  /** Attention is an average: weights w that are the exponentials of the scores over their sum are positive,
      add up to 1, and give the values' average. */
  lemma AttentionIsAverage(exp: real -> real, z: int -> real, v: int -> real, n: nat, den: int -> real,
                           w: int -> real, f: int -> real)
    requires ExpLaws(exp) && 0 < n
    requires forall j :: 0 <= j < n ==> den(j) == exp(z(j)) && w(j) * Sum(den, 0, n) == den(j) && f(j) == w(j) * v(j)
    ensures Sum(w, 0, n) == 1.0 && (forall j :: 0 <= j < n ==> w(j) > 0.0)
    ensures Attention(exp, z, v, n) == Sum(f, 0, n)
  {
    hide ExpLaws, Sum, Attention, ExpDotTerm, ExpTerm;
    var num, total := ExpDotTerm(exp, z, v, 0.0), Sum(den, 0, n);
    forall j | 0 <= j < n
      ensures num(j) == exp(z(j)) * v(j)
    {
      UnshiftedTerms(exp, z, v, j);
    }
    AttentionRatio(exp, z, v, n, num, den);
    forall j | 0 <= j < n
      ensures den(j) == total * w(j) && num(j) == total * f(j) && w(j) > 0.0
    {
      UnshiftedTerms(exp, z, v, j);
      assert w(j) * Sum(den, 0, n) == den(j);
      FactorOut(w(j), total, den(j), v(j));
    }
    SumScale(w, den, total, 0, n);
    SumScale(f, num, total, 0, n);
    OverTotal(Sum(w, 0, n), Sum(f, 0, n), total);
  }

  lemma FactorOut(w: real, total: real, e: real, v: real)
    requires total > 0.0 && e > 0.0 && w * total == e
    ensures w > 0.0 && e == total * w && e * v == total * (w * v)
  {
  }

  lemma OverTotal(ones: real, a: real, total: real)
    requires total > 0.0 && total == total * ones
    ensures ones == 1.0 && (total * a) / total == a
  {
  }

  lemma RatioOfWeights(exp: real -> real, zi: real, zj: real, wi: real, wj: real, total: real)
    requires ExpLaws(exp) && total > 0.0 && wi * total == exp(zi) && wj * total == exp(zj)
    ensures wi == wj * exp(zi - zj)
  {
    assert exp(zj + (zi - zj)) == exp(zj) * exp(zi - zj);
    assert zj + (zi - zj) == zi;
    hide ExpLaws;
    var r := exp(zi - zj);
    assert (wj * total) * r == (wj * r) * total;
  }

  /** The revise factor exp(m - shift) turns sums taken relative to m into sums relative to shift. */
  lemma Revise(exp: real -> real, z: int -> real, v: int -> real, m: real, shift: real, lo: int, hi: int)
    requires ExpLaws(exp) && lo <= hi
    ensures ExpSum(exp, z, m, lo, hi) * exp(m - shift) == ExpSum(exp, z, shift, lo, hi)
    ensures ExpDot(exp, z, v, m, lo, hi) * exp(m - shift) == ExpDot(exp, z, v, shift, lo, hi)
  {
    hide ExpLaws, ExpTerm, ExpDotTerm;
    var r := exp(m - shift);
    forall j | lo <= j < hi
      ensures ExpTerm(exp, z, shift)(j) == r * ExpTerm(exp, z, m)(j)
      ensures ExpDotTerm(exp, z, v, shift)(j) == r * ExpDotTerm(exp, z, v, m)(j)
    {
      ReviseTerm(exp, z, v, m, shift, j);
    }
    SumScale(ExpTerm(exp, z, m), ExpTerm(exp, z, shift), r, lo, hi);
    SumScale(ExpDotTerm(exp, z, v, m), ExpDotTerm(exp, z, v, shift), r, lo, hi);
  }

  lemma EmptyRange(exp: real -> real, z: int -> real, v: int -> real, shift: real, lo: int)
    ensures ExpSum(exp, z, shift, lo, lo) == 0.0 && ExpDot(exp, z, v, shift, lo, lo) == 0.0
  {
  }

  lemma ExpNext(exp: real -> real, z: int -> real, v: int -> real, shift: real, lo: int, hi: int)
    requires lo <= hi
    ensures ExpSum(exp, z, shift, lo, hi + 1) == ExpSum(exp, z, shift, lo, hi) + exp(z(hi) - shift)
    ensures ExpDot(exp, z, v, shift, lo, hi + 1) == ExpDot(exp, z, v, shift, lo, hi) + exp(z(hi) - shift) * v(hi)
  {
  }

  lemma ExpSplit(exp: real -> real, z: int -> real, v: int -> real, shift: real, lo: int, mid: int, hi: int)
    requires lo <= mid <= hi
    ensures ExpSum(exp, z, shift, lo, hi) == ExpSum(exp, z, shift, lo, mid) + ExpSum(exp, z, shift, mid, hi)
    ensures ExpDot(exp, z, v, shift, lo, hi) == ExpDot(exp, z, v, shift, lo, mid) + ExpDot(exp, z, v, shift, mid, hi)
  {
    SumSplit(ExpTerm(exp, z, shift), lo, mid, hi);
    SumSplit(ExpDotTerm(exp, z, v, shift), lo, mid, hi);
  }

  lemma ReviseTerm(exp: real -> real, z: int -> real, v: int -> real, m: real, shift: real, j: int)
    requires ExpLaws(exp)
    ensures ExpTerm(exp, z, shift)(j) == exp(m - shift) * ExpTerm(exp, z, m)(j)
    ensures ExpDotTerm(exp, z, v, shift)(j) == exp(m - shift) * ExpDotTerm(exp, z, v, m)(j)
  {
    hide ExpLaws;
    ExpAt(exp, z(j), m, shift);
    Regroup(exp(z(j) - m), exp(m - shift), v(j), exp(z(j) - shift));
  }

  lemma Regroup(a: real, r: real, v: real, b: real)
    requires a * r == b
    ensures b == r * a && b * v == r * (a * v)
  {
  }

  /** Softmax does not depend on what is subtracted from the scores. */
  lemma ShiftFree(exp: real -> real, z: int -> real, v: int -> real, shift: real, n: nat)
    requires ExpLaws(exp) && 0 < n
    ensures ExpSum(exp, z, shift, 0, n) > 0.0
    ensures ExpDot(exp, z, v, shift, 0, n) / ExpSum(exp, z, shift, 0, n) == Attention(exp, z, v, n)
  {
    var r := exp(shift - 0.0);
    assert r > 0.0;
    hide ExpLaws, ExpSum, ExpDot;
    ExpSumPositive(exp, z, shift, 0, n);
    ExpSumPositive(exp, z, 0.0, 0, n);
    Revise(exp, z, v, shift, 0.0, 0, n);
    Ratio(ExpDot(exp, z, v, shift, 0, n), ExpSum(exp, z, shift, 0, n), r);
  }

  lemma Ratio(a: real, b: real, r: real)
    requires b > 0.0 && r > 0.0
    ensures b * r > 0.0 && (a * r) / (b * r) == a / b
  {
    var q := a / b;
    assert a == q * b;
    assert a * r == q * (b * r);
  }

  // ---------- the shards and their merge ----------

  /** What a worker leaves in its output buffer: the average over its own keys, 0 if it has none. */
  function ShardOut(exp: real -> real, z: int -> real, v: int -> real, m: real, lo: int, hi: int): real
    requires ExpLaws(exp) && lo <= hi
  {
    if lo == hi then 0.0
    else
      ExpSumPositive(exp, z, m, lo, hi);
      ExpDot(exp, z, v, m, lo, hi) / ExpSum(exp, z, m, lo, hi)
  }

  /** The share of the merged output one shard contributes. */
  lemma ShardContribution(exp: real -> real, z: int -> real, v: int -> real, m: real, realMax: real, realSum: real,
                          lo: int, hi: int)
    requires ExpLaws(exp) && lo <= hi && realSum > 0.0
    ensures ShardOut(exp, z, v, m, lo, hi) * (exp(m - realMax) * (ExpSum(exp, z, m, lo, hi) / realSum))
      == ExpDot(exp, z, v, realMax, lo, hi) / realSum
  {
    Revise(exp, z, v, m, realMax, lo, hi);
    if lo < hi {
      ExpSumPositive(exp, z, m, lo, hi);
      hide ExpSum, ExpDot;
      Cancel(ExpDot(exp, z, v, m, lo, hi), ExpSum(exp, z, m, lo, hi), exp(m - realMax), realSum);
    }
  }

  lemma Cancel(a: real, b: real, r: real, total: real)
    requires b > 0.0 && total > 0.0
    ensures (a / b) * (r * (b / total)) == (a * r) / total
  {
    var q, p := a / b, b / total;
    assert a == q * b && b == p * total;
    assert (q * (r * p)) * total == q * r * b;
  }

  /** The leader's denominator over the first k shards. */
  function RealSum(exp: real -> real, z: int -> real, m: int -> real, realMax: real, n: nat, splits: nat, k: nat): real
    requires k <= splits && 0 < splits
    decreases k
  {
    if k == 0 then 0.0
    else
      BalanceTiles(n, splits, k - 1);
      RealSum(exp, z, m, realMax, n, splits, k - 1)
        + ExpSum(exp, z, m(k - 1), Cut(n, splits, k - 1), Cut(n, splits, k)) * exp(m(k - 1) - realMax)
  }

  lemma RealSumNext(exp: real -> real, z: int -> real, m: int -> real, realMax: real, n: nat, splits: nat, k: nat)
    requires k < splits
    ensures RealSum(exp, z, m, realMax, n, splits, 0) == 0.0
    ensures Cut(n, splits, k) <= Cut(n, splits, k + 1)
    ensures RealSum(exp, z, m, realMax, n, splits, k + 1) ==
      RealSum(exp, z, m, realMax, n, splits, k)
        + ExpSum(exp, z, m(k), Cut(n, splits, k), Cut(n, splits, k + 1)) * exp(m(k) - realMax)
  {
    hide Balance211, Cut, ExpSum;
    BalanceTiles(n, splits, k);
  }

  lemma RealSumStep(exp: real -> real, z: int -> real, m: int -> real, realMax: real, n: nat, splits: nat, k: nat,
                    splitMax: real, splitSum: real)
    requires k < splits && splitMax == m(k)
    requires Cut(n, splits, k) <= Cut(n, splits, k + 1)
      && splitSum == ExpSum(exp, z, m(k), Cut(n, splits, k), Cut(n, splits, k + 1))
    ensures RealSum(exp, z, m, realMax, n, splits, k + 1)
      == RealSum(exp, z, m, realMax, n, splits, k) + splitSum * exp(splitMax - realMax)
  {
    hide Balance211, Cut, ExpSum, RealSum;
    RealSumNext(exp, z, m, realMax, n, splits, k);
  }

  lemma {:induction false} RealSumIsTotal(exp: real -> real, z: int -> real, m: int -> real, realMax: real, n: nat,
                                          splits: nat, k: nat)
    requires ExpLaws(exp) && k <= splits && 0 < splits
    ensures 0 <= Cut(n, splits, k)
    ensures RealSum(exp, z, m, realMax, n, splits, k) == ExpSum(exp, z, realMax, 0, Cut(n, splits, k))
  {
    hide ExpLaws, Balance211, Cut, ExpSum, ExpDot;
    CutEnds(n, splits);
    EmptyRange(exp, z, z, realMax, 0);
    if k > 0 {
      RealSumIsTotal(exp, z, m, realMax, n, splits, k - 1);
      BalanceTiles(n, splits, k - 1);
      Revise(exp, z, z, m(k - 1), realMax, Cut(n, splits, k - 1), Cut(n, splits, k));
      ExpSplit(exp, z, z, realMax, 0, Cut(n, splits, k - 1), Cut(n, splits, k));
    }
  }

  /** The leader's accumulator over the first k shards. */
  function Merged(exp: real -> real, z: int -> real, v: int -> real, m: int -> real, realMax: real, realSum: real,
                  n: nat, splits: nat, k: nat): real
    requires ExpLaws(exp) && k <= splits && 0 < splits && realSum > 0.0
    decreases k
  {
    if k == 0 then 0.0
    else
      BalanceTiles(n, splits, k - 1);
      var lo, hi := Cut(n, splits, k - 1), Cut(n, splits, k);
      Merged(exp, z, v, m, realMax, realSum, n, splits, k - 1)
        + ShardOut(exp, z, v, m(k - 1), lo,
          hi) * (exp(m(k - 1) - realMax) * (ExpSum(exp, z, m(k - 1), lo, hi) / realSum))
  }

  lemma MergedNext(exp: real -> real, z: int -> real, v: int -> real, m: int -> real, realMax: real, realSum: real,
                   n: nat, splits: nat, k: nat)
    requires ExpLaws(exp) && k < splits && realSum > 0.0
    ensures Merged(exp, z, v, m, realMax, realSum, n, splits, 0) == 0.0
    ensures Cut(n, splits, k) <= Cut(n, splits, k + 1)
    ensures Merged(exp, z, v, m, realMax, realSum, n, splits, k + 1) ==
      var lo, hi := Cut(n, splits, k), Cut(n, splits, k + 1);
      Merged(exp, z, v, m, realMax, realSum, n, splits, k)
        + ShardOut(exp, z, v, m(k), lo, hi) * (exp(m(k) - realMax) * (ExpSum(exp, z, m(k), lo, hi) / realSum))
  {
    hide Balance211, Cut, ExpSum, ShardOut, ExpLaws;
    BalanceTiles(n, splits, k);
  }

  lemma MergedStep(exp: real -> real, z: int -> real, v: int -> real, m: int -> real, realMax: real, realSum: real,
                   n: nat, splits: nat, k: nat, revFactor: real, splitSum: real, out: real)
    requires ExpLaws(exp) && k < splits && realSum > 0.0 && revFactor == exp(m(k) - realMax)
    requires Cut(n, splits, k) <= Cut(n, splits, k + 1)
    requires splitSum == ExpSum(exp, z, m(k), Cut(n, splits, k), Cut(n, splits, k + 1))
    requires out == ShardOut(exp, z, v, m(k), Cut(n, splits, k), Cut(n, splits, k + 1))
    ensures Merged(exp, z, v, m, realMax, realSum, n, splits, k + 1) ==
      Merged(exp, z, v, m, realMax, realSum, n, splits, k) + out * (revFactor * (splitSum / realSum))
  {
    hide Balance211, Cut, ExpSum, ShardOut, ExpLaws, Merged;
    MergedNext(exp, z, v, m, realMax, realSum, n, splits, k);
  }

  lemma {:induction false} MergedIsTotal(exp: real -> real, z: int -> real, v: int -> real, m: int -> real,
                                         realMax: real, realSum: real, n: nat, splits: nat, k: nat)
    requires ExpLaws(exp) && k <= splits && 0 < splits && realSum > 0.0
    ensures 0 <= Cut(n, splits, k)
    ensures Merged(exp, z, v, m, realMax, realSum, n, splits, k)
      == ExpDot(exp, z, v, realMax, 0, Cut(n, splits, k)) / realSum
  {
    hide ExpLaws, Balance211, Cut, ShardOut, ExpSum, ExpDot;
    CutEnds(n, splits);
    EmptyRange(exp, z, v, realMax, 0);
    if k > 0 {
      MergedIsTotal(exp, z, v, m, realMax, realSum, n, splits, k - 1);
      BalanceTiles(n, splits, k - 1);
      var lo, hi := Cut(n, splits, k - 1), Cut(n, splits, k);
      ShardContribution(exp, z, v, m(k - 1), realMax, realSum, lo, hi);
      ExpSplit(exp, z, v, realMax, 0, lo, hi);
      AddOver(ExpDot(exp, z, v, realMax, 0, lo), ExpDot(exp, z, v, realMax, lo, hi), realSum);
    }
  }

  lemma AddOver(a: real, b: real, c: real)
    requires c > 0.0
    ensures a / c + b / c == (a + b) / c
  {
  }

  /** Sharded attention equals attention, for every number of keys n >= 1 and of shards, whatever
      numbers m(s) the shards subtracted and whatever number realMax the leader revises to. */
  lemma ShardedIsAttention(exp: real -> real, z: int -> real, v: int -> real, m: int -> real, realMax: real, n: nat,
                           splits: nat)
    requires ExpLaws(exp) && 0 < n && 0 < splits
    ensures RealSum(exp, z, m, realMax, n, splits, splits) > 0.0
    ensures Merged(exp, z, v, m, realMax, RealSum(exp, z, m, realMax, n, splits, splits), n, splits, splits)
      == Attention(exp, z, v, n)
  {
    CutEnds(n, splits);
    hide ExpLaws, Cut, Merged, RealSum, Attention, ExpSum, ExpDot;
    RealSumIsTotal(exp, z, m, realMax, n, splits, splits);
    ShiftFree(exp, z, v, realMax, n);
    MergedIsTotal(exp, z, v, m, realMax, RealSum(exp, z, m, realMax, n, splits, splits), n, splits, splits);
  }

  // ---------- the kernel, for one head ----------

  /** The inputs of one head: its query row, the cached keys and values, the mask row, the scale. */
  datatype Head = Head(q: seq<real>, keys: seq<seq<real>>, values: seq<seq<real>>, mask: seq<real>, scale: real,
                       headSize: nat)

  ghost predicate GoodHead(h: Head) {
    && |h.q| == h.headSize && |h.keys| == |h.values| == |h.mask|
    && (forall j :: 0 <= j < |h.keys| ==> |h.keys[j]| == |h.values[j]| == h.headSize)
  }

  function DotTerm(a: seq<real>, b: seq<real>): int -> real {
    i => if 0 <= i < |a| && i < |b| then a[i] * b[i] else 0.0
  }

  function Masked(dot: real, scale: real, mask: real): real {
    dot * scale + mask
  }

  /** The scaled and masked score of key j. */
  function Score(h: Head): int -> real {
    j => if 0 <= j < |h.keys| && j < |h.mask| then Masked(Sum(DotTerm(h.q, h.keys[j]), 0, |h.q|), h.scale, h.mask[j])
      else 0.0
  }

  function Value(h: Head, d: nat): int -> real {
    j => if 0 <= j < |h.values| && d < |h.values[j]| then h.values[j][d] else 0.0
  }

  /** The scores and values of a head, and its output, written out over its inputs: dots(j) lists the
      products of query and key j, num and den the weighted values of column d and the weights. */
  lemma HeadWrittenOut(h: Head, exp: real -> real, d: nat, dots: int -> (int -> real), score: int -> real,
                       num: int -> real, den: int -> real)
    requires ExpLaws(exp) && GoodHead(h) && 0 < |h.keys| && d < h.headSize
    requires forall j: nat, e: nat :: j < |h.keys| && e < |h.q| ==> dots(j)(e) == h.q[e] * h.keys[j][e]
    requires forall j: nat :: j < |h.keys| ==> score(j) == Sum(dots(j), 0, |h.q|) * h.scale + h.mask[j]
    requires forall j: nat :: j < |h.keys| ==> den(j) == exp(score(j)) && num(j) == exp(score(j)) * h.values[j][d]
    ensures forall j: nat :: j < |h.keys| ==> Score(h)(j) == score(j)
    ensures Sum(den, 0, |h.keys|) > 0.0
    ensures Attention(exp, Score(h), Value(h, d), |h.keys|) == Sum(num, 0, |h.keys|) / Sum(den, 0, |h.keys|)
  {
    hide ExpLaws, Sum, Masked;
    forall j: nat | j < |h.keys|
      ensures Score(h)(j) == score(j)
    {
      ScoreWrittenOut(h, j, dots(j), score(j));
    }
    AttentionRatio(exp, Score(h), Value(h, d), |h.keys|, num, den);
  }

  lemma ScoreWrittenOut(h: Head, j: nat, dots: int -> real, score: real)
    requires GoodHead(h) && j < |h.keys|
    requires forall e: nat :: e < |h.q| ==> dots(e) == h.q[e] * h.keys[j][e]
    requires score == Sum(dots, 0, |h.q|) * h.scale + h.mask[j]
    ensures Score(h)(j) == score
  {
    SumExt(dots, DotTerm(h.q, h.keys[j]), 0, |h.q|);
  }

  /** What the worker of the keys [lo, hi) publishes, written out: the sum of its weights relative to its maximum m, and
      its weighted values over that sum, or 0 if it has no keys. */
  lemma ShardWrittenOut(h: Head, exp: real -> real, d: nat, m: real, lo: nat, hi: nat, dots: int -> (int -> real),
                        score: int -> real, num: int -> real, den: int -> real)
    requires ExpLaws(exp) && GoodHead(h) && lo <= hi <= |h.keys| && d < h.headSize
    requires forall j: nat, e: nat :: j < |h.keys| && e < |h.q| ==> dots(j)(e) == h.q[e] * h.keys[j][e]
    requires forall j: nat :: j < |h.keys| ==> score(j) == Sum(dots(j), 0, |h.q|) * h.scale + h.mask[j]
    requires forall j: nat :: lo <= j < hi ==>
      den(j) == exp(score(j) - m) && num(j) == exp(score(j) - m) * h.values[j][d]
    ensures ExpSum(exp, Score(h), m, lo, hi) == Sum(den, lo, hi)
    ensures lo < hi ==> Sum(den, lo, hi) > 0.0
    ensures ShardOut(exp, Score(h), Value(h, d), m, lo, hi) ==
      if lo == hi then 0.0 else Sum(num, lo, hi) / Sum(den, lo, hi)
  {
    hide ExpLaws, Sum, Masked, Score;
    forall j: nat | lo <= j < hi
      ensures den(j) == ExpTerm(exp, Score(h), m)(j) && num(j) == ExpDotTerm(exp, Score(h), Value(h, d), m)(j)
    {
      ScoreWrittenOut(h, j, dots(j), score(j));
    }
    SumExt(den, ExpTerm(exp, Score(h), m), lo, hi);
    SumExt(num, ExpDotTerm(exp, Score(h), Value(h, d), m), lo, hi);
    if lo < hi {
      ExpSumPositive(exp, Score(h), m, lo, hi);
    }
  }

  /** The output is an average of the value rows: the weights w depend on query, keys, mask and scale only, are
      positive, add up to 1, and stand to each other in the ratio of the exponentials of the scores. */
  lemma HeadIsAverage(h: Head, exp: real -> real, d: nat, i: nat, j: nat, dots: int -> (int -> real),
                      score: int -> real, den: int -> real, w: int -> real, f: int -> real)
    requires ExpLaws(exp) && GoodHead(h) && d < h.headSize && i < |h.keys| && j < |h.keys|
    requires forall k: nat, e: nat :: k < |h.keys| && e < |h.q| ==> dots(k)(e) == h.q[e] * h.keys[k][e]
    requires forall k: nat :: k < |h.keys| ==> score(k) == Sum(dots(k), 0, |h.q|) * h.scale + h.mask[k]
    requires forall k: nat :: k < |h.keys| ==> den(k) == exp(score(k)) && w(k) * Sum(den, 0, |h.keys|) == den(k)
    requires forall k: nat :: k < |h.keys| ==> f(k) == w(k) * h.values[k][d]
    ensures Sum(w, 0, |h.keys|) == 1.0 && w(i) > 0.0 && w(i) == w(j) * exp(score(i) - score(j))
    ensures Attention(exp, Score(h), Value(h, d), |h.keys|) == Sum(f, 0, |h.keys|)
  {
    hide ExpLaws, Sum, Masked, Attention, Score;
    forall k: nat | k < |h.keys|
      ensures Score(h)(k) == score(k)
    {
      ScoreWrittenOut(h, k, dots(k), score(k));
    }
    AttentionIsAverage(exp, Score(h), Value(h, d), |h.keys|, den, w, f);
    TotalPositive(w(i), Sum(den, 0, |h.keys|), exp, score(i));
    RatioOfWeights(exp, score(i), score(j), w(i), w(j), Sum(den, 0, |h.keys|));
  }

  lemma TotalPositive(w: real, total: real, exp: real -> real, z: real)
    requires ExpLaws(exp) && w > 0.0 && w * total == exp(z)
    ensures total > 0.0
  {
    assert exp(z) > 0.0;
    hide ExpLaws;
  }

  /** Equal values come out unchanged, whatever query and keys are. */
  lemma EqualValuesStay(h: Head, exp: real -> real, d: nat, v: real)
    requires ExpLaws(exp) && GoodHead(h) && 0 < |h.keys| && d < h.headSize
    requires forall j: nat :: j < |h.keys| ==> h.values[j][d] == v
    ensures Attention(exp, Score(h), Value(h, d), |h.keys|) == v
  {
    var n := |h.keys|;
    var den, num := ExpTerm(exp, Score(h), 0.0), ExpDotTerm(exp, Score(h), Value(h, d), 0.0);
    hide ExpLaws, Sum, Score, ExpTerm, ExpDotTerm;
    ExpSumPositive(exp, Score(h), 0.0, 0, n);
    forall j: nat | j < n
      ensures num(j) == v * den(j)
    {
      UnshiftedTerms(exp, Score(h), Value(h, d), j);
    }
    SumScale(den, num, v, 0, n);
  }

  /** The statistics and buffers the workers of one head share; entry s belongs to worker s.
      Row s of the scratch buffer holds worker s's scores, then from column nb on its output. */
  class Scratch {
    const splits: nat
    const nb: nat
    const headSize: nat
    const splitMax: array<real>
    const splitSum: array<real>
    const flag: array<real>
    const tmpBuf: array2<real>

    ghost predicate Valid() {
      && splitMax.Length == splitSum.Length == flag.Length == tmpBuf.Length0 == splits
      && tmpBuf.Length1 == nb + headSize
      && splitMax != splitSum && splitMax != flag && splitSum != flag
    }

    constructor (splits: nat, nb: nat, headSize: nat)
      ensures Valid() && this.splits == splits && this.nb == nb && this.headSize == headSize
      ensures fresh(splitMax) && fresh(splitSum) && fresh(flag) && fresh(tmpBuf)
    {
      this.splits, this.nb, this.headSize := splits, nb, headSize;
      splitMax := new real[splits];
      splitSum := new real[splits];
      flag := new real[splits];
      tmpBuf := new real[splits, nb + headSize];
    }
  }

  /** Worker s has published the statistics and the output of the keys [lo, hi). */
  ghost predicate Published(w: Scratch, exp: real -> real, h: Head, s: nat, lo: int, hi: int)
    requires w.Valid() && ExpLaws(exp) && s < w.splits && lo <= hi
    reads w.splitMax, w.splitSum, w.tmpBuf
  {
    && (forall j :: lo <= j < hi ==> Score(h)(j) <= w.splitMax[s])
    && w.splitSum[s] == ExpSum(exp, Score(h), w.splitMax[s], lo, hi)
    && (forall d :: 0 <= d < w.headSize ==>
          w.tmpBuf[s, w.nb + d] == ShardOut(exp, Score(h), Value(h, d), w.splitMax[s], lo, hi))
  }

  /** Every cell but the first n of row s is as it was. */
  twostate predicate OnlyRowStart(tmp: array2<real>, s: nat, n: nat)
    reads tmp
  {
    forall r, c :: 0 <= r < tmp.Length0 && 0 <= c < tmp.Length1 && !(r == s && c < n) ==> tmp[r, c] == old(tmp[r, c])
  }

  /** A weight is divided by the sum of all of them. */
  function Share(e: real, sum: real): real {
    if sum > 0.0 then e * (1.0 / sum) else 0.0
  }

  /** softmaxWithStats on the first n entries of row s: exp and sum relative to the maximum, then
      normalise.  The maximum starts from the lowest representable number. */
  method SoftmaxWithStats(tmp: array2<real>, s: nat, n: nat, mask: seq<real>, scale: real, exp: real -> real,
                          lowest: real, ghost z: int -> real, ghost off: int)
    returns (maxVal: real, sum: real)
    requires ExpLaws(exp) && s < tmp.Length0 && n <= tmp.Length1 && |mask| == n
    requires forall j :: 0 <= j < n ==> z(off + j) == Masked(tmp[s, j], scale, mask[j])
    modifies tmp
    ensures forall j :: off <= j < off + n ==> z(j) <= maxVal
    ensures sum == ExpSum(exp, z, maxVal, off, off + n) && (n > 0 ==> sum > 0.0)
    ensures forall j :: 0 <= j < n ==> tmp[s, j] == Share(exp(z(off + j) - maxVal), sum)
    ensures OnlyRowStart(tmp, s, n)
  {
    hide ExpLaws, ExpSum;
    maxVal := lowest;
    for i := 0 to n
      invariant forall j :: off <= j < off + i ==> z(j) <= maxVal
    {
      assert z(off + i) == tmp[s, i] * scale + mask[i];
      if maxVal < tmp[s, i] * scale + mask[i] {
        maxVal := tmp[s, i] * scale + mask[i];
      }
    }
    sum := ExpAndSum(tmp, s, n, mask, scale, exp, maxVal, z, off);
    if n > 0 {
      ExpSumPositive(exp, z, maxVal, off, off + n);
      Normalise(tmp, s, n, 1.0 / sum);
    }
  }

  method ExpAndSum(tmp: array2<real>, s: nat, n: nat, mask: seq<real>, scale: real, exp: real -> real, maxVal: real,
                   ghost z: int -> real, ghost off: int)
    returns (sum: real)
    requires s < tmp.Length0 && n <= tmp.Length1 && |mask| == n
    requires forall j :: 0 <= j < n ==> z(off + j) == Masked(tmp[s, j], scale, mask[j])
    modifies tmp
    ensures sum == ExpSum(exp, z, maxVal, off, off + n)
    ensures forall j :: 0 <= j < n ==> tmp[s, j] == exp(z(off + j) - maxVal)
    ensures OnlyRowStart(tmp, s, n)
  {
    hide ExpSum, ExpTerm, Sum;
    sum := 0.0;
    EmptyRange(exp, z, z, maxVal, off);
    for i := 0 to n
      invariant sum == ExpSum(exp, z, maxVal, off, off + i)
      invariant forall j :: 0 <= j < i ==> tmp[s, j] == exp(z(off + j) - maxVal)
      invariant OnlyRowStart(tmp, s, i)
    {
      assert tmp[s, i] == old(tmp[s, i]);
      var score := tmp[s, i] * scale + mask[i];
      assert score == z(off + i);
      var x := exp(score - maxVal);
      tmp[s, i] := x;
      ExpNext(exp, z, z, maxVal, off, off + i);
      sum := sum + x;
    }
  }

  method Normalise(tmp: array2<real>, s: nat, n: nat, rsum: real)
    requires s < tmp.Length0 && n <= tmp.Length1
    modifies tmp
    ensures forall j :: 0 <= j < n ==> tmp[s, j] == old(tmp[s, j]) * rsum
    ensures OnlyRowStart(tmp, s, n)
  {
    for i := 0 to n
      invariant forall j :: 0 <= j < i ==> tmp[s, j] == old(tmp[s, j]) * rsum
      invariant OnlyRowStart(tmp, s, i)
    {
      assert tmp[s, i] == old(tmp[s, i]);
      tmp[s, i] := tmp[s, i] * rsum;
    }
  }

  /** The naive dot product that small_gemm_transb computes for one row (see GemmTransB). */
  method Dot(a: seq<real>, b: seq<real>) returns (c: real)
    requires |a| <= |b|
    ensures c == Sum(DotTerm(a, b), 0, |a|)
  {
    c := 0.0;
    for i := 0 to |a|
      invariant c == Sum(DotTerm(a, b), 0, i)
    {
      c := c + a[i] * b[i];
    }
  }

  /** One worker: scores of its keys, softmax with statistics, its share of the output, then the flag. */
  method ShardTask(w: Scratch, h: Head, s: nat, exp: real -> real, lowest: real)
    requires ExpLaws(exp) && w.Valid() && GoodHead(h) && s < w.splits && w.headSize == h.headSize
    requires w.nb == BlockSize(|h.keys|, w.splits)
    modifies w.splitMax, w.splitSum, w.flag, w.tmpBuf
    ensures Cut(|h.keys|, w.splits, s) <= Cut(|h.keys|, w.splits, s + 1)
    ensures Published(w, exp, h, s, Cut(|h.keys|, w.splits, s), Cut(|h.keys|, w.splits, s + 1))
    ensures w.flag[s] == 1.0
    ensures forall r :: 0 <= r < w.splits && r != s ==>
      w.flag[r] == old(w.flag[r]) && w.splitMax[r] == old(w.splitMax[r]) && w.splitSum[r] == old(w.splitSum[r])
    ensures forall r, c :: 0 <= r < w.splits && 0 <= c < w.nb + w.headSize && r != s ==>
      w.tmpBuf[r, c] == old(w.tmpBuf[r, c])
  {
    hide ExpLaws, ExpSum, ExpDot, Cut, ShardOut, Score, Value, Sum, BlockSize, Balance211;
    BalanceTiles(|h.keys|, w.splits, s);
    var (nOff, n) := Balance211(|h.keys|, w.splits, s);
    ScoreRow(w, h, s, nOff, n);
    var maxVal, sum := SoftmaxWithStats(w.tmpBuf, s, n, h.mask[nOff..nOff + n], h.scale, exp, lowest, Score(h), nOff);
    w.splitMax[s] := maxVal;
    w.splitSum[s] := sum;
    OutputRow(w, h, s, nOff, n, exp, maxVal, sum);
    w.flag[s] := 1.0;
  }

  lemma ScoreIs(h: Head, j: nat, dot: real)
    requires GoodHead(h) && j < |h.keys| && dot == Sum(DotTerm(h.q, h.keys[j]), 0, |h.q|)
    ensures Score(h)(j) == Masked(dot, h.scale, h.mask[j])
  {
  }

  /** Query times the keys [nOff, nOff + n). */
  method ScoreRow(w: Scratch, h: Head, s: nat, nOff: nat, n: nat)
    requires w.Valid() && GoodHead(h) && s < w.splits && nOff + n <= |h.keys| && n <= w.nb
    modifies w.tmpBuf
    ensures forall j :: 0 <= j < n ==> Score(h)(nOff + j) == Masked(w.tmpBuf[s, j], h.scale, h.mask[nOff..nOff + n][j])
    ensures OnlyRowStart(w.tmpBuf, s, n)
  {
    hide Score, Masked;
    for i := 0 to n
      invariant forall j :: 0 <= j < i ==>
        Score(h)(nOff + j) == Masked(w.tmpBuf[s, j], h.scale, h.mask[nOff..nOff + n][j])
      invariant OnlyRowStart(w.tmpBuf, s, i)
    {
      var dot := Dot(h.q, h.keys[nOff + i]);
      ScoreIs(h, nOff + i, dot);
      w.tmpBuf[s, i] := dot;
    }
  }

  /** The normalised scores times the values, one column of the head after the other. */
  method OutputRow(w: Scratch, h: Head, s: nat, nOff: nat, n: nat, exp: real -> real, maxVal: real, sum: real)
    requires ExpLaws(exp) && w.Valid() && GoodHead(h) && s < w.splits && nOff + n <= |h.keys| && n <= w.nb
      && w.headSize == h.headSize
    requires sum == ExpSum(exp, Score(h), maxVal, nOff, nOff + n) && (n > 0 ==> sum > 0.0)
    requires forall j :: 0 <= j < n ==> w.tmpBuf[s, j] == Share(exp(Score(h)(nOff + j) - maxVal), sum)
    modifies w.tmpBuf
    ensures forall d :: 0 <= d < w.headSize ==>
      w.tmpBuf[s, w.nb + d] == ShardOut(exp, Score(h), Value(h, d), maxVal, nOff, nOff + n)
    ensures forall r, c :: 0 <= r < w.splits && 0 <= c < w.nb + w.headSize && !(r == s && w.nb <= c) ==>
      w.tmpBuf[r, c] == old(w.tmpBuf[r, c])
  {
    hide ExpLaws, ExpSum, ShardOut, Score, Value;
    for d := 0 to w.headSize
      invariant forall k :: 0 <= k < d ==>
        w.tmpBuf[s, w.nb + k] == ShardOut(exp, Score(h), Value(h, k), maxVal, nOff, nOff + n)
      invariant forall r, c :: 0 <= r < w.splits && 0 <= c < w.nb + w.headSize && !(r == s && w.nb <= c) ==>
        w.tmpBuf[r, c] == old(w.tmpBuf[r, c])
    {
      var acc := OutputCell(w, h, s, nOff, n, exp, maxVal, sum, d);
      w.tmpBuf[s, w.nb + d] := acc;
    }
  }

  method OutputCell(w: Scratch, h: Head, s: nat, nOff: nat, n: nat, exp: real -> real, maxVal: real, sum: real, d: nat)
    returns (acc: real)
    requires ExpLaws(exp) && w.Valid() && GoodHead(h) && s < w.splits && nOff + n <= |h.keys| && n <= w.nb
      && d < h.headSize
    requires sum == ExpSum(exp, Score(h), maxVal, nOff, nOff + n) && (n > 0 ==> sum > 0.0)
    requires forall j :: 0 <= j < n ==> w.tmpBuf[s, j] == Share(exp(Score(h)(nOff + j) - maxVal), sum)
    ensures acc == ShardOut(exp, Score(h), Value(h, d), maxVal, nOff, nOff + n)
  {
    hide ExpLaws, ExpSum, ExpDot, Score;
    acc := 0.0;
    ghost var z, v := Score(h), Value(h, d);
    EmptyRange(exp, z, v, maxVal, nOff);
    for j := 0 to n
      invariant n > 0 ==> acc == ExpDot(exp, z, v, maxVal, nOff, nOff + j) / sum
      invariant n == 0 ==> acc == 0.0
    {
      ExpNext(exp, z, v, maxVal, nOff, nOff + j);
      assert v(nOff + j) == h.values[nOff + j][d];
      AccumulateRatio(ExpDot(exp, z, v, maxVal, nOff, nOff + j), exp(z(nOff + j) - maxVal), h.values[nOff + j][d], sum);
      acc := acc + w.tmpBuf[s, j] * h.values[nOff + j][d];
    }
  }

  lemma AccumulateRatio(a: real, e: real, v: real, sum: real)
    requires sum > 0.0
    ensures a / sum + Share(e, sum) * v == (a + e * v) / sum
  {
    var r := 1.0 / sum;
    assert a / sum == a * r;
    assert (a + e * v) / sum == (a + e * v) * r;
    assert (e * r) * v == (e * v) * r;
  }

  // ---------- the leader ----------

  /** All workers of the head have published. */
  ghost predicate AllPublished(w: Scratch, exp: real -> real, h: Head)
    requires w.Valid() && ExpLaws(exp) && 0 < w.splits
    reads w.splitMax, w.splitSum, w.tmpBuf
  {
    forall s: nat :: s < w.splits ==>
      (BalanceTiles(|h.keys|, w.splits, s);
       Published(w, exp, h, s, Cut(|h.keys|, w.splits, s), Cut(|h.keys|, w.splits, s + 1)))
  }

  ghost function MaxOf(splitMax: array<real>): int -> real
    reads splitMax
  {
    var m := splitMax[..];
    s => if 0 <= s < |m| then m[s] else 0.0
  }

  /** The leader: global maximum, revise factors into the flag slots, global sum, weighted outputs.
      The result is plain attention over all keys. */
  method Reduce(w: Scratch, h: Head, exp: real -> real) returns (result: seq<real>)
    requires ExpLaws(exp) && w.Valid() && GoodHead(h) && 0 < w.splits && 0 < |h.keys| && w.headSize == h.headSize
    requires AllPublished(w, exp, h)
    modifies w.flag
    ensures |result| == h.headSize
    ensures forall d :: 0 <= d < h.headSize ==> result[d] == Attention(exp, Score(h), Value(h, d), |h.keys|)
  {
    hide ExpLaws, ExpSum, ExpDot, ShardOut, Score, Value, Attention, Cut, Balance211, RealSum, Merged;
    ghost var n, m := |h.keys|, MaxOf(w.splitMax);
    var realMax := w.splitMax[0];
    for idx := 1 to w.splits
      invariant forall s :: 0 <= s < idx ==> w.splitMax[s] <= realMax
    {
      if w.splitMax[idx] > realMax {
        realMax := w.splitMax[idx];
      }
    }
    var realSum := SumOfShards(w, h, exp, realMax);
    RealSumPositive(exp, Score(h), m, realMax, n, w.splits);
    result := [];
    for d := 0 to w.headSize
      invariant |result| == d
      invariant forall k :: 0 <= k < d ==> result[k] == Attention(exp, Score(h), Value(h, k), n)
      invariant forall s :: 0 <= s < w.splits ==> w.flag[s] == exp(w.splitMax[s] - realMax)
    {
      var acc := MergeColumn(w, h, exp, realMax, realSum, d);
      ShardedIsAttention(exp, Score(h), Value(h, d), m, realMax, n, w.splits);
      result := result + [acc];
    }
  }

  lemma RealSumPositive(exp: real -> real, z: int -> real, m: int -> real, realMax: real, n: nat, splits: nat)
    requires ExpLaws(exp) && 0 < n && 0 < splits
    ensures RealSum(exp, z, m, realMax, n, splits, splits) > 0.0
  {
    ShardedIsAttention(exp, z, z, m, realMax, n, splits);
  }

  lemma ShardStatistics(w: Scratch, exp: real -> real, h: Head, s: nat)
    requires w.Valid() && ExpLaws(exp) && 0 < w.splits && AllPublished(w, exp, h) && s < w.splits
    ensures Cut(|h.keys|, w.splits, s) <= Cut(|h.keys|, w.splits, s + 1)
    ensures w.splitSum[s]
      == ExpSum(exp, Score(h), w.splitMax[s], Cut(|h.keys|, w.splits, s), Cut(|h.keys|, w.splits, s + 1))
  {
    hide ExpLaws, ExpSum, Score, Value, ShardOut, Cut, Balance211;
    BalanceTiles(|h.keys|, w.splits, s);
    assert Published(w, exp, h, s, Cut(|h.keys|, w.splits, s), Cut(|h.keys|, w.splits, s + 1));
  }

  lemma ShardOutput(w: Scratch, exp: real -> real, h: Head, s: nat, d: nat)
    requires w.Valid() && ExpLaws(exp) && 0 < w.splits && AllPublished(w, exp, h) && s < w.splits && d < w.headSize
    ensures Cut(|h.keys|, w.splits, s) <= Cut(|h.keys|, w.splits, s + 1)
    ensures w.tmpBuf[s, w.nb + d] ==
      ShardOut(exp, Score(h), Value(h, d), w.splitMax[s], Cut(|h.keys|, w.splits, s), Cut(|h.keys|, w.splits, s + 1))
  {
    hide ExpLaws, ExpSum, Score, Value, ShardOut, Cut, Balance211;
    BalanceTiles(|h.keys|, w.splits, s);
    assert Published(w, exp, h, s, Cut(|h.keys|, w.splits, s), Cut(|h.keys|, w.splits, s + 1));
  }

  /** The second pass: store the revise factors where the flags were and add up the revised sums. */
  method SumOfShards(w: Scratch, h: Head, exp: real -> real, realMax: real) returns (realSum: real)
    requires ExpLaws(exp) && w.Valid() && 0 < w.splits && AllPublished(w, exp, h)
    modifies w.flag
    ensures realSum == RealSum(exp, Score(h), MaxOf(w.splitMax), realMax, |h.keys|, w.splits, w.splits)
    ensures forall s :: 0 <= s < w.splits ==> w.flag[s] == exp(w.splitMax[s] - realMax)
  {
    hide ExpLaws, ExpSum, Score, Value, ShardOut, Cut, Balance211, RealSum, AllPublished, Published;
    ghost var n, m := |h.keys|, MaxOf(w.splitMax);
    RealSumNext(exp, Score(h), m, realMax, n, w.splits, 0);
    realSum := 0.0;
    for idx := 0 to w.splits
      invariant realSum == RealSum(exp, Score(h), m, realMax, n, w.splits, idx)
      invariant forall s :: 0 <= s < idx ==> w.flag[s] == exp(w.splitMax[s] - realMax)
    {
      ShardStatistics(w, exp, h, idx);
      var splitMax, splitSum := w.splitMax[idx], w.splitSum[idx];
      RealSumStep(exp, Score(h), m, realMax, n, w.splits, idx, splitMax, splitSum);
      var revFactor := exp(splitMax - realMax);
      realSum := realSum + splitSum * revFactor;
      w.flag[idx] := revFactor;
    }
  }

  /** One column of the third pass. */
  method MergeColumn(w: Scratch, h: Head, exp: real -> real, realMax: real, realSum: real, d: nat) returns (acc: real)
    requires ExpLaws(exp) && w.Valid() && 0 < w.splits && AllPublished(w, exp, h) && d < w.headSize && realSum > 0.0
    requires forall s :: 0 <= s < w.splits ==> w.flag[s] == exp(w.splitMax[s] - realMax)
    ensures acc == Merged(exp, Score(h), Value(h, d), MaxOf(w.splitMax), realMax, realSum, |h.keys|, w.splits, w.splits)
  {
    hide ExpLaws, ExpSum, Score, Value, ShardOut, Cut, Balance211, Merged, AllPublished;
    ghost var n, m, z, v := |h.keys|, MaxOf(w.splitMax), Score(h), Value(h, d);
    MergedNext(exp, z, v, m, realMax, realSum, n, w.splits, 0);
    acc := 0.0;
    for idx := 0 to w.splits
      invariant acc == Merged(exp, z, v, m, realMax, realSum, n, w.splits, idx)
    {
      ShardStatistics(w, exp, h, idx);
      ShardOutput(w, exp, h, idx, d);
      var revFactor, splitSum, out := w.flag[idx], w.splitSum[idx], w.tmpBuf[idx, w.nb + d];
      MergedStep(exp, z, v, m, realMax, realSum, n, w.splits, idx, revFactor, splitSum, out);
      var factor := revFactor * (splitSum / realSum);
      acc := acc + out * factor;
    }
  }

  /** The whole kernel for one head, workers first: its output row is plain attention. */
  method CrossAttnShardedHead(h: Head, splits: nat, exp: real -> real, lowest: real) returns (result: seq<real>)
    requires ExpLaws(exp) && GoodHead(h) && 0 < splits && 0 < |h.keys|
    ensures |result| == h.headSize
    ensures forall d :: 0 <= d < h.headSize ==> result[d] == Attention(exp, Score(h), Value(h, d), |h.keys|)
  {
    hide ExpLaws, ExpSum, ExpDot, ShardOut, Score, Value, Attention, Cut, Balance211, BlockSize;
    BalanceTiles(|h.keys|, splits, 0);
    var w := new Scratch(splits, BlockSize(|h.keys|, splits), h.headSize);
    for s := 0 to splits
      invariant forall k: nat :: k < s ==>
        (BalanceTiles(|h.keys|, splits, k);
          Published(w, exp, h, k, Cut(|h.keys|, splits, k), Cut(|h.keys|, splits, k + 1)))
    {
      ShardTask(w, h, s, exp, lowest);
    }
    result := Reduce(w, h, exp);
  }
}
