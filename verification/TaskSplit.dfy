/** Sharing N columns, rows or heads out to the ranks of a tensor-parallel group. */
module TaskSplit {
  import opened Sums
  import Arith

  /** The plain split, of heads. */
  function TaskRange(N: nat, splits: nat, splitIdx: nat): (int, int)
    requires 0 < splits
  {
    if N % splits == 0 then
      var tasksPerSplit := N / splits;
      (splitIdx * tasksPerSplit, splitIdx * tasksPerSplit + tasksPerSplit)
    else UnevenRange(N, splits, splitIdx)
  }

  /** The first N % splits ranks get one more than the others. */
  function UnevenRange(N: nat, splits: nat, splitIdx: nat): (int, int)
    requires 0 < splits
  {
    var base, remaining := N / splits, N % splits;
    if splitIdx < remaining then
      (splitIdx * (base + 1), splitIdx * (base + 1) + (base + 1))
    else
      var start := (base + 1) * remaining + (splitIdx - remaining) * base;
      (start, start + base)
  }

  /** The unit ranges are cut in when the even split by 64 does not work out. */
  function Granularity(N: nat): (g: nat)
    ensures 0 < g && N % g == 0
  {
    if N % 64 == 0 then 64 else if N % 16 == 0 then 16 else if N % 2 == 0 then 2 else 1
  }

  /** The split of weight columns and rows. */
  function WeightRange(N: nat, splits: nat, splitIdx: nat): (int, int)
    requires 0 < splits
  {
    if N % (splits * 64) == 0 then
      var tasksPerSplit := N / splits;
      (splitIdx * tasksPerSplit, splitIdx * tasksPerSplit + tasksPerSplit)
    else
      var g := Granularity(N);
      var range := UnevenRange(N / g, splits, splitIdx);
      (range.0 * g, range.1 * g)
  }

  // ---------- the cut points, defined independently ----------

  /** Where rank s starts: s even shares, and one more for each rank before it that has a spare. */
  function Cut(N: nat, splits: nat, s: int): int
    requires 0 < splits
  {
    s * (N / splits) + if s < N % splits then s else N % splits
  }

  lemma CutEnds(N: nat, splits: nat)
    requires 0 < splits
    ensures Cut(N, splits, 0) == 0 && Cut(N, splits, splits) == N
  {
    assert N == splits * (N / splits) + N % splits;
  }

  lemma CutGrows(N: nat, splits: nat, s: nat)
    requires 0 < splits
    ensures Cut(N, splits, s + 1) - Cut(N, splits, s) == N / splits + (if s < N % splits then 1 else 0)
  {
    Arith.Distribute(N / splits, s, 1);
    Arith.Swap(N / splits, s);
    Arith.Swap(N / splits, s + 1);
  }

  lemma UnevenIsCut(N: nat, splits: nat, s: nat)
    requires 0 < splits
    ensures UnevenRange(N, splits, s) == (Cut(N, splits, s), Cut(N, splits, s + 1))
  {
    var base, rem := N / splits, N % splits;
    CutGrows(N, splits, s);
    if s < rem {
      Arith.Distribute(s, base, 1);
    } else {
      Arith.Distribute(rem, base, 1);
      Arith.Swap(rem, base + 1);
      Arith.Distribute(base, s - rem, rem);
      Arith.Swap(base, s - rem);
      Arith.Swap(base, rem);
      Arith.Swap(base, s);
      assert (s - rem) + rem == s;
    }
  }

  /** The plain ranges tile [0, N): they follow one another, and the first N % splits of them are
      one longer than the others. */
  lemma RangesTile(N: nat, splits: nat, s: nat)
    requires 0 < splits && s < splits
    ensures TaskRange(N, splits, s) == (Cut(N, splits, s), Cut(N, splits, s + 1))
    ensures 0 <= Cut(N, splits, s) <= Cut(N, splits, s + 1) <= N
    ensures Cut(N, splits, s + 1) - Cut(N, splits, s) == N / splits + (if s < N % splits then 1 else 0)
    ensures Cut(N, splits, 0) == 0 && Cut(N, splits, splits) == N
  {
    PlainIsUneven(N, splits, s);
    hide TaskRange, UnevenRange, Cut;
    UnevenIsCut(N, splits, s);
    CutEnds(N, splits);
    CutGrows(N, splits, s);
    CutInside(N, splits, s);
    CutInside(N, splits, s + 1);
  }

  lemma PlainIsUneven(N: nat, splits: nat, s: nat)
    requires 0 < splits
    ensures TaskRange(N, splits, s) == UnevenRange(N, splits, s)
  {
  }

  lemma CutInside(N: nat, splits: nat, s: nat)
    requires 0 < splits && s <= splits
    ensures 0 <= Cut(N, splits, s) <= N
  {
    CutEnds(N, splits);
    Arith.MulMono(s, splits, N / splits);
    Arith.MulMono(0, s, N / splits);
  }

  // ---------- weight ranges ----------

  function WeightCut(N: nat, splits: nat, s: int): int
    requires 0 < splits
  {
    if N % (splits * 64) == 0 then s * (N / splits) else Cut(N / Granularity(N), splits, s) * Granularity(N)
  }

  /** The weight ranges tile [0, N) too, and every cut point but the last falls on the granularity, or
      on a multiple of 64 if the even split allows it. */
  lemma WeightRangesTile(N: nat, splits: nat, s: nat)
    requires 0 < splits && s < splits
    ensures WeightRange(N, splits, s) == (WeightCut(N, splits, s), WeightCut(N, splits, s + 1))
    ensures 0 <= WeightCut(N, splits, s) <= WeightCut(N, splits, s + 1) <= N
    ensures WeightCut(N, splits, 0) == 0 && WeightCut(N, splits, splits) == N
    ensures WeightCut(N, splits, s) % Granularity(N) == 0
  {
    if N % (splits * 64) == 0 {
      EvenCuts(N, splits, s);
    } else {
      var g := Granularity(N);
      var units := N / g;
      assert units * g == N;
      UnevenIsCut(units, splits, s);
      RangesTile(units, splits, s);
      CutEnds(units, splits);
      Arith.MulMono(Cut(units, splits, s), Cut(units, splits, s + 1), g);
      Arith.MulMono(Cut(units, splits, s + 1), units, g);
      Arith.MulMono(0, Cut(units, splits, s), g);
      Arith.DivMod(Cut(units, splits, s), g, 0);
    }
  }

  /** How much each rank gets: the same if the even split by 64 works out, else a number of units of 64, 16, 2 or 1, the
      largest that divides N, with the spare units on the first ranks. */
  lemma WeightRangeSizes(N: nat, splits: nat, s: nat, g: nat)
    requires s < splits && g == if N % 64 == 0 then 64 else if N % 16 == 0 then 16 else if N % 2 == 0 then 2 else 1
    ensures WeightRange(N, splits, s).1 - WeightRange(N, splits, s).0 ==
      if N % (splits * 64) == 0 then N / splits
      else (N / g / splits + (if s < N / g % splits then 1 else 0)) * g
  {
    if N % (splits * 64) != 0 {
      var units := N / g;
      hide Cut;
      UnevenIsCut(units, splits, s);
      CutGrows(units, splits, s);
      Arith.Distribute(g, Cut(units, splits, s), Cut(units, splits, s + 1) - Cut(units, splits, s));
      Arith.Swap(g, Cut(units, splits, s));
      Arith.Swap(g, Cut(units, splits, s + 1));
      Arith.Swap(g, Cut(units, splits, s + 1) - Cut(units, splits, s));
    }
  }

  lemma EvenCuts(N: nat, splits: nat, s: nat)
    requires 0 < splits && s < splits && N % (splits * 64) == 0
    ensures (s + 1) * (N / splits) == s * (N / splits) + N / splits
    ensures 0 <= s * (N / splits) <= (s + 1) * (N / splits) <= N == splits * (N / splits)
    ensures Granularity(N) == 64 && (s * (N / splits)) % 64 == 0
  {
    EvenShare(N, splits);
    var size, q := N / splits, N / (splits * 64);
    Arith.NextMultiple(s, size);
    Arith.MulMono(s + 1, splits, size);
    Arith.MulMono(0, s, size);
    Arith.Regroup(s, q, 64);
    Arith.Regroup(splits, q, 64);
    Arith.DivMod(s * q, 64, 0);
    Arith.DivMod(splits * q, 64, 0);
  }

  /** An even split by 64 gives every rank a multiple of 64. */
  lemma EvenShare(N: nat, splits: nat)
    requires 0 < splits && N % (splits * 64) == 0
    ensures N == splits * (N / splits) && N / splits == N / (splits * 64) * 64
  {
    var q := N / (splits * 64);
    assert N == (splits * 64) * q;
    Arith.Regroup(splits, q, 64);
    Arith.Regroup(splits, 64, q);
    Arith.Swap(splits, q * 64);
    Arith.DivMod(q * 64, splits, 0);
  }

  /** A sum over [0, N) is the sum of the sums over the pieces between rising cut points. */
  lemma {:induction false} PiecesSum(f: int -> real, cut: int -> int, piece: int -> real, n: nat)
    requires forall s :: 0 <= s < n ==> cut(s) <= cut(s + 1) && piece(s) == Sum(f, cut(s), cut(s + 1))
    ensures cut(0) <= cut(n) && Sum(f, cut(0), cut(n)) == Sum(piece, 0, n)
  {
    if n > 0 {
      PiecesSum(f, cut, piece, n - 1);
      SumSplit(f, cut(0), cut(n - 1), cut(n));
    }
  }
}
