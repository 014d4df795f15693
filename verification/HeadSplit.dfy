/** Grouped-query attention shared out by heads: the query heads and kv heads of a rank, the map from
    local query heads to local kv heads, and the slices of bias and output projection that follow. */
module HeadSplit {
  import opened HeadGroups
  import opened Sums
  import opened TaskSplit
  import Arith

  /** The head ranges a rank computes when it is set up. */
  datatype Heads = Heads(startQ: int, endQ: int, startKV: int, endKV: int) {
    function QNum(): int {
      endQ - startQ
    }

    function KVNum(): int {
      endKV - startKV
    }
  }

  function HeadsOf(attHeadNum: nat, kvHeadNum: nat, numSplit: nat, splitIdx: nat): Heads
    requires Grouped(attHeadNum, kvHeadNum) && 0 < numSplit
  {
    var range := TaskRange(attHeadNum, numSplit, splitIdx);
    var expandFactor := GroupSize(attHeadNum, kvHeadNum);
    Heads(range.0, range.1, range.0 / expandFactor, (range.1 - 1) / expandFactor + 1)
  }

  /** The query heads of the ranks follow one another from 0 to attHeadNum. */
  lemma QueryHeadsTile(attHeadNum: nat, kvHeadNum: nat, numSplit: nat, splitIdx: nat)
    requires Grouped(attHeadNum, kvHeadNum) && splitIdx < numSplit
    ensures var h := HeadsOf(attHeadNum, kvHeadNum, numSplit, splitIdx);
      && (h.startQ, h.endQ) == (Cut(attHeadNum, numSplit, splitIdx), Cut(attHeadNum, numSplit, splitIdx + 1))
      && 0 <= h.startQ <= h.endQ <= attHeadNum && 0 < h.endQ
      && (h.startQ < h.endQ <==> splitIdx < attHeadNum)
  {
    RangesTile(attHeadNum, numSplit, splitIdx);
    RangesTile(attHeadNum, numSplit, 0);
    CutEnds(attHeadNum, numSplit);
    hide TaskRange;
    if attHeadNum < numSplit {
      SmallQuotient(attHeadNum, numSplit);
    } else {
      LargeQuotient(attHeadNum, numSplit);
      Arith.MulMono(1, splitIdx + 1, attHeadNum / numSplit);
    }
  }

  lemma SmallQuotient(n: nat, d: nat)
    requires n < d
    ensures n / d == 0 && n % d == n
  {
  }

  lemma LargeQuotient(n: nat, d: nat)
    requires 0 < d <= n
    ensures n / d >= 1
  {
    assert n == d * (n / d) + n % d;
  }

  /** A rank that has query heads keeps exactly the kv heads they belong to: every one of its heads has its
      kv head in the range, the first and the last kv head each serve one of them, and there is
      one to share. */
  lemma KVRangeIsLeastCover(attHeadNum: nat, kvHeadNum: nat, numSplit: nat, splitIdx: nat)
    requires Grouped(attHeadNum, kvHeadNum) && splitIdx < numSplit
    ensures var h, g := HeadsOf(attHeadNum, kvHeadNum, numSplit, splitIdx), GroupSize(attHeadNum, kvHeadNum);
      && 0 <= h.startKV && h.endKV <= kvHeadNum
      && (forall q {:trigger q / g} :: h.startQ <= q < h.endQ ==> h.startKV <= q / g < h.endKV)
      && (h.startQ < h.endQ ==> h.startKV < h.endKV && h.startQ / g == h.startKV && (h.endQ - 1) / g == h.endKV - 1)
      && (h.startQ == h.endQ ==> h.startKV == h.endKV)
  {
    hide TaskRange, Cut, GroupSize;
    var h, g := HeadsOf(attHeadNum, kvHeadNum, numSplit, splitIdx), GroupSize(attHeadNum, kvHeadNum);
    QueryHeadsTile(attHeadNum, kvHeadNum, numSplit, splitIdx);
    if h.startQ == h.endQ {
      EmptyShareIsAtTheEnd(attHeadNum, numSplit, splitIdx);
    }
    LeastCover(h.startQ, h.endQ, g, kvHeadNum);
  }

  lemma LeastCover(startQ: int, endQ: int, g: nat, kvHeadNum: nat)
    requires 0 < g && 0 < kvHeadNum && 0 <= startQ <= endQ <= g * kvHeadNum && 0 < endQ
    requires startQ == endQ ==> startQ == g * kvHeadNum
    ensures 0 <= startQ / g && (endQ - 1) / g + 1 <= kvHeadNum
    ensures forall q {:trigger q / g} :: startQ <= q < endQ ==> startQ / g <= q / g < (endQ - 1) / g + 1
    ensures startQ < endQ ==> startQ / g < (endQ - 1) / g + 1
    ensures startQ == endQ ==> startQ / g == (endQ - 1) / g + 1
  {
    LastHead(kvHeadNum, g);
    QuotientMono(endQ - 1, g * kvHeadNum - 1, g);
    forall q | startQ <= q < endQ
      ensures startQ / g <= q / g < (endQ - 1) / g + 1
    {
      QuotientMono(startQ, q, g);
      QuotientMono(q, endQ - 1, g);
    }
    if startQ == endQ {
      Arith.DivMod(kvHeadNum, g, 0);
      Arith.Swap(kvHeadNum, g);
    } else {
      QuotientMono(startQ, endQ - 1, g);
    }
  }

  lemma LastHead(kvHeadNum: nat, g: nat)
    requires 0 < kvHeadNum && 0 < g
    ensures (g * kvHeadNum - 1) / g == kvHeadNum - 1
  {
    Arith.Distribute(g, kvHeadNum - 1, 1);
    Arith.Swap(g, kvHeadNum - 1);
    Arith.DivMod(kvHeadNum - 1, g, g - 1);
  }

  lemma EmptyShareIsAtTheEnd(N: nat, splits: nat, s: nat)
    requires s < splits && 0 < N && Cut(N, splits, s) == Cut(N, splits, s + 1)
    ensures Cut(N, splits, s) == N
  {
    CutGrows(N, splits, s);
    if N / splits == 0 {
      assert N == splits * (N / splits) + N % splits;
    }
  }

  lemma QuotientMono(a: int, b: int, g: nat)
    requires 0 <= a <= b && 0 < g
    ensures 0 <= a / g <= b / g
  {
    assert a == g * (a / g) + a % g && b == g * (b / g) + b % g;
    Arith.Swap(g, a / g);
    Arith.Swap(g, b / g);
    if b / g < a / g {
      Arith.MulMono(b / g + 1, a / g, g);
    }
  }

  // ---------- the local head map ----------

  /** The kernels divide the rank's query heads evenly over its kv heads. */
  function LocalKV(h: Heads, i: nat): int
    requires 0 < h.KVNum() <= h.QNum()
  {
    var groupNum := h.QNum() / h.KVNum();
    assert groupNum > 0 by { LargeQuotient(h.QNum(), h.KVNum()); }
    i / groupNum
  }

  /** The kv head of local query head i, counted from the rank's first kv head. */
  function GlobalKV(h: Heads, g: nat, i: nat): int
    requires 0 < g && 0 <= h.startQ
  {
    (h.startQ + i) / g - h.startKV
  }

  /** The kernels send every query head of the rank to its own kv head. */
  ghost predicate MapIsRight(h: Heads, g: nat)
    requires 0 < g && 0 <= h.startQ && 0 < h.KVNum() <= h.QNum()
  {
    forall i: nat {:trigger LocalKV(h, i)} :: i < h.QNum() ==> LocalKV(h, i) == GlobalKV(h, g, i)
  }

  /** Every kv head of the rank serves the same number of the rank's query heads. */
  predicate EvenlyServed(h: Heads, g: nat)
    requires 0 < g && 0 <= h.startQ
  {
    var first := g - h.startQ % g;
    h.KVNum() == 1 || (h.QNum() == h.KVNum() * first && (h.KVNum() == 2 || h.startQ % g == 0))
  }

  /** What the head ranges of a rank always satisfy. */
  predicate Covered(h: Heads, g: nat) {
    && 0 < g && 0 <= h.startQ < h.endQ && h.startKV == h.startQ / g && h.endKV == (h.endQ - 1) / g + 1
  }

  lemma CoveredSizes(h: Heads, g: nat)
    requires Covered(h, g)
    ensures var r := h.startQ % g; 0 < h.KVNum() && (h.KVNum() - 1) * g < r + h.QNum() <= h.KVNum() * g
    ensures h.KVNum() <= h.QNum()
  {
    var last := h.endQ - 1;
    QuotientMono(h.startQ, last, g);
    SpanOf(h.startQ / g, h.startQ % g, last / g, last % g, g, h.startQ, last);
    AtLeastOneEach(h.KVNum(), g, h.startQ % g, h.QNum());
  }

  /** From group p, place r, to group q, place t, of groups of g heads. */
  lemma SpanOf(p: int, r: int, q: int, t: int, g: nat, first: int, last: int)
    requires p <= q && 0 <= r < g && 0 <= t < g && first == g * p + r && last == g * q + t
    ensures (q - p) * g < r + (last + 1 - first) <= (q - p + 1) * g
  {
    Arith.Distribute(g, q - p, p);
    Arith.Swap(g, q - p);
    Arith.NextMultiple(q - p, g);
    assert (q - p) + p == q;
  }

  lemma AtLeastOneEach(k: int, g: nat, r: int, n: int)
    requires 0 < k && 0 <= r < g && (k - 1) * g < r + n && 0 < n
    ensures k <= n
  {
    if k >= 2 {
      Arith.MulMono(1, g, k - 2);
      Arith.Swap(g, k - 2);
      assert (k - 1) * g == (k - 2) * g + g;
    }
  }

  /** The kernels' map is the right one for all heads of a rank exactly if the rank's query heads are
      spread evenly over its kv heads. */
  lemma LocalMapIffEvenlyServed(h: Heads, g: nat)
    requires Covered(h, g)
    ensures 0 < h.KVNum() <= h.QNum()
    ensures EvenlyServed(h, g) <==> MapIsRight(h, g)
  {
    CoveredSizes(h, g);
    var n, k, r := h.QNum(), h.KVNum(), h.startQ % g;
    LargeQuotient(n, k);
    var local := n / k;
    if EvenlyServed(h, g) {
      forall i: nat | i < n
        ensures LocalKV(h, i) == GlobalKV(h, g, i)
      {
        EvenMap(h, g, i);
      }
    } else {
      var i := UnevenWitness(n, k, g, r, local);
      GlobalFromRemainder(h, g, i);
      assert LocalKV(h, i) != GlobalKV(h, g, i);
    }
  }

  lemma GlobalFromRemainder(h: Heads, g: nat, i: nat)
    requires Covered(h, g)
    ensures GlobalKV(h, g, i) == (h.startQ % g + i) / g
  {
    var r := h.startQ % g;
    var q := (r + i) / g;
    assert r + i == g * q + (r + i) % g;
    assert h.startQ == g * h.startKV + r;
    Arith.Distribute(g, h.startKV, q);
    Arith.Swap(g, h.startKV + q);
    Arith.DivMod(h.startKV + q, g, (r + i) % g);
  }

  lemma EvenMap(h: Heads, g: nat, i: nat)
    requires Covered(h, g) && 0 < h.KVNum() <= h.QNum() && EvenlyServed(h, g) && i < h.QNum()
    ensures LocalKV(h, i) == GlobalKV(h, g, i)
  {
    CoveredSizes(h, g);
    GlobalFromRemainder(h, g, i);
    var n, k, r := h.QNum(), h.KVNum(), h.startQ % g;
    if k == 1 {
      SmallQuotient(i, n);
      SmallQuotient(r + i, g);
    } else {
      Arith.DivMod(g - r, k, 0);
      Arith.Swap(k, g - r);
      assert n / k == g - r;
      if r != 0 {
        TwoHalves(i, g - r, g, r);
      }
    }
  }

  /** Two groups of equal size. */
  lemma TwoHalves(i: nat, half: int, g: nat, r: int)
    requires 0 < half && half == g - r && 0 < r < g && i < 2 * half
    ensures i / half == (r + i) / g
  {
    if i < half {
      SmallQuotient(i, half);
      SmallQuotient(r + i, g);
    } else {
      Arith.DivMod(1, half, i - half);
      Arith.DivMod(1, g, r + i - g);
    }
  }

  /** If the heads are not spread evenly, some head is sent to the wrong kv head. */
  lemma UnevenWitness(n: nat, k: nat, g: nat, r: nat, local: nat) returns (i: nat)
    requires 0 < k <= n && 0 < g && r < g && local == n / k && 0 < local
    requires (k - 1) * g < r + n <= k * g
    requires !(k == 1 || (n == k * (g - r) && (k == 2 || r == 0)))
    ensures i < n && i / local != (r + i) / g
  {
    var first := g - r;
    assert k >= 2;
    assert n == k * local + n % k;
    assert g < r + n by { Arith.MulMono(1, k - 1, g); }
    if first < local {
      i := first;
      SmallQuotient(i, local);
      Arith.DivMod(1, g, 0);
    } else if local < first {
      i := local;
      Arith.DivMod(1, local, 0);
      SmallQuotient(r + i, g);
    } else if n % k != 0 {
      Arith.Swap(k, local);
      i := k * local;
      Arith.DivMod(k, local, 0);
      LastGroup(r + i, k, g);
    } else {
      assert k >= 3 && r != 0;
      Arith.Swap(k, local);
      Arith.MulMono(3, k, local);
      i := 2 * local;
      ThirdGroup(local, g, r);
    }
  }

  /** With r heads missing from the first group, the head that should start the third is still in the
      second. */
  lemma ThirdGroup(local: nat, g: nat, r: nat)
    requires 0 < r < g && local == g - r
    ensures (2 * local) / local == 2 && (r + 2 * local) / g == 1
  {
    Arith.DivMod(2, local, 0);
    Arith.DivMod(1, g, g - r);
  }

  lemma LastGroup(x: int, k: int, g: nat)
    requires 0 <= x < k * g && 0 < g
    ensures x / g < k
  {
    Arith.DivBounds(x, g, k);
  }

  // ---------- the two configurations the map is meant for ----------

  lemma CoveredRank(attHeadNum: nat, kvHeadNum: nat, numSplit: nat, splitIdx: nat)
    requires Grouped(attHeadNum, kvHeadNum) && splitIdx < numSplit && splitIdx < attHeadNum
    ensures Covered(HeadsOf(attHeadNum, kvHeadNum, numSplit, splitIdx), GroupSize(attHeadNum, kvHeadNum))
  {
    QueryHeadsTile(attHeadNum, kvHeadNum, numSplit, splitIdx);
  }

  /** On every rank that has heads, for every configuration: the kernels' map is the right one for all of
      them exactly if they are spread evenly over the rank's kv heads. */
  lemma LocalMapOfRankIff(attHeadNum: nat, kvHeadNum: nat, numSplit: nat, splitIdx: nat)
    requires Grouped(attHeadNum, kvHeadNum) && splitIdx < numSplit && splitIdx < attHeadNum
    ensures var h, g := HeadsOf(attHeadNum, kvHeadNum, numSplit, splitIdx), GroupSize(attHeadNum, kvHeadNum);
      && 0 <= h.startQ && 0 < h.KVNum() <= h.QNum()
      && (EvenlyServed(h, g) <==> MapIsRight(h, g))
  {
    hide HeadsOf, EvenlyServed;
    CoveredRank(attHeadNum, kvHeadNum, numSplit, splitIdx);
    LocalMapIffEvenlyServed(HeadsOf(attHeadNum, kvHeadNum, numSplit, splitIdx), GroupSize(attHeadNum, kvHeadNum));
  }

  /** The same written out: with n query heads and k kv heads on the rank, query head i is sent to i / (n / k), and its
      own kv head is (startQ + i) / (attHeadNum / kvHeadNum), counted from the rank's first kv head. */
  lemma LocalMapWrittenOut(attHeadNum: nat, kvHeadNum: nat, numSplit: nat, splitIdx: nat, g: nat, startQ: int,
                           endQ: int, startKV: int, endKV: int)
    requires Grouped(attHeadNum, kvHeadNum) && splitIdx < numSplit && splitIdx < attHeadNum
    requires 0 < g && g == attHeadNum / kvHeadNum
    requires startQ == Cut(attHeadNum, numSplit, splitIdx) && endQ == Cut(attHeadNum, numSplit, splitIdx + 1)
    requires startKV == startQ / g && endKV == (endQ - 1) / g + 1
    ensures 0 < endKV - startKV && 0 < (endQ - startQ) / (endKV - startKV)
    ensures var n, k, first := endQ - startQ, endKV - startKV, g - startQ % g; var size := n / k;
      k == 1 || (n == k * first && (k == 2 || startQ % g == 0))
      <==> forall i: nat {:trigger i / size} :: i < n ==> i / size == (startQ + i) / g - startKV
  {
    hide Cut, TaskRange, MapIsRight, EvenlyServed;
    QueryHeadsTile(attHeadNum, kvHeadNum, numSplit, splitIdx);
    LocalMapOfRankIff(attHeadNum, kvHeadNum, numSplit, splitIdx);
    var h := HeadsOf(attHeadNum, kvHeadNum, numSplit, splitIdx);
    assert h == Heads(startQ, endQ, startKV, endKV);
    MapWrittenOut(h, g);
  }

  lemma MapWrittenOut(h: Heads, g: nat)
    requires 0 < g && 0 <= h.startQ && 0 < h.KVNum() <= h.QNum()
    ensures 0 < h.QNum() / h.KVNum()
    ensures var size := h.QNum() / h.KVNum(); MapIsRight(h, g) <==>
      forall i: nat {:trigger i / size} :: i < h.QNum() ==> i / size == (h.startQ + i) / g - h.startKV
    ensures EvenlyServed(h, g) <==> (h.KVNum() == 1 ||
      (h.QNum() == h.KVNum() * (g - h.startQ % g) && (h.KVNum() == 2 || h.startQ % g == 0)))
  {
    LargeQuotient(h.QNum(), h.KVNum());
    var size := h.QNum() / h.KVNum();
    if MapIsRight(h, g) {
      forall i: nat | i < h.QNum()
        ensures i / size == (h.startQ + i) / g - h.startKV
      {
        assert LocalKV(h, i) == GlobalKV(h, g, i);
      }
    }
  }

  /** Whole kv heads per rank, or whole ranks per kv head: the map is right on every rank. */
  lemma EvenConfigurations(attHeadNum: nat, kvHeadNum: nat, numSplit: nat, splitIdx: nat)
    requires Grouped(attHeadNum, kvHeadNum) && splitIdx < numSplit
    requires kvHeadNum % numSplit == 0 || (attHeadNum % numSplit == 0 && numSplit % kvHeadNum == 0)
    ensures var h, g := HeadsOf(attHeadNum, kvHeadNum, numSplit, splitIdx), GroupSize(attHeadNum, kvHeadNum);
      Covered(h, g) && 0 < h.KVNum() <= h.QNum() && EvenlyServed(h, g) && MapIsRight(h, g)
  {
    EvenlyServedConfigurations(attHeadNum, kvHeadNum, numSplit, splitIdx);
    hide HeadsOf, EvenlyServed, Covered;
    LocalMapIffEvenlyServed(HeadsOf(attHeadNum, kvHeadNum, numSplit, splitIdx), GroupSize(attHeadNum, kvHeadNum));
  }

  lemma EvenlyServedConfigurations(attHeadNum: nat, kvHeadNum: nat, numSplit: nat, splitIdx: nat)
    requires Grouped(attHeadNum, kvHeadNum) && splitIdx < numSplit
    requires kvHeadNum % numSplit == 0 || (attHeadNum % numSplit == 0 && numSplit % kvHeadNum == 0)
    ensures var h, g := HeadsOf(attHeadNum, kvHeadNum, numSplit, splitIdx), GroupSize(attHeadNum, kvHeadNum);
      Covered(h, g) && EvenlyServed(h, g)
  {
    var g := GroupSize(attHeadNum, kvHeadNum);
    if kvHeadNum % numSplit == 0 {
      WholeKVHeads(attHeadNum, kvHeadNum, numSplit, splitIdx, kvHeadNum / numSplit, g);
    } else {
      WholeRanks(attHeadNum, kvHeadNum, numSplit, splitIdx, attHeadNum / numSplit, numSplit / kvHeadNum, g);
    }
  }

  lemma WholeKVHeads(attHeadNum: nat, kvHeadNum: nat, numSplit: nat, splitIdx: nat, c: nat, g: nat)
    requires Grouped(attHeadNum, kvHeadNum) && splitIdx < numSplit && g == GroupSize(attHeadNum, kvHeadNum)
    requires kvHeadNum == numSplit * c
    ensures var h := HeadsOf(attHeadNum, kvHeadNum, numSplit, splitIdx); Covered(h, g) && EvenlyServed(h, g)
  {
    Arith.Factors(numSplit, c);
    var size := g * c;
    Arith.Factors2(g, c);
    assert attHeadNum == size * numSplit by {
      assert g * (numSplit * c) == (g * c) * numSplit;
    }
    EvenHeads(attHeadNum, kvHeadNum, numSplit, splitIdx, size);
    var h := HeadsOf(attHeadNum, kvHeadNum, numSplit, splitIdx);
    assert h.startQ == (splitIdx * c) * g by {
      assert splitIdx * (g * c) == (splitIdx * c) * g;
    }
    assert h.endQ == (splitIdx * c + c) * g by {
      assert splitIdx * (g * c) + g * c == (splitIdx * c + c) * g;
    }
    Arith.DivMod(splitIdx * c, g, 0);
    assert h.endQ - 1 == (splitIdx * c + c - 1) * g + (g - 1) by {
      assert (splitIdx * c + c) * g == (splitIdx * c + c - 1) * g + g;
    }
    Arith.DivMod(splitIdx * c + c - 1, g, g - 1);
    Arith.Swap(g, c);
  }

  lemma WholeRanks(attHeadNum: nat, kvHeadNum: nat, numSplit: nat, splitIdx: nat, size: nat, c: nat, g: nat)
    requires Grouped(attHeadNum, kvHeadNum) && splitIdx < numSplit && g == GroupSize(attHeadNum, kvHeadNum)
    requires attHeadNum == numSplit * size && numSplit == kvHeadNum * c
    ensures var h := HeadsOf(attHeadNum, kvHeadNum, numSplit, splitIdx); Covered(h, g) && EvenlyServed(h, g)
  {
    hide GroupSize;
    Arith.Factors(numSplit, size);
    Arith.Factors(kvHeadNum, c);
    Arith.Swap(numSplit, size);
    EvenHeads(attHeadNum, kvHeadNum, numSplit, splitIdx, size);
    RanksPerGroup(g, c, size, kvHeadNum);
    SameGroup(splitIdx, c, size, g);
  }

  lemma RanksPerGroup(g: nat, c: nat, size: nat, kvHeadNum: nat)
    requires 0 < kvHeadNum && g * kvHeadNum == (kvHeadNum * c) * size
    ensures g == c * size
  {
    assert (kvHeadNum * c) * size == (c * size) * kvHeadNum;
    Arith.CancelRight(g, c * size, kvHeadNum);
  }

  /** The first and the last head of a rank are in the same group. */
  lemma SameGroup(splitIdx: nat, c: nat, size: nat, g: nat)
    requires 0 < c && 0 < size && g == c * size
    ensures (splitIdx * size) / g == (splitIdx * size + size - 1) / g
  {
    var kv, part := splitIdx / c, splitIdx % c;
    var at := part * size;
    assert splitIdx * size == kv * g + at by {
      assert splitIdx == c * kv + part;
      assert (c * kv + part) * size == kv * (c * size) + part * size;
    }
    Arith.CellInRange(part, size - 1, c, size);
    Arith.MulMono(0, part, size);
    Arith.DivMod(kv, g, at);
    Arith.DivMod(kv, g, at + size - 1);
  }

  lemma EvenHeads(attHeadNum: nat, kvHeadNum: nat, numSplit: nat, splitIdx: nat, size: nat)
    requires Grouped(attHeadNum, kvHeadNum) && splitIdx < numSplit && attHeadNum == size * numSplit && 0 < size
    ensures var h := HeadsOf(attHeadNum, kvHeadNum, numSplit, splitIdx);
      h.startQ == splitIdx * size && h.endQ == splitIdx * size + size
    ensures 0 <= splitIdx * size
  {
    Arith.DivMod(size, numSplit, 0);
    Arith.MulMono(0, splitIdx, size);
  }

  // ---------- slices that follow the heads ----------

  /** The query bias is read at splitIdx times the rank's own width.  That is where its heads start
      exactly if the heads divide evenly or the rank is one of those with a spare head. */
  lemma BiasOffsetIff(attHeadNum: nat, kvHeadNum: nat, numSplit: nat, splitIdx: nat, headSize: nat)
    requires Grouped(attHeadNum, kvHeadNum) && splitIdx < numSplit && 0 < headSize
    ensures var h := HeadsOf(attHeadNum, kvHeadNum, numSplit, splitIdx);
      splitIdx * (h.QNum() * headSize) == h.startQ * headSize <==>
        attHeadNum % numSplit == 0 || splitIdx < attHeadNum % numSplit
  {
    hide TaskRange, Cut;
    var h := HeadsOf(attHeadNum, kvHeadNum, numSplit, splitIdx);
    QueryHeadsTile(attHeadNum, kvHeadNum, numSplit, splitIdx);
    CutGrows(attHeadNum, numSplit, splitIdx);
    SameOffset(splitIdx, h.QNum(), h.startQ, headSize);
    SharesBefore(attHeadNum, numSplit, splitIdx, h.QNum());
  }

  lemma SameOffset(s: nat, n: int, start: int, headSize: nat)
    requires 0 < headSize
    ensures s * (n * headSize) == start * headSize <==> s * n == start
  {
    assert s * (n * headSize) == (s * n) * headSize;
    if s * (n * headSize) == start * headSize {
      Arith.CancelRight(s * n, start, headSize);
    }
  }

  lemma SharesBefore(N: nat, splits: nat, s: nat, n: int)
    requires 0 < splits && n == N / splits + (if s < N % splits then 1 else 0)
    ensures s * n == Cut(N, splits, s) <==> N % splits == 0 || s < N % splits
  {
    Arith.Distribute(s, N / splits, 1);
  }

  /** No bias is off on any rank exactly if the heads divide evenly. */
  lemma BiasRightEverywhereIff(attHeadNum: nat, kvHeadNum: nat, numSplit: nat, headSize: nat)
    requires Grouped(attHeadNum, kvHeadNum) && 0 < numSplit && 0 < headSize
    ensures attHeadNum % numSplit == 0 <==>
      forall s: nat {:trigger HeadsOf(attHeadNum, kvHeadNum, numSplit, s)} :: s < numSplit ==>
        s * (HeadsOf(attHeadNum, kvHeadNum, numSplit, s).QNum() * headSize)
          == HeadsOf(attHeadNum, kvHeadNum, numSplit, s).startQ * headSize
  {
    hide HeadsOf;
    forall s: nat | s < numSplit
      ensures (s * (HeadsOf(attHeadNum, kvHeadNum, numSplit, s).QNum() * headSize)
               == HeadsOf(attHeadNum, kvHeadNum, numSplit, s).startQ * headSize)
        <==> attHeadNum % numSplit == 0 || s < attHeadNum % numSplit
    {
      BiasOffsetIff(attHeadNum, kvHeadNum, numSplit, s, headSize);
    }
    if attHeadNum % numSplit != 0 {
      var s := attHeadNum % numSplit;
      assert s * (HeadsOf(attHeadNum, kvHeadNum, numSplit, s).QNum() * headSize)
        != HeadsOf(attHeadNum, kvHeadNum, numSplit, s).startQ * headSize;
    }
  }

  /** Column cut points of the output projection. */
  function ColumnCut(attHeadNum: nat, numSplit: nat, headSize: nat, s: int): int
    requires 0 < numSplit
  {
    Cut(attHeadNum, numSplit, s) * headSize
  }

  function ColumnCuts(attHeadNum: nat, numSplit: nat, headSize: nat): int -> int
    requires 0 < numSplit
  {
    s => ColumnCut(attHeadNum, numSplit, headSize, s)
  }

  lemma ColumnCutsGrow(attHeadNum: nat, numSplit: nat, headSize: nat, s: nat)
    requires s < numSplit
    ensures ColumnCut(attHeadNum, numSplit, headSize, 0) == 0
    ensures ColumnCut(attHeadNum, numSplit, headSize, numSplit) == attHeadNum * headSize && 0 <= attHeadNum * headSize
    ensures ColumnCut(attHeadNum, numSplit, headSize, s) <= ColumnCut(attHeadNum, numSplit, headSize, s + 1)
  {
    hide Cut, TaskRange;
    CutEnds(attHeadNum, numSplit);
    RangesTile(attHeadNum, numSplit, s);
    Arith.MulMono(Cut(attHeadNum, numSplit, s), Cut(attHeadNum, numSplit, s + 1), headSize);
    Arith.MulMono(0, attHeadNum, headSize);
  }

  function ProjectionPiece(f: int -> real, attHeadNum: nat, numSplit: nat, headSize: nat): int -> real
    requires 0 < numSplit
  {
    s => if ColumnCut(attHeadNum, numSplit, headSize, s) <= ColumnCut(attHeadNum, numSplit, headSize, s + 1)
         then Sum(f, ColumnCut(attHeadNum, numSplit, headSize, s), ColumnCut(attHeadNum, numSplit, headSize, s + 1))
           else 0.0
  }

  /** Each rank projects the columns of its own heads; with f the products along one output cell, the
      ranks' parts add up to the projection of all heads, split evenly or not. */
  lemma OutputProjectionAddsUp(f: int -> real, attHeadNum: nat, numSplit: nat, headSize: nat)
    requires 0 < numSplit
    ensures 0 <= attHeadNum * headSize
    ensures Sum(ProjectionPiece(f, attHeadNum, numSplit, headSize), 0, numSplit) == Sum(f, 0, attHeadNum * headSize)
  {
    hide Sum, ColumnCuts, ProjectionPiece;
    var cut, piece := ColumnCuts(attHeadNum, numSplit, headSize), ProjectionPiece(f, attHeadNum, numSplit, headSize);
    forall s: nat | s < numSplit
      ensures cut(s) <= cut(s + 1) && piece(s) == Sum(f, cut(s), cut(s + 1))
    {
      PieceOfRank(f, attHeadNum, numSplit, headSize, s);
    }
    PieceOfRank(f, attHeadNum, numSplit, headSize, 0);
    PiecesSum(f, cut, piece, numSplit);
  }

  lemma PieceOfRank(f: int -> real, attHeadNum: nat, numSplit: nat, headSize: nat, s: nat)
    requires s < numSplit
    ensures var cut := ColumnCuts(attHeadNum, numSplit, headSize);
      && cut(0) == 0 && cut(numSplit) == attHeadNum * headSize && 0 <= attHeadNum * headSize
      && cut(s) <= cut(s + 1) && ProjectionPiece(f, attHeadNum, numSplit, headSize)(s) == Sum(f, cut(s), cut(s + 1))
  {
    hide Sum, ColumnCut;
    ColumnCutsGrow(attHeadNum, numSplit, headSize, s);
  }
}
