/** Flattened parallel loops: one task number stands for (batch, head, block), or for (batch, kv head,
    token), and std::upper_bound over running totals finds the batch again. */
module TaskDecode {
  import Arith

  const M_BLOCK_SIZE: nat := 32

  /** c[0] + ... + c[k - 1] */
  function Total(c: seq<nat>, k: nat): nat
    requires k <= |c|
  {
    if k == 0 then 0 else Total(c, k - 1) + c[k - 1]
  }

  lemma TotalEmpty(c: seq<nat>)
    ensures Total(c, 0) == 0
  {
  }

  lemma TotalNext(c: seq<nat>, k: nat)
    requires k < |c|
    ensures Total(c, k + 1) == Total(c, k) + c[k]
  {
  }

  lemma {:induction false} TotalMono(c: seq<nat>, j: nat, k: nat)
    requires j <= k <= |c|
    ensures Total(c, j) <= Total(c, k)
  {
    if j < k {
      TotalMono(c, j, k - 1);
    }
  }

  function Blocks(tokens: nat): nat {
    (tokens + M_BLOCK_SIZE - 1) / M_BLOCK_SIZE
  }

  function BlockCounts(tokenSizes: seq<nat>): (c: seq<nat>)
    ensures |c| == |tokenSizes|
    ensures forall i :: 0 <= i < |c| ==> c[i] == Blocks(tokenSizes[i])
  {
    seq(|tokenSizes|, i requires 0 <= i < |tokenSizes| => Blocks(tokenSizes[i]))
  }

  /** The running totals the kernel prepares: where each sample's tokens start, where its blocks end. */
  method Tables(tokenSizes: seq<nat>) returns (offsets: array<int>, blkEndIndex: array<int>, totalTokenSize: nat)
    ensures fresh(offsets) && fresh(blkEndIndex)
    ensures offsets.Length == blkEndIndex.Length == |tokenSizes|
    ensures forall i :: 0 <= i < |tokenSizes| ==> offsets[i] == Total(tokenSizes, i)
    ensures forall i :: 0 <= i < |tokenSizes| ==> blkEndIndex[i] == Total(BlockCounts(tokenSizes), i + 1)
    ensures totalTokenSize == Total(tokenSizes, |tokenSizes|)
  {
    hide Blocks, BlockCounts, Total;
    var n := |tokenSizes|;
    offsets, blkEndIndex := new int[n], new int[n];
    totalTokenSize := 0;
    ghost var counts := BlockCounts(tokenSizes);
    TotalEmpty(tokenSizes);
    TotalEmpty(counts);
    for i := 0 to n
      invariant forall k :: 0 <= k < i ==> offsets[k] == Total(tokenSizes, k)
      invariant forall k :: 0 <= k < i ==> blkEndIndex[k] == Total(counts, k + 1)
      invariant totalTokenSize == Total(tokenSizes, i)
    {
      TotalNext(tokenSizes, i);
      TotalNext(counts, i);
      if i > 0 {
        TotalNext(tokenSizes, i - 1);
      }
      offsets[i] := if i == 0 then 0 else offsets[i - 1] + tokenSizes[i - 1];
      var curBlks := Blocks(tokenSizes[i]);
      blkEndIndex[i] := if i == 0 then curBlks else blkEndIndex[i - 1] + curBlks;
      totalTokenSize := totalTokenSize + tokenSizes[i];
    }
  }

  // ---------- std::upper_bound ----------

  predicate Sorted(a: seq<int>) {
    forall i, j :: 0 <= i <= j < |a| ==> a[i] <= a[j]
  }

  /** k is the first position whose element exceeds x, |a| if there is none. */
  predicate IsUpperBound(a: seq<int>, x: int, k: int) {
    && 0 <= k <= |a|
    && (forall i :: 0 <= i < k ==> a[i] <= x)
    && (forall i :: k <= i < |a| ==> x < a[i])
  }

  method UpperBound(a: array<int>, x: int) returns (k: nat)
    requires Sorted(a[..])
    ensures IsUpperBound(a[..], x, k)
  {
    var first, count := 0, a.Length;
    while count > 0
      invariant 0 <= first <= first + count <= a.Length
      invariant forall i :: 0 <= i < first ==> a[i] <= x
      invariant forall i :: first + count <= i < a.Length ==> x < a[i]
    {
      var step := count / 2;
      if a[first + step] <= x {
        assert forall i :: 0 <= i <= first + step ==> a[..][i] <= a[..][first + step];
        first := first + step + 1;
        count := count - step - 1;
      } else {
        assert forall i :: first + step <= i < a.Length ==> a[..][first + step] <= a[..][i];
        count := step;
      }
    }
    k := first;
  }

  // ---------- (batch, head, block) ----------

  datatype Task = Task(b: nat, i: nat, mb: nat)

  predicate InLoop(counts: seq<nat>, heads: nat, t: Task) {
    t.b < |counts| && t.i < heads && t.mb < counts[t.b]
  }

  /** The number of a triple in the order of the nested loops over batch, head, block. */
  function Number(counts: seq<nat>, heads: nat, t: Task): nat
    requires t.b < |counts|
  {
    heads * Total(counts, t.b) + t.i * counts[t.b] + t.mb
  }

  /** The decoding at the head of the kernel's task body. */
  method Decode(blkEndIndex: array<int>, heads: nat, taskIdx: nat, ghost counts: seq<nat>) returns (t: Task)
    requires 0 < heads && blkEndIndex.Length == |counts|
    requires forall i :: 0 <= i < |counts| ==> blkEndIndex[i] == Total(counts, i + 1)
    requires taskIdx < heads * Total(counts, |counts|)
    ensures InLoop(counts, heads, t) && Number(counts, heads, t) == taskIdx
  {
    EndsSorted(counts, blkEndIndex[..]);
    var b := UpperBound(blkEndIndex, taskIdx / heads);
    BatchOfTask(counts, heads, taskIdx, blkEndIndex[..], b);
    var batchStartIdx := if b > 0 then heads * blkEndIndex[b - 1] else 0;
    var offset := taskIdx - batchStartIdx;
    var blkSize := if b > 0 then blkEndIndex[b] - blkEndIndex[b - 1] else blkEndIndex[b];
    assert blkSize == counts[b] && batchStartIdx == heads * Total(counts, b);
    Arith.DivBounds(offset, blkSize, heads);
    t := Task(b, offset / blkSize, offset % blkSize);
  }

  lemma EndsSorted(counts: seq<nat>, ends: seq<int>)
    requires |ends| == |counts| && forall i :: 0 <= i < |counts| ==> ends[i] == Total(counts, i + 1)
    ensures Sorted(ends)
  {
    forall i, j | 0 <= i <= j < |ends|
      ensures ends[i] <= ends[j]
    {
      TotalMono(counts, i + 1, j + 1);
    }
  }

  /** Dividing the task number by the head count leaves the sample's run of blocks recognisable. */
  lemma BatchOfTask(counts: seq<nat>, heads: nat, taskIdx: nat, ends: seq<int>, b: nat)
    requires 0 < heads && |ends| == |counts|
    requires forall i :: 0 <= i < |counts| ==> ends[i] == Total(counts, i + 1)
    requires taskIdx < heads * Total(counts, |counts|)
    requires IsUpperBound(ends, taskIdx / heads, b)
    ensures b < |counts|
    ensures heads * Total(counts, b) <= taskIdx < heads * Total(counts, b) + heads * counts[b]
    ensures 0 < counts[b]
  {
    hide Total, IsUpperBound;
    Arith.QuotientBelow(taskIdx, heads, Total(counts, |counts|));
    BatchOfBlock(counts, taskIdx / heads, ends, b);
    Arith.QuotientBetween(taskIdx, heads, Total(counts, b), Total(counts, b) + counts[b]);
    Arith.Distribute(heads, Total(counts, b), counts[b]);
  }

  lemma BatchOfBlock(counts: seq<nat>, x: nat, ends: seq<int>, b: nat)
    requires |ends| == |counts| && forall i :: 0 <= i < |counts| ==> ends[i] == Total(counts, i + 1)
    requires x < Total(counts, |counts|) && IsUpperBound(ends, x, b)
    ensures b < |counts| && Total(counts, b) <= x < Total(counts, b) + counts[b]
  {
    hide Total;
    TotalEmpty(counts);
    if b > 0 {
      assert ends[b - 1] == Total(counts, b);
    }
    if b < |counts| {
      assert ends[b] == Total(counts, b + 1);
      TotalNext(counts, b);
    }
  }

  /** Every triple of the nested loops has a task number in range ... */
  lemma NumberInRange(counts: seq<nat>, heads: nat, t: Task)
    requires InLoop(counts, heads, t)
    ensures heads * Total(counts, t.b) <= Number(counts, heads, t) < heads * Total(counts, t.b + 1)
    ensures Number(counts, heads, t) < heads * Total(counts, |counts|)
  {
    Arith.CellInRange(t.i, t.mb, heads, counts[t.b]);
    Arith.Distribute(heads, Total(counts, t.b), counts[t.b]);
    TotalMono(counts, t.b + 1, |counts|);
    assert Total(counts, t.b + 1) == Total(counts, t.b) + counts[t.b];
    hide Total;
    Arith.MulMono(Total(counts, t.b + 1), Total(counts, |counts|), heads);
    Arith.Swap(heads, Total(counts, t.b + 1));
    Arith.Swap(heads, Total(counts, |counts|));
  }

  predicate Before(t: Task, u: Task) {
    t.b < u.b || (t.b == u.b && (t.i < u.i || (t.i == u.i && t.mb < u.mb)))
  }

  /** ... and task numbers grow exactly in loop order, so no two triples share one. */
  lemma NumberOrder(counts: seq<nat>, heads: nat, t: Task, u: Task)
    requires InLoop(counts, heads, t) && InLoop(counts, heads, u)
    ensures Number(counts, heads, t) < Number(counts, heads, u) <==>
      t.b < u.b || (t.b == u.b && (t.i < u.i || (t.i == u.i && t.mb < u.mb)))
    ensures Number(counts, heads, t) == Number(counts, heads, u) <==> t == u
  {
    if Before(t, u) {
      NumberGrows(counts, heads, t, u);
    } else if Before(u, t) {
      NumberGrows(counts, heads, u, t);
    }
  }

  lemma NumberGrows(counts: seq<nat>, heads: nat, t: Task, u: Task)
    requires InLoop(counts, heads, t) && InLoop(counts, heads, u) && Before(t, u)
    ensures Number(counts, heads, t) < Number(counts, heads, u)
  {
    if t.b < u.b {
      NumberInRange(counts, heads, t);
      NumberInRange(counts, heads, u);
      TotalMono(counts, t.b + 1, u.b);
      hide Total, Number;
      Arith.MulMono(Total(counts, t.b + 1), Total(counts, u.b), heads);
      Arith.Swap(heads, Total(counts, t.b + 1));
      Arith.Swap(heads, Total(counts, u.b));
    } else {
      hide Total;
      if t.i < u.i {
        Arith.MulMono(t.i + 1, u.i, counts[t.b]);
        Arith.Distribute(counts[t.b], t.i, 1);
        Arith.Swap(t.i, counts[t.b]);
        Arith.Swap(t.i + 1, counts[t.b]);
      }
    }
  }

  // ---------- (batch, kv head, token) ----------

  /** The decoding of the copy loop: tokens are numbered across samples, kv heads vary fastest. */
  method DecodeCopy(offsets: array<int>, kvHeads: nat, taskIdx: nat, ghost tokenSizes: seq<nat>)
    returns (b: nat, i: nat, s: nat)
    requires 0 < kvHeads && offsets.Length == |tokenSizes|
    requires forall k :: 0 <= k < |tokenSizes| ==> offsets[k] == Total(tokenSizes, k)
    requires taskIdx < kvHeads * Total(tokenSizes, |tokenSizes|)
    ensures b < |tokenSizes| && i < kvHeads && s < tokenSizes[b]
    ensures (Total(tokenSizes, b) + s) * kvHeads + i == taskIdx
  {
    hide Total, IsUpperBound, Sorted;
    var gSeqIdx := taskIdx / kvHeads;
    StartsSorted(tokenSizes, offsets[..]);
    var it := UpperBound(offsets, gSeqIdx);
    b := if it == 0 then 0 else it - 1;
    Arith.QuotientBelow(taskIdx, kvHeads, Total(tokenSizes, |tokenSizes|));
    TokenOfTask(tokenSizes, gSeqIdx, offsets[..], it);
    i := taskIdx % kvHeads;
    s := gSeqIdx - offsets[b];
  }

  lemma StartsSorted(tokenSizes: seq<nat>, offsets: seq<int>)
    requires |offsets| == |tokenSizes| && forall k :: 0 <= k < |tokenSizes| ==> offsets[k] == Total(tokenSizes, k)
    ensures Sorted(offsets)
  {
    forall i, j | 0 <= i <= j < |offsets|
      ensures offsets[i] <= offsets[j]
    {
      TotalMono(tokenSizes, i, j);
    }
  }

  /** Samples without tokens share their start with the next one; upper_bound skips them. */
  lemma TokenOfTask(tokenSizes: seq<nat>, g: nat, offsets: seq<int>, it: nat)
    requires |offsets| == |tokenSizes| && forall k :: 0 <= k < |tokenSizes| ==> offsets[k] == Total(tokenSizes, k)
    requires g < Total(tokenSizes, |tokenSizes|) && IsUpperBound(offsets, g, it)
    ensures 0 < it <= |tokenSizes|
    ensures Total(tokenSizes, it - 1) <= g < Total(tokenSizes, it - 1) + tokenSizes[it - 1]
  {
    assert |tokenSizes| > 0;
    assert offsets[0] == 0;
    assert it > 0;
    assert offsets[it - 1] <= g;
    if it < |tokenSizes| {
      assert g < offsets[it] == Total(tokenSizes, it);
    }
  }

  /** Every (batch, kv head, token) is copied by one task and one task only. */
  lemma CopyOnce(tokenSizes: seq<nat>, kvHeads: nat, b: nat, i: nat, s: nat, b': nat, i': nat, s': nat)
    requires b < |tokenSizes| && i < kvHeads && s < tokenSizes[b]
    requires b' < |tokenSizes| && i' < kvHeads && s' < tokenSizes[b']
    ensures (Total(tokenSizes, b) + s) * kvHeads + i < kvHeads * Total(tokenSizes, |tokenSizes|)
    ensures (Total(tokenSizes, b) + s) * kvHeads + i == (Total(tokenSizes, b') + s') * kvHeads + i' ==>
      b == b' && i == i' && s == s'
  {
    var x, x', all := Total(tokenSizes, b) + s, Total(tokenSizes, b') + s', Total(tokenSizes, |tokenSizes|);
    TotalMono(tokenSizes, b + 1, |tokenSizes|);
    Arith.CellInRange(x, i, all, kvHeads);
    assert all * kvHeads == kvHeads * all;
    if x * kvHeads + i == x' * kvHeads + i' {
      Arith.CellUnique(x, i, x', i', kvHeads);
      if b < b' {
        TotalMono(tokenSizes, b + 1, b');
      } else if b' < b {
        TotalMono(tokenSizes, b' + 1, b);
      }
    }
  }
}
