/** The vocabulary shared out to ranks: each rank's slice of the output layer, the gather of the ranks'
    logits in rank order, and the loops that put the full logits together again. */
module VocabularySplit {
  import opened Wrappers
  import opened Matrices
  import opened Sums
  import opened TaskSplit
  import opened WeightLayout
  import opened TaskDecode
  import Arith

  // ---------- the unsplit output layer ----------

  /** The layer's weight is stored transposed, one row of K elements per output. */
  datatype Head = Head(K: nat, outputSize: nat, w: seq<real>, bias: Option<seq<real>>)

  ghost predicate GoodHead(h: Head) {
    |h.w| == h.K * h.outputSize && (h.bias.Some? ==> |h.bias.value| == h.outputSize)
  }

  function LogitTerm(h: Head, x: seq<real>, v: int): int -> real {
    k => if 0 <= k < |x| && 0 <= v then x[k] * RowAt(h.w, h.K, v, k) else 0.0
  }

  /** Logit v of one row of inputs. */
  function Logit(h: Head, x: seq<real>, v: int): real {
    Sum(LogitTerm(h, x, v), 0, h.K) + (if h.bias.Some? && 0 <= v < |h.bias.value| then h.bias.value[v] else 0.0)
  }

  /** A logit written out over the stored weight: output v is row v of K elements. */
  lemma LogitWrittenOut(h: Head, x: seq<real>, v: nat, f: int -> real)
    requires GoodHead(h) && |x| == h.K && v < h.outputSize
    requires forall k: nat :: k < h.K ==> f(k) == x[k] * Element(h.w, v * h.K + k)
    ensures Logit(h, x, v) == Sum(f, 0, h.K) + (if h.bias.Some? then h.bias.value[v] else 0.0)
  {
    hide Sum;
    forall k: nat | k < h.K
      ensures LogitTerm(h, x, v)(k) == f(k)
    {
      Arith.CellInRange(v, k, h.outputSize, h.K);
      Arith.Swap(h.outputSize, h.K);
      Arith.MulMono(0, v, h.K);
    }
    SumExt(LogitTerm(h, x, v), f, 0, h.K);
  }

  // ---------- one rank ----------

  class DistLinear {
    const h: Head
    const splits: nat
    const splitIdx: nat
    var splitSize: nat
    var splitOffset: nat
    /** the rank's columns, K x splitSize */
    var weight: Mat
    var bias: Option<seq<real>>

    constructor (h: Head, splits: nat, splitIdx: nat)
      ensures this.h == h && this.splits == splits && this.splitIdx == splitIdx
    {
      this.h, this.splits, this.splitIdx := h, splits, splitIdx;
      splitSize, splitOffset, weight, bias := 0, 0, [], None;
    }

    /** The rank's slice, and exactly that. */
    ghost predicate HoldsSlice()
      reads this
    {
      && splitIdx < splits && GoodHead(h)
      && splitOffset == Cut(h.outputSize, splits, splitIdx)
        && splitOffset + splitSize == Cut(h.outputSize, splits, splitIdx + 1) <= h.outputSize
      && Rect(weight, h.K, splitSize)
      && (forall k, j :: 0 <= k < h.K && 0 <= j < splitSize ==> weight[k][j] == RowAt(h.w, h.K, splitOffset + j, k))
      && bias.Some? == h.bias.Some?
      && (bias.Some? ==> |bias.value| == splitSize && forall j :: 0 <= j < splitSize ==>
        bias.value[j] == h.bias.value[splitOffset + j])
    }

    /** Size and offset of the rank's slice, assigned and then adjusted for the spare outputs. */
    method SetRange()
      requires splitIdx < splits
      modifies this`splitSize, this`splitOffset
      ensures splitOffset == Cut(h.outputSize, splits, splitIdx)
        && splitOffset + splitSize == Cut(h.outputSize, splits, splitIdx + 1) <= h.outputSize
    {
      hide Cut;
      splitSize := h.outputSize / splits;
      splitOffset := splitSize * splitIdx;
      if splitIdx < h.outputSize % splits {
        splitSize := splitSize + 1;
        splitOffset := splitOffset + splitIdx;
      } else {
        splitOffset := splitOffset + h.outputSize % splits;
      }
      OffsetIsCut(h.outputSize, splits, splitIdx);
    }

    method SetWeight()
      requires splitIdx < splits && GoodHead(h)
      modifies this
      ensures HoldsSlice()
    {
      hide At, RowAt, Cut;
      SetRange();
      var K, N := h.K, splitSize;
      var slice := SliceBlock(h.w, K, h.outputSize, splitOffset, N);
      var converted, rows, cols := ConvertWeight(true, K, N, slice, 0, N, true);
      weight := Packed(true, converted, rows, cols);
      forall k: nat, j: nat | k < K && j < N
        ensures weight[k][j] == RowAt(h.w, K, splitOffset + j, k)
      {
        assert weight[k][j] == converted[j][k];
        TransposedRow(h.w, K, h.outputSize, k, splitOffset + j);
      }
      bias := if h.bias.Some? then Some(h.bias.value[splitOffset..splitOffset + N]) else None;
    }

    /** The rank's logits of all rows, row after row. */
    method Forward(input: Mat) returns (output: seq<real>)
      requires HoldsSlice() && forall r :: 0 <= r < |input| ==> |input[r]| == h.K
      ensures |output| == |input| * splitSize
      ensures forall r: nat, j: nat :: r < |input| && j < splitSize ==>
        RowAt(output, splitSize, r, j) == Logit(h, input[r], splitOffset + j)
    {
      hide RowAt, Logit;
      output := [];
      for r := 0 to |input|
        invariant |output| == r * splitSize
        invariant forall q: nat, j: nat :: q < r && j < splitSize ==>
          RowAt(output, splitSize, q, j) == Logit(h, input[q], splitOffset + j)
      {
        var row := ForwardRow(input[r]);
        AppendRow(output, row, splitSize, r);
        output := output + row;
      }
    }

    method ForwardRow(x: seq<real>) returns (row: seq<real>)
      requires HoldsSlice() && |x| == h.K
      ensures |row| == splitSize && forall j: nat :: j < splitSize ==> row[j] == Logit(h, x, splitOffset + j)
    {
      hide RowAt, Cut;
      row := [];
      for j := 0 to splitSize
        invariant |row| == j && forall l: nat :: l < j ==> row[l] == Logit(h, x, splitOffset + l)
      {
        var dot := ColumnDot(x, weight, j);
        SumExt(ColumnTerm(x, weight, j), LogitTerm(h, x, splitOffset + j), 0, h.K);
        row := row + [dot + if bias.Some? then bias.value[j] else 0.0];
      }
    }
  }

  function ColumnTerm(x: seq<real>, w: Mat, j: nat): int -> real {
    k => if 0 <= k < |x| && k < |w| && j < |w[k]| then x[k] * w[k][j] else 0.0
  }

  method ColumnDot(x: seq<real>, w: Mat, j: nat) returns (dot: real)
    requires |x| == |w| && forall k :: 0 <= k < |w| ==> j < |w[k]|
    ensures dot == Sum(ColumnTerm(x, w, j), 0, |x|)
  {
    dot := 0.0;
    for k := 0 to |x|
      invariant dot == Sum(ColumnTerm(x, w, j), 0, k)
    {
      dot := dot + x[k] * w[k][j];
    }
  }

  lemma TransposedRow(w: seq<real>, K: nat, N: nat, k: nat, n: nat)
    requires |w| == K * N && k < K && n < N
    ensures At(w, true, K, N, k, n) == RowAt(w, K, n, k)
  {
    Arith.CellInRange(n, k, N, K);
    Arith.Swap(N, K);
  }

  /** The offset arithmetic gives the cut points that tile the vocabulary. */
  lemma OffsetIsCut(outputSize: nat, splits: nat, splitIdx: nat)
    requires splitIdx < splits
    ensures var size, offset := outputSize / splits, (outputSize / splits) * splitIdx;
      && offset + (if splitIdx < outputSize % splits then splitIdx else outputSize % splits)
        == Cut(outputSize, splits, splitIdx)
      && Cut(outputSize, splits, splitIdx + 1) - Cut(outputSize, splits, splitIdx)
        == size + (if splitIdx < outputSize % splits then 1 else 0)
      && 0 <= Cut(outputSize, splits, splitIdx) && Cut(outputSize, splits, splitIdx + 1) <= outputSize
  {
    CutGrows(outputSize, splits, splitIdx);
    CutInside(outputSize, splits, splitIdx);
    CutInside(outputSize, splits, splitIdx + 1);
    Arith.Swap(outputSize / splits, splitIdx);
  }

  // ---------- the gather ----------

  /** allgatherv: the ranks' buffers in rank order. */
  function Gathered(blocks: seq<seq<real>>, n: nat): seq<real>
    requires n <= |blocks|
  {
    if n == 0 then [] else Gathered(blocks, n - 1) + blocks[n - 1]
  }

  /** Where element x of rank n's buffer lies if rank p sent rows * counts[p] elements. */
  lemma {:induction false} GatheredAt(blocks: seq<seq<real>>, counts: seq<nat>, rows: nat, n: nat, i: nat, x: nat)
    requires |counts| == |blocks| && i < n <= |blocks| && forall p :: 0 <= p < |blocks| ==>
      |blocks[p]| == rows * counts[p]
    requires x < |blocks[i]|
    ensures |Gathered(blocks, n)| == Total(counts, n) * rows
    ensures Total(counts, i) * rows + x < |Gathered(blocks, n)|
      && Gathered(blocks, n)[Total(counts, i) * rows + x] == blocks[i][x]
  {
    GatheredLength(blocks, counts, rows, n - 1);
    GatheredLength(blocks, counts, rows, n);
    if i < n - 1 {
      GatheredAt(blocks, counts, rows, n - 1, i, x);
    }
  }

  lemma {:induction false} GatheredLength(blocks: seq<seq<real>>, counts: seq<nat>, rows: nat, n: nat)
    requires |counts| == |blocks| && n <= |blocks| && forall p :: 0 <= p < |blocks| ==> |blocks[p]| == rows * counts[p]
    ensures |Gathered(blocks, n)| == Total(counts, n) * rows
  {
    if n > 0 {
      GatheredLength(blocks, counts, rows, n - 1);
      Arith.Distribute(rows, Total(counts, n - 1), counts[n - 1]);
      Arith.Swap(rows, Total(counts, n - 1));
      Arith.Swap(rows, Total(counts, n));
    }
  }

  // ---------- the reassembly ----------

  /** Element j of row r in the block that rank n sent. */
  function RecvAt(counts: seq<nat>, rows: nat, n: nat, r: nat, j: nat): nat
    requires n < |counts|
  {
    Total(counts, n) * rows + r * counts[n] + j
  }

  lemma RecvInside(counts: seq<nat>, rows: nat, n: nat, r: nat, j: nat)
    requires n < |counts| && r < rows && j < counts[n]
    ensures r * counts[n] + j < rows * counts[n]
    ensures RecvAt(counts, rows, n, r, j) < Total(counts, |counts|) * rows
  {
    Arith.CellInRange(r, j, rows, counts[n]);
    TotalMono(counts, n + 1, |counts|);
    Arith.MulMono(Total(counts, n + 1), Total(counts, |counts|), rows);
    Arith.Distribute(rows, Total(counts, n), counts[n]);
    Arith.Swap(rows, Total(counts, n));
    Arith.Swap(rows, Total(counts, n + 1));
  }

  lemma LogitInside(V: nat, rows: nat, r: nat, v: nat)
    requires r < rows && v < V
    ensures 0 <= r * V + v < rows * V
  {
    Arith.CellInRange(r, v, rows, V);
  }

  lemma LogitsApart(V: nat, r: nat, v: nat, r': nat, v': nat)
    requires v < V && v' < V && (r, v) != (r', v')
    ensures r * V + v != r' * V + v'
  {
    if r * V + v == r' * V + v' {
      Arith.CellUnique(r, v, r', v', V);
    }
  }

  /** What logit v of row r must be after the reassembly: the element its rank sent for it. */
  ghost predicate FromRank(logits: array<real>, recvBuf: seq<real>, counts: seq<nat>, rows: nat, V: nat, r: nat,
                           n: nat, j: nat)
    requires n < |counts|
    reads logits
  {
    var at, from := Spot(V, r, Total(counts, n) + j), RecvAt(counts, rows, n, r, j);
    at < logits.Length && from < |recvBuf| && logits[at] == recvBuf[from]
  }

  function Spot(V: nat, r: nat, v: nat): (at: nat)
    ensures at == r * V + v
  {
    r * V + v
  }

  /** One row: walk over the ranks with a running offset. */
  method ReassembleRow(logits: array<real>, recvBuf: seq<real>, counts: seq<nat>, rows: nat, V: nat, r: nat)
    requires V == Total(counts, |counts|) && logits.Length == rows * V && |recvBuf| == V * rows && r < rows
    modifies logits
    ensures forall n: nat, j: nat :: n < |counts| && j < counts[n] ==>
      FromRank(logits, recvBuf, counts, rows, V, r, n, j)
    ensures forall q: nat, v: nat :: q != r && v < V && Spot(V, q, v) < logits.Length ==>
      logits[Spot(V, q, v)] == old(logits[Spot(V, q, v)])
  {
    hide Spot, RecvAt, Total;
    var off := 0;
    TotalEmpty(counts);
    for n := 0 to |counts|
      invariant off == Total(counts, n)
      invariant forall p: nat, j: nat :: p < n && j < counts[p] ==> FromRank(logits, recvBuf, counts, rows, V, r, p, j)
      invariant forall q: nat, v: nat :: q != r && v < V && Spot(V, q, v) < logits.Length ==>
        logits[Spot(V, q, v)] == old(logits[Spot(V, q, v)])
    {
      for j := 0 to counts[n]
        invariant forall p: nat, l: nat :: p < |counts| && l < counts[p] && (p < n || (p == n && l < j)) ==>
          FromRank(logits, recvBuf, counts, rows, V, r, p, l)
        invariant forall q: nat, v: nat :: q != r && v < V && Spot(V, q, v) < logits.Length ==>
          logits[Spot(V, q, v)] == old(logits[Spot(V, q, v)])
      {
        PlaceElement(logits, recvBuf, counts, rows, V, r, n, j, off);
      }
      TotalNext(counts, n);
      off := off + counts[n];
    }
  }

  /** One element; the ones placed before, in this row and in others, stay. */
  method PlaceElement(logits: array<real>, recvBuf: seq<real>, counts: seq<nat>, rows: nat, V: nat, r: nat, n: nat,
                      j: nat, off: nat)
    requires V == Total(counts, |counts|) && logits.Length == rows * V && |recvBuf| == V * rows && r < rows
    requires n < |counts| && j < counts[n] && off == Total(counts, n)
    modifies logits
    ensures FromRank(logits, recvBuf, counts, rows, V, r, n, j)
    ensures forall p: nat, l: nat ::
      p < |counts| && l < counts[p] && (p, l) != (n, j) && old(FromRank(logits, recvBuf, counts, rows, V, r, p, l)) ==>
      FromRank(logits, recvBuf, counts, rows, V, r, p, l)
    ensures forall q: nat, v: nat :: q != r && v < V && Spot(V, q, v) < logits.Length ==>
      logits[Spot(V, q, v)] == old(logits[Spot(V, q, v)])
  {
    hide Total;
    TotalNext(counts, n);
    TotalMono(counts, n + 1, |counts|);
    LogitInside(V, rows, r, off + j);
    RecvInside(counts, rows, n, r, j);
    forall q: nat, v: nat | v < V && (q, v) != (r, off + j)
      ensures Spot(V, q, v) != Spot(V, r, off + j)
    {
      LogitsApart(V, q, v, r, off + j);
    }
    forall p: nat, l: nat | p < |counts| && l < counts[p] && (p, l) != (n, j)
      ensures Total(counts, p) + l < V && Total(counts, p) + l != off + j
    {
      ColumnsApart(counts, p, l, n, j);
    }
    hide Spot;
    logits[Spot(V, r, off + j)] := recvBuf[RecvAt(counts, rows, n, r, j)];
  }

  lemma ColumnsApart(counts: seq<nat>, p: nat, l: nat, n: nat, j: nat)
    requires p < |counts| && l < counts[p] && n < |counts| && j < counts[n] && (p, l) != (n, j)
    ensures Total(counts, p) + l < Total(counts, |counts|) && Total(counts, p) + l != Total(counts, n) + j
  {
    TotalMono(counts, p + 1, |counts|);
    if p < n {
      TotalMono(counts, p + 1, n);
    } else if n < p {
      TotalMono(counts, n + 1, p);
    }
  }

  method Reassemble(recvBuf: seq<real>, counts: seq<nat>, batchSize: nat, seqLen: nat, vocabSize: nat)
    returns (logits: array<real>)
    requires vocabSize == Total(counts, |counts|) && |recvBuf| == vocabSize * (batchSize * seqLen)
    ensures logits.Length == batchSize * seqLen * vocabSize
    ensures forall r: nat, n: nat, j: nat :: r < batchSize * seqLen && n < |counts| && j < counts[n] ==>
      FromRank(logits, recvBuf, counts, batchSize * seqLen, vocabSize, r, n, j)
  {
    var rows := batchSize * seqLen;
    Arith.MulMono(0, batchSize, seqLen);
    Arith.MulMono(0, rows, vocabSize);
    logits := new real[batchSize * seqLen * vocabSize];
    for m := 0 to batchSize
      invariant forall r: nat, n: nat, j: nat :: r < m * seqLen && n < |counts| && j < counts[n] ==>
        FromRank(logits, recvBuf, counts, rows, vocabSize, r, n, j)
    {
      for i := 0 to seqLen
        invariant forall r: nat, n: nat, j: nat :: r < m * seqLen + i && n < |counts| && j < counts[n] ==>
          FromRank(logits, recvBuf, counts, rows, vocabSize, r, n, j)
      {
        Arith.CellInRange(m, i, batchSize, seqLen);
        ReassembleNext(logits, recvBuf, counts, rows, vocabSize, m * seqLen + i);
      }
      Arith.Distribute(seqLen, m, 1);
      Arith.Swap(seqLen, m);
      Arith.Swap(seqLen, m + 1);
    }
  }

  method ReassembleNext(logits: array<real>, recvBuf: seq<real>, counts: seq<nat>, rows: nat, V: nat, r: nat)
    requires V == Total(counts, |counts|) && logits.Length == rows * V && |recvBuf| == V * rows && r < rows
    requires forall q: nat, n: nat, j: nat :: q < r && n < |counts| && j < counts[n] ==>
      FromRank(logits, recvBuf, counts, rows, V, q, n, j)
    modifies logits
    ensures forall q: nat, n: nat, j: nat :: q < r + 1 && n < |counts| && j < counts[n] ==>
      FromRank(logits, recvBuf, counts, rows, V, q, n, j)
  {
    hide Spot, RecvAt, Total;
    ReassembleRow(logits, recvBuf, counts, rows, V, r);
    forall q: nat, n: nat, j: nat | q < r && n < |counts| && j < counts[n]
      ensures FromRank(logits, recvBuf, counts, rows, V, q, n, j)
    {
      TotalNext(counts, n);
      TotalMono(counts, n + 1, |counts|);
      assert old(FromRank(logits, recvBuf, counts, rows, V, q, n, j));
    }
  }

  // ---------- scatter, compute, gather ----------

  lemma {:induction false} TotalAppend(counts: seq<nat>, x: nat, i: nat)
    requires i <= |counts|
    ensures Total(counts + [x], i) == Total(counts, i)
  {
    if i > 0 {
      TotalAppend(counts, x, i - 1);
    }
  }

  /** The ranks' blocks: rank i holds its own slice of every row's logits. */
  ghost predicate BlocksRight(h: Head, input: Mat, worldSize: nat, counts: seq<nat>, blocks: seq<seq<real>>)
    requires 0 < worldSize
  {
    && |counts| == |blocks|
    && (forall i: nat :: i <= |counts| ==> Total(counts, i) == Cut(h.outputSize, worldSize, i))
    && (forall i :: 0 <= i < |blocks| ==> |blocks[i]| == |input| * counts[i])
    && (forall i: nat, r: nat, j: nat :: i < |blocks| && r < |input| && j < counts[i] ==>
          RowAt(blocks[i], counts[i], r, j) == Logit(h, input[r], Cut(h.outputSize, worldSize, i) + j))
  }

  lemma OneMoreBlock(h: Head, input: Mat, worldSize: nat, counts: seq<nat>, blocks: seq<seq<real>>, size: nat,
                     block: seq<real>)
    requires 0 < worldSize && |counts| < worldSize && BlocksRight(h, input, worldSize, counts, blocks)
    requires Cut(h.outputSize, worldSize, |counts|) + size == Cut(h.outputSize, worldSize, |counts| + 1)
      && |block| == |input| * size
    requires forall r: nat, j: nat :: r < |input| && j < size ==>
      RowAt(block, size, r, j) == Logit(h, input[r], Cut(h.outputSize, worldSize, |counts|) + j)
    ensures BlocksRight(h, input, worldSize, counts + [size], blocks + [block])
  {
    hide RowAt, Logit, Cut, Total;
    forall i: nat | i <= |counts| + 1
      ensures Total(counts + [size], i) == Cut(h.outputSize, worldSize, i)
    {
      if i <= |counts| {
        TotalAppend(counts, size, i);
      } else {
        TotalNext(counts + [size], |counts|);
        TotalAppend(counts, size, |counts|);
      }
    }
  }

  /** Every logit of every row, in place, whatever the number of ranks and however uneven their shares. */
  lemma GatherRebuilds(h: Head, input: Mat, worldSize: nat, counts: seq<nat>, blocks: seq<seq<real>>,
                       logits: array<real>, r: nat, v: nat)
    requires 0 < worldSize && |counts| == worldSize && BlocksRight(h, input, worldSize, counts, blocks) && r < |input|
      && v < h.outputSize
    requires forall n: nat, j: nat :: n < |counts| && j < counts[n] ==>
      FromRank(logits, Gathered(blocks, |blocks|), counts, |input|, h.outputSize, r, n, j)
    ensures Spot(h.outputSize, r, v) < logits.Length && logits[Spot(h.outputSize, r, v)] == Logit(h, input[r], v)
  {
    hide Logit, Cut, Total, Spot, Gathered, RecvAt, RowAt;
    CutEnds(h.outputSize, worldSize);
    var cut: int -> int := i => if 0 <= i <= |counts| then Total(counts, i) else 0;
    var n := Arith.CutCovers(cut, worldSize, v);
    TotalNext(counts, n);
    var j := v - Total(counts, n);
    assert FromRank(logits, Gathered(blocks, |blocks|), counts, |input|, h.outputSize, r, n, j);
    RecvIsBlock(blocks, counts, |input|, n, r, j);
  }

  lemma RecvIsBlock(blocks: seq<seq<real>>, counts: seq<nat>, rows: nat, n: nat, r: nat, j: nat)
    requires |counts| == |blocks| && n < |blocks| && r < rows && j < counts[n] && forall p :: 0 <= p < |blocks| ==>
      |blocks[p]| == rows * counts[p]
    ensures RecvAt(counts, rows, n, r, j) < |Gathered(blocks, |blocks|)|
    ensures Gathered(blocks, |blocks|)[RecvAt(counts, rows, n, r, j)] == RowAt(blocks[n], counts[n], r, j)
  {
    hide Total, Gathered;
    RecvInside(counts, rows, n, r, j);
    GatheredAt(blocks, counts, rows, |blocks|, n, r * counts[n] + j);
  }

  method EvalForward(h: Head, input: Mat, batchSize: nat, seqLen: nat, worldSize: nat) returns (logits: array<real>)
    requires GoodHead(h) && 0 < worldSize && |input| == batchSize * seqLen && forall r :: 0 <= r < |input| ==>
      |input[r]| == h.K
    ensures logits.Length == batchSize * seqLen * h.outputSize
    ensures forall r: nat, v: nat :: r < |input| && v < h.outputSize ==>
      Spot(h.outputSize, r, v) < logits.Length && logits[Spot(h.outputSize, r, v)] == Logit(h, input[r], v)
  {
    hide Logit, Cut, Total, Spot, Gathered, RowAt, FromRank;
    var counts: seq<nat>, blocks: seq<seq<real>> := [], [];
    CutEnds(h.outputSize, worldSize);
    TotalEmpty(counts);
    for n := 0 to worldSize
      invariant |counts| == n && BlocksRight(h, input, worldSize, counts, blocks)
    {
      var rank := new DistLinear(h, worldSize, n);
      rank.SetWeight();
      var block := rank.Forward(input);
      OneMoreBlock(h, input, worldSize, counts, blocks, rank.splitSize, block);
      counts, blocks := counts + [rank.splitSize], blocks + [block];
    }
    GatheredLength(blocks, counts, |input|, |blocks|);
    var recvBuf := Gathered(blocks, |blocks|);
    logits := Reassemble(recvBuf, counts, batchSize, seqLen, h.outputSize);
    forall r: nat, v: nat | r < |input| && v < h.outputSize
      ensures Spot(h.outputSize, r, v) < logits.Length && logits[Spot(h.outputSize, r, v)] == Logit(h, input[r], v)
    {
      GatherRebuilds(h, input, worldSize, counts, blocks, logits, r, v);
    }
  }
}
