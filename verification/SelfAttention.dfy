/** Prompt self-attention, block by block: a flattened task loop, a per-thread memo of the packed key
    and value, scores for the first endSeq columns only, and zero-filling before the second product. */
module SelfAttention {
  import opened HeadGroups
  import opened ShardedAttention
  import opened TaskDecode
  import opened Matrices
  import opened Sums
  import opened Wrappers
  import Arith

  /** The call's arguments: all samples' tokens stacked, heads side by side in the columns. */
  datatype Inputs = Inputs(query: Mat, key: Mat, value: Mat, tokenSizes: seq<nat>,
                           qHeadNum: nat, kvHeadNum: nat, headSize: nat, scale: real, alibiSlopes: Option<seq<real>>)

  ghost predicate Good(inp: Inputs) {
    var total := Total(inp.tokenSizes, |inp.tokenSizes|);
    && Grouped(inp.qHeadNum, inp.kvHeadNum)
    && Rect(inp.query, total, inp.qHeadNum * inp.headSize)
    && Rect(inp.key, total, inp.kvHeadNum * inp.headSize)
    && Rect(inp.value, total, inp.kvHeadNum * inp.headSize)
    && (inp.alibiSlopes.Some? ==> |inp.alibiSlopes.value| == inp.qHeadNum)
  }

  /** The kv head that serves query head i. */
  function KvHead(inp: Inputs, i: nat): (kv: nat)
    requires Grouped(inp.qHeadNum, inp.kvHeadNum) && i < inp.qHeadNum
    ensures kv < inp.kvHeadNum
  {
    KvHeadOf(inp.qHeadNum, inp.kvHeadNum, i)
  }

  /** The rows of one sample and the columns of one head. */
  function HeadMat(m: Mat, firstRow: nat, rows: nat, head: nat, headSize: nat): (h: Mat)
    requires firstRow + rows <= |m|
    requires forall r :: 0 <= r < |m| ==> head * headSize + headSize <= |m[r]|
    ensures |h| == rows && forall r :: 0 <= r < rows ==> |h[r]| == headSize
  {
    seq(rows, r requires 0 <= r < rows => m[firstRow + r][head * headSize..head * headSize + headSize])
  }

  lemma HeadFits(inp: Inputs, b: nat, head: nat, heads: nat)
    requires b < |inp.tokenSizes| && head < heads
    ensures Total(inp.tokenSizes, b) + inp.tokenSizes[b] <= Total(inp.tokenSizes, |inp.tokenSizes|)
    ensures head * inp.headSize + inp.headSize <= heads * inp.headSize
  {
    TotalMono(inp.tokenSizes, b + 1, |inp.tokenSizes|);
    Arith.MulMono(head + 1, heads, inp.headSize);
    Arith.Distribute(inp.headSize, head, 1);
    Arith.Swap(inp.headSize, head);
    Arith.Swap(inp.headSize, head + 1);
  }

  function Queries(inp: Inputs, b: nat, i: nat): (h: Mat)
    requires Good(inp) && b < |inp.tokenSizes| && i < inp.qHeadNum
    ensures Rect(h, inp.tokenSizes[b], inp.headSize)
  {
    HeadFits(inp, b, i, inp.qHeadNum);
    HeadMat(inp.query, Total(inp.tokenSizes, b), inp.tokenSizes[b], i, inp.headSize)
  }

  function Keys(inp: Inputs, b: nat, kv: nat): (h: Mat)
    requires Good(inp) && b < |inp.tokenSizes| && kv < inp.kvHeadNum
    ensures Rect(h, inp.tokenSizes[b], inp.headSize)
  {
    HeadFits(inp, b, kv, inp.kvHeadNum);
    HeadMat(inp.key, Total(inp.tokenSizes, b), inp.tokenSizes[b], kv, inp.headSize)
  }

  function Values(inp: Inputs, b: nat, kv: nat): (h: Mat)
    requires Good(inp) && b < |inp.tokenSizes| && kv < inp.kvHeadNum
    ensures Rect(h, inp.tokenSizes[b], inp.headSize)
  {
    HeadFits(inp, b, kv, inp.kvHeadNum);
    HeadMat(inp.value, Total(inp.tokenSizes, b), inp.tokenSizes[b], kv, inp.headSize)
  }

  function Slope(inp: Inputs, i: nat): real
    requires Good(inp) && i < inp.qHeadNum
  {
    if inp.alibiSlopes.Some? then inp.alibiSlopes.value[i] else 0.0
  }

  // ---------- causal attention ----------

  function Bias(slope: real, j: int): real {
    slope * j as real
  }

  /** Score of key j for a query row: scaled dot product plus the position bias. */
  function RowScore(q: seq<real>, keys: Mat, scale: real, slope: real): int -> real {
    j => if 0 <= j < |keys| then Sum(DotTerm(q, keys[j]), 0, |q|) * scale + Bias(slope, j) else 0.0
  }

  function Column(m: Mat, d: nat): int -> real {
    j => if 0 <= j < |m| && d < |m[j]| then m[j][d] else 0.0
  }

  /** Row r of a head attends to keys 0 .. r and to no other. */
  function Causal(exp: real -> real, queries: Mat, keys: Mat, values: Mat, scale: real, slope: real, r: nat,
                  d: nat): real
    requires ExpLaws(exp) && r < |queries|
  {
    Attention(exp, RowScore(queries[r], keys, scale, slope), Column(values, d), r + 1)
  }

  /** The softmax weight of key j among n. */
  function Weight(exp: real -> real, z: int -> real, n: nat, j: int): real
    requires ExpLaws(exp) && 0 < n
  {
    ExpSumPositive(exp, z, 0.0, 0, n);
    Share(exp(z(j) - 0.0), ExpSum(exp, z, 0.0, 0, n))
  }

  /** The softmax of the first "elements" scores, then zeros up to "tokens". */
  ghost predicate SoftmaxRow(w: seq<real>, exp: real -> real, z: int -> real, elements: nat, tokens: nat)
    requires ExpLaws(exp) && 0 < elements <= tokens <= |w|
  {
    && (forall j :: 0 <= j < elements ==> w[j] == Weight(exp, z, elements, j))
    && (forall j :: elements <= j < tokens ==> w[j] == 0.0)
  }

  lemma WeightShiftFree(exp: real -> real, z: int -> real, m: real, n: nat, j: int)
    requires ExpLaws(exp) && 0 < n
    ensures ExpSum(exp, z, m, 0, n) > 0.0 && ExpSum(exp, z, 0.0, 0, n) > 0.0
    ensures Share(exp(z(j) - m), ExpSum(exp, z, m, 0, n)) == Share(exp(z(j) - 0.0), ExpSum(exp, z, 0.0, 0, n))
  {
    hide ExpLaws, ExpSum;
    ExpAt(exp, m, m, 0.0);
    ExpAt(exp, z(j), m, 0.0);
    ExpSumPositive(exp, z, m, 0, n);
    ExpSumPositive(exp, z, 0.0, 0, n);
    Revise(exp, z, z, m, 0.0, 0, n);
    SameRatio(exp(z(j) - m), ExpSum(exp, z, m, 0, n), exp(m - 0.0), exp(z(j) - 0.0), ExpSum(exp, z, 0.0, 0, n));
  }

  lemma SameRatio(a: real, b: real, r: real, a': real, b': real)
    requires b > 0.0 && r > 0.0 && b' > 0.0 && a * r == a' && b * r == b'
    ensures Share(a, b) == Share(a', b')
  {
    Ratio(a, b, r);
    assert a * (1.0 / b) == a / b && a' * (1.0 / b') == a' / b';
  }

  lemma WeightsMakeSoftmaxRow(w: seq<real>, exp: real -> real, z: int -> real, elements: nat, tokens: nat, m: real,
                              sum: real)
    requires ExpLaws(exp) && 0 < elements <= tokens <= |w| && sum == ExpSum(exp, z, m, 0, elements) && sum > 0.0
    requires forall j :: 0 <= j < elements ==> w[j] == Share(exp(z(j) - m), sum)
    requires forall j :: elements <= j < tokens ==> w[j] == 0.0
    ensures SoftmaxRow(w, exp, z, elements, tokens)
  {
    hide ExpLaws, ExpSum;
    forall j | 0 <= j < elements
      ensures w[j] == Weight(exp, z, elements, j)
    {
      WeightShiftFree(exp, z, m, elements, j);
      assert w[j] == Share(exp(z(j) - m), sum);
    }
  }

  /** First half of a block row.  Columns up to endSeq get scores, columns up to the row's own position
      are normalised, the rest of the row is cleared.  What the scratch row held before does not matter. */
  method ScoreAndSoftmax(C: array2<real>, row: nat, q: seq<real>, packedB: Mat, position: nat, endSeq: nat,
                         scale: real, slope: real, exp: real -> real, lowest: real)
    requires ExpLaws(exp) && row < C.Length0 && position < endSeq <= |packedB| <= C.Length1
    requires Rect(packedB, |packedB|, |q|)
    modifies C
    ensures SoftmaxRow(RowOf(C, row), exp, RowScore(q, packedB, scale, slope), position + 1, |packedB|)
    ensures forall r :: 0 <= r < C.Length0 && r != row ==> RowOf(C, r) == old(RowOf(C, r))
  {
    hide ExpLaws, ExpSum, Sum, SoftmaxRow, RowScore, Bias, RowOf, Share;
    ghost var z := RowScore(q, packedB, scale, slope);
    var elements := position + 1;
    ScoreColumns(C, row, q, packedB, endSeq, scale, slope);
    var maxVal, sum := BiasedSoftmax(C, row, elements, scale, slope, exp, lowest, z);
    ClearTail(C, row, elements, |packedB|);
    WeightsMakeSoftmaxRow(RowOf(C, row), exp, z, elements, |packedB|, maxVal, sum);
  }

  /** One weight times one value of column d. */
  function WeightedTerm(w: seq<real>, values: Mat, d: nat): int -> real {
    j => if 0 <= j < |w| && j < |values| && d < |values[j]| then w[j] * values[j][d] else 0.0
  }

  /** Weights times values, summed over the attended keys, is attention. */
  lemma WeightedSum(exp: real -> real, z: int -> real, v: int -> real, f: int -> real, n: nat)
    requires ExpLaws(exp) && 0 < n
    requires forall j :: 0 <= j < n ==> f(j) == Weight(exp, z, n, j) * v(j)
    ensures Sum(f, 0, n) == Attention(exp, z, v, n)
  {
    hide ExpLaws;
    var total := ExpSum(exp, z, 0.0, 0, n);
    ExpSumPositive(exp, z, 0.0, 0, n);
    hide ExpSum, Sum;
    forall j | 0 <= j < n
      ensures f(j) == (1.0 / total) * ExpDotTerm(exp, z, v, 0.0)(j)
    {
      OneTerm(exp(z(j) - 0.0), total, v(j));
    }
    SumScale(ExpDotTerm(exp, z, v, 0.0), f, 1.0 / total, 0, n);
    Divide(ExpDot(exp, z, v, 0.0, 0, n), total);
  }

  lemma OneTerm(e: real, total: real, v: real)
    requires total > 0.0
    ensures Share(e, total) * v == (1.0 / total) * (e * v)
  {
    var r := 1.0 / total;
    assert (e * r) * v == r * (e * v);
  }

  lemma Divide(a: real, b: real)
    requires b > 0.0
    ensures (1.0 / b) * a == a / b
  {
  }

  /** Zeros behind the softmax make the product over all tokens attention over the first ones. */
  lemma WeightedIsAttention(w: seq<real>, values: Mat, exp: real -> real, z: int -> real, elements: nat, d: nat)
    requires ExpLaws(exp) && 0 < elements <= |values| <= |w| && SoftmaxRow(w, exp, z, elements, |values|)
    requires forall j :: 0 <= j < |values| ==> d < |values[j]|
    ensures Sum(WeightedTerm(w, values, d), 0, |values|) == Attention(exp, z, Column(values, d), elements)
  {
    hide ExpLaws, Sum, Attention, SoftmaxRow, Weight;
    var f := WeightedTerm(w, values, d);
    forall j | 0 <= j < |values|
      ensures f(j) == if j < elements then Weight(exp, z, elements, j) * Column(values, d)(j) else 0.0
    {
      WeightAt(w, values, exp, z, elements, d, j);
    }
    SumSplit(f, 0, elements, |values|);
    SumZero(f, elements, |values|);
    WeightedSum(exp, z, Column(values, d), f, elements);
  }

  lemma WeightAt(w: seq<real>, values: Mat, exp: real -> real, z: int -> real, elements: nat, d: nat, j: nat)
    requires ExpLaws(exp) && 0 < elements <= |values| <= |w| && SoftmaxRow(w, exp, z, elements, |values|)
    requires j < |values| && d < |values[j]|
    ensures WeightedTerm(w, values, d)(j) == if j < elements then Weight(exp, z, elements, j) * Column(values, d)(j)
      else 0.0
  {
    hide ExpLaws, Weight;
    assert WeightedTerm(w, values, d)(j) == w[j] * values[j][d];
  }

  /** Second half: the weights times the values, over all tokens of the sample. */
  method TimesValues(C: array2<real>, row: nat, packedV: Mat, headSize: nat, elements: nat, exp: real -> real,
                     ghost z: int -> real)
    returns (result: seq<real>)
    requires ExpLaws(exp) && row < C.Length0 && 0 < elements <= |packedV| <= C.Length1
      && Rect(packedV, |packedV|, headSize)
    requires SoftmaxRow(RowOf(C, row), exp, z, elements, |packedV|)
    ensures |result| == headSize
    ensures forall d :: 0 <= d < headSize ==> result[d] == Attention(exp, z, Column(packedV, d), elements)
  {
    hide ExpLaws, Attention, SoftmaxRow;
    result := [];
    for d := 0 to headSize
      invariant |result| == d
      invariant forall k :: 0 <= k < d ==> result[k] == Attention(exp, z, Column(packedV, k), elements)
    {
      var cell := WeightedColumn(RowOf(C, row), packedV, d);
      WeightedIsAttention(RowOf(C, row), packedV, exp, z, elements, d);
      result := result + [cell];
    }
  }

  method ScoreColumns(C: array2<real>, row: nat, q: seq<real>, keys: Mat, endSeq: nat, scale: real, slope: real)
    requires row < C.Length0 && endSeq <= |keys| <= C.Length1 && Rect(keys, |keys|, |q|)
    modifies C
    ensures forall j :: 0 <= j < endSeq ==>
      RowScore(q, keys, scale, slope)(j) == RowOf(C, row)[j] * scale + Bias(slope, j)
    ensures forall r :: 0 <= r < C.Length0 && r != row ==> RowOf(C, r) == old(RowOf(C, r))
  {
    hide Sum, Bias;
    for j := 0 to endSeq
      invariant forall k :: 0 <= k < j ==> RowScore(q, keys, scale, slope)(k) == C[row, k] * scale + Bias(slope, k)
      invariant forall r, c :: 0 <= r < C.Length0 && 0 <= c < C.Length1 && r != row ==> C[r, c] == old(C[r, c])
    {
      var dot := Dot(q, keys[j]);
      C[row, j] := dot;
    }
  }

  /** Softmax of the first columns of a row, each with its position bias. */
  method BiasedSoftmax(C: array2<real>, row: nat, elements: nat, scale: real, slope: real, exp: real -> real,
                       lowest: real, ghost z: int -> real)
    returns (maxVal: real, sum: real)
    requires ExpLaws(exp) && row < C.Length0 && 0 < elements <= C.Length1
    requires forall j :: 0 <= j < elements ==> z(j) == RowOf(C, row)[j] * scale + Bias(slope, j)
    modifies C
    ensures sum == ExpSum(exp, z, maxVal, 0, elements) && sum > 0.0
    ensures forall j :: 0 <= j < elements ==> RowOf(C, row)[j] == Share(exp(z(j) - maxVal), sum)
    ensures OnlyRowStart(C, row, elements)
  {
    hide ExpLaws, ExpSum, Bias, Share, RowOf;
    var bias := seq(elements, j => Bias(slope, j));
    maxVal, sum := SoftmaxWithStats(C, row, elements, bias, scale, exp, lowest, z, 0);
  }

  method ClearTail(C: array2<real>, row: nat, from: nat, to: nat)
    requires row < C.Length0 && from <= to <= C.Length1
    modifies C
    ensures forall j :: 0 <= j < to ==> RowOf(C, row)[j] == if j < from then old(RowOf(C, row)[j]) else 0.0
    ensures forall r :: 0 <= r < C.Length0 && r != row ==> RowOf(C, r) == old(RowOf(C, r))
  {
    forall j | from <= j < to {
      C[row, j] := 0.0;
    }
  }

  method WeightedColumn(w: seq<real>, values: Mat, d: nat) returns (acc: real)
    requires |values| <= |w| && forall j :: 0 <= j < |values| ==> d < |values[j]|
    ensures acc == Sum(WeightedTerm(w, values, d), 0, |values|)
  {
    acc := 0.0;
    for j := 0 to |values|
      invariant acc == Sum(WeightedTerm(w, values, d), 0, j)
    {
      acc := acc + w[j] * values[j][d];
    }
  }

  // ---------- threads, their memo, and the task body ----------

  /** What the threads own: a scratch block of scores each, a packed key and value each, and the memo
      telling which (sample, kv head) the packed pair belongs to; -1 before the first task. */
  class Threads {
    const threadNum: nat
    const scores: array2<real>
    const packInfo: array<(int, int)>
    const packedB: array<Mat>
    const packedV: array<Mat>

    ghost predicate Valid() {
      && packInfo.Length == packedB.Length == packedV.Length == threadNum
      && scores.Length0 == threadNum * M_BLOCK_SIZE
      && packedB != packedV
    }

    constructor (threadNum: nat, maxScoreStride: nat)
      ensures Valid() && this.threadNum == threadNum && scores.Length1 == maxScoreStride
      ensures fresh(scores) && fresh(packInfo) && fresh(packedB) && fresh(packedV)
      ensures forall t :: 0 <= t < threadNum ==> packInfo[t].0 == -1
    {
      this.threadNum := threadNum;
      scores := new real[threadNum * M_BLOCK_SIZE, maxScoreStride];
      packInfo := new (int, int)[threadNum](_ => (-1, 0));
      packedB := new Mat[threadNum](_ => []);
      packedV := new Mat[threadNum](_ => []);
    }
  }

  /** A memo entry that names a (sample, kv head) tells the truth about the packed pair. */
  ghost predicate MemoTrue(T: Threads, inp: Inputs, tid: nat)
    requires T.Valid() && Good(inp) && tid < T.threadNum
    reads T.packInfo, T.packedB, T.packedV
  {
    var (b, kv) := T.packInfo[tid];
    b == -1 ||
    (&& 0 <= b < |inp.tokenSizes| && 0 <= kv < inp.kvHeadNum
     && T.packedB[tid] == Keys(inp, b, kv) && T.packedV[tid] == Values(inp, b, kv))
  }

  ghost predicate MemoAllTrue(T: Threads, inp: Inputs)
    requires T.Valid() && Good(inp)
    reads T.packInfo, T.packedB, T.packedV
  {
    forall tid :: 0 <= tid < T.threadNum ==> MemoTrue(T, inp, tid)
  }

  /** A block of query rows of one head. */
  function EndSeq(tokens: nat, mb: nat): nat {
    if mb * M_BLOCK_SIZE + M_BLOCK_SIZE < tokens then mb * M_BLOCK_SIZE + M_BLOCK_SIZE else tokens
  }

  /** What the output must hold at a token of a sample, in a head, in a column of the head. */
  ghost function Expected(inp: Inputs, exp: real -> real, b: nat, i: nat, r: nat, d: nat): real
    requires ExpLaws(exp) && Good(inp) && b < |inp.tokenSizes| && i < inp.qHeadNum && r < inp.tokenSizes[b]
  {
    var kv := KvHead(inp, i);
    Causal(exp, Queries(inp, b, i), Keys(inp, b, kv), Values(inp, b, kv), inp.scale, Slope(inp, i), r, d)
  }

  function OutRow(inp: Inputs, b: nat, r: nat): nat
    requires b < |inp.tokenSizes|
  {
    Total(inp.tokenSizes, b) + r
  }

  function OutCol(inp: Inputs, i: nat, d: nat): nat {
    i * inp.headSize + d
  }

  /** The output has a row per token and a column per head and element. */
  ghost predicate Fits(out: Mat, inp: Inputs)
    requires Good(inp)
  {
    Rect(out, Total(inp.tokenSizes, |inp.tokenSizes|), inp.qHeadNum * inp.headSize)
  }

  lemma CellFits(inp: Inputs, b: nat, i: nat, r: nat, d: nat)
    requires b < |inp.tokenSizes| && i < inp.qHeadNum && r < inp.tokenSizes[b] && d < inp.headSize
    ensures OutRow(inp, b, r) < Total(inp.tokenSizes, |inp.tokenSizes|)
    ensures OutCol(inp, i, d) < inp.qHeadNum * inp.headSize
  {
    TotalMono(inp.tokenSizes, b + 1, |inp.tokenSizes|);
    Arith.CellInRange(i, d, inp.qHeadNum, inp.headSize);
  }

  /** What the output holds in column d of head i, at token r of sample b. */
  ghost function Cell(out: Mat, inp: Inputs, b: nat, i: nat, r: nat, d: nat): real
    requires Good(inp) && Fits(out, inp)
    requires b < |inp.tokenSizes| && i < inp.qHeadNum && r < inp.tokenSizes[b] && d < inp.headSize
  {
    CellFits(inp, b, i, r, d);
    out[OutRow(inp, b, r)][OutCol(inp, i, d)]
  }

  /** The output row of token r of sample b, in head i, is right. */
  ghost predicate RowRight(out: Mat, inp: Inputs, exp: real -> real, b: nat, i: nat, r: nat)
    requires ExpLaws(exp) && Good(inp) && Fits(out, inp) && b < |inp.tokenSizes| && i < inp.qHeadNum
      && r < inp.tokenSizes[b]
  {
    forall d: nat :: d < inp.headSize ==> Cell(out, inp, b, i, r, d) == Expected(inp, exp, b, i, r, d)
  }

  /** The cells a block writes. */
  ghost predicate InBlock(inp: Inputs, t: Task, row: int, col: int)
    requires t.b < |inp.tokenSizes|
  {
    && OutRow(inp, t.b, t.mb * M_BLOCK_SIZE) <= row < OutRow(inp, t.b, EndSeq(inp.tokenSizes[t.b], t.mb))
    && OutCol(inp, t.i, 0) <= col < OutCol(inp, t.i, 0) + inp.headSize
  }

  ghost predicate GoodTask(inp: Inputs, t: Task) {
    InLoop(BlockCounts(inp.tokenSizes), inp.qHeadNum, t)
  }

  lemma BlockNotEmpty(inp: Inputs, t: Task)
    requires GoodTask(inp, t)
    ensures t.b < |inp.tokenSizes| && t.i < inp.qHeadNum
    ensures t.mb * M_BLOCK_SIZE < EndSeq(inp.tokenSizes[t.b], t.mb) <= inp.tokenSizes[t.b]
    ensures EndSeq(inp.tokenSizes[t.b], t.mb) - t.mb * M_BLOCK_SIZE <= M_BLOCK_SIZE
  {
  }

  /** The first n rows of a task's block are right. */
  ghost predicate RowsRight(out: Mat, inp: Inputs, exp: real -> real, t: Task, n: nat)
    requires ExpLaws(exp) && Good(inp) && Fits(out, inp) && GoodTask(inp, t)
    requires n <= EndSeq(inp.tokenSizes[t.b], t.mb) - t.mb * M_BLOCK_SIZE
  {
    forall r: nat :: t.mb * M_BLOCK_SIZE <= r < t.mb * M_BLOCK_SIZE + n ==> RowRight(out, inp, exp, t.b, t.i, r)
  }

  /** The whole block of a task is right. */
  ghost predicate BlockRight(out: Mat, inp: Inputs, exp: real -> real, t: Task)
    requires ExpLaws(exp) && Good(inp) && Fits(out, inp) && GoodTask(inp, t)
  {
    RowsRight(out, inp, exp, t, EndSeq(inp.tokenSizes[t.b], t.mb) - t.mb * M_BLOCK_SIZE)
  }

  // ---------- the memo ----------

  /** Keys are packed before the first product, values before the second; both are skipped when the
      memo names the pair, and the memo is updated with the values. */
  method PackKeys(T: Threads, inp: Inputs, tid: nat, b: nat, kv: nat)
    requires T.Valid() && Good(inp) && MemoAllTrue(T, inp) && tid < T.threadNum
    requires b < |inp.tokenSizes| && kv < inp.kvHeadNum
    modifies T.packedB
    ensures T.packedB[tid] == Keys(inp, b, kv)
    ensures HalfPacked(T, inp, tid, b, kv)
  {
    hide Keys, Values;
    assert MemoTrue(T, inp, tid);
    if T.packInfo[tid] != (b, kv) {
      T.packedB[tid] := Keys(inp, b, kv);
    }
    forall other | 0 <= other < T.threadNum && other != tid
      ensures MemoTrue(T, inp, other)
    {
      assert old(MemoTrue(T, inp, other));
    }
  }

  /** Between the two packings a thread's memo may still name the pair its values come from. */
  ghost predicate HalfPacked(T: Threads, inp: Inputs, tid: nat, b: nat, kv: nat)
    requires T.Valid() && Good(inp) && tid < T.threadNum && b < |inp.tokenSizes| && kv < inp.kvHeadNum
    reads T.packInfo, T.packedB, T.packedV
  {
    && T.packedB[tid] == Keys(inp, b, kv)
    && (T.packInfo[tid] == (b, kv) ==> T.packedV[tid] == Values(inp, b, kv))
    && (forall other :: 0 <= other < T.threadNum && other != tid ==> MemoTrue(T, inp, other))
  }

  method PackValues(T: Threads, inp: Inputs, tid: nat, b: nat, kv: nat)
    requires T.Valid() && Good(inp) && tid < T.threadNum
    requires b < |inp.tokenSizes| && kv < inp.kvHeadNum && HalfPacked(T, inp, tid, b, kv)
    modifies T.packedV, T.packInfo
    ensures T.packedV[tid] == Values(inp, b, kv)
    ensures MemoAllTrue(T, inp)
  {
    hide Keys, Values;
    if T.packInfo[tid] != (b, kv) {
      T.packedV[tid] := Values(inp, b, kv);
      T.packInfo[tid] := (b, kv);
    }
    forall other | 0 <= other < T.threadNum && other != tid
      ensures MemoTrue(T, inp, other)
    {
      assert old(MemoTrue(T, inp, other));
    }
  }

  // ---------- one task ----------

  /** The scratch rows of thread tid hold the softmax of the block's rows. */
  ghost predicate BlockSoftmax(C: array2<real>, inp: Inputs, exp: real -> real, tid: nat, t: Task, rows: nat)
    requires ExpLaws(exp) && Good(inp) && GoodTask(inp, t) && ScratchFits(C, inp, tid)
    requires rows <= EndSeq(inp.tokenSizes[t.b], t.mb) - t.mb * M_BLOCK_SIZE
    reads C
  {
    forall r: nat :: r < rows ==>
      SoftmaxRow(RowOf(C, tid * M_BLOCK_SIZE + r), exp, BlockScore(inp, t, r), t.mb * M_BLOCK_SIZE + r
        + 1, inp.tokenSizes[t.b])
  }

  ghost predicate ScratchFits(C: array2<real>, inp: Inputs, tid: nat) {
    && tid * M_BLOCK_SIZE + M_BLOCK_SIZE <= C.Length0
    && forall b :: 0 <= b < |inp.tokenSizes| ==> inp.tokenSizes[b] <= C.Length1
  }

  /** The scores of row r of the block. */
  function BlockScore(inp: Inputs, t: Task, r: nat): int -> real
    requires Good(inp) && GoodTask(inp, t) && t.mb * M_BLOCK_SIZE + r < inp.tokenSizes[t.b]
  {
    RowScore(Queries(inp, t.b, t.i)[t.mb * M_BLOCK_SIZE + r], Keys(inp, t.b, KvHead(inp, t.i)), inp.scale,
      Slope(inp, t.i))
  }

  /** One more row of the block; the rows done before keep their place in the scratch. */
  method ScoreNextRow(C: array2<real>, inp: Inputs, tid: nat, t: Task, r: nat, q: seq<real>, packedB: Mat,
                      exp: real -> real, lowest: real)
    requires ExpLaws(exp) && Good(inp) && GoodTask(inp, t) && ScratchFits(C, inp, tid)
    requires packedB == Keys(inp, t.b, KvHead(inp, t.i))
    requires r < EndSeq(inp.tokenSizes[t.b], t.mb) - t.mb * M_BLOCK_SIZE
      && q == Queries(inp, t.b, t.i)[t.mb * M_BLOCK_SIZE + r]
    requires BlockSoftmax(C, inp, exp, tid, t, r)
    modifies C
    ensures BlockSoftmax(C, inp, exp, tid, t, r + 1)
  {
    hide ExpLaws, SoftmaxRow, RowScore, Keys, Queries, KvHead, Good, Slope, GoodTask;
    BlockNotEmpty(inp, t);
    var tokens, position := inp.tokenSizes[t.b], t.mb * M_BLOCK_SIZE + r;
    ScoreAndSoftmax(C, tid * M_BLOCK_SIZE
      + r, q, packedB, position, EndSeq(tokens, t.mb), inp.scale, Slope(inp, t.i), exp, lowest);
  }

  method ScoreBlock(C: array2<real>, inp: Inputs, tid: nat, t: Task, packedB: Mat, exp: real -> real, lowest: real)
    requires ExpLaws(exp) && Good(inp) && GoodTask(inp, t) && ScratchFits(C, inp, tid)
    requires packedB == Keys(inp, t.b, KvHead(inp, t.i))
    modifies C
    ensures BlockSoftmax(C, inp, exp, tid, t, EndSeq(inp.tokenSizes[t.b], t.mb) - t.mb * M_BLOCK_SIZE)
  {
    hide ExpLaws, SoftmaxRow, RowScore, Keys, KvHead, Good, Slope, GoodTask;
    BlockNotEmpty(inp, t);
    var A := Queries(inp, t.b, t.i);
    var startSeq := t.mb * M_BLOCK_SIZE;
    for r := 0 to EndSeq(inp.tokenSizes[t.b], t.mb) - startSeq
      invariant BlockSoftmax(C, inp, exp, tid, t, r)
    {
      ScoreNextRow(C, inp, tid, t, r, A[startSeq + r], packedB, exp, lowest);
    }
  }

  /** Store one finished row of a head. */
  method StoreRow(output: array2<real>, row: nat, col: nat, result: seq<real>)
    requires row < output.Length0 && col + |result| <= output.Length1
    modifies output
    ensures forall d :: 0 <= d < |result| ==> Grid(output)[row][col + d] == result[d]
    ensures forall r, c ::
      0 <= r < output.Length0 && 0 <= c < output.Length1 && !(r == row && col <= c < col + |result|) ==>
      Grid(output)[r][c] == old(Grid(output)[r][c])
  {
    hide Grid;
    for d := 0 to |result|
      invariant forall k :: 0 <= k < d ==> output[row, col + k] == result[k]
      invariant forall r, c ::
        0 <= r < output.Length0 && 0 <= c < output.Length1 && !(r == row && col <= c < col + d) ==>
        output[r, c] == old(output[r, c])
    {
      output[row, col + d] := result[d];
    }
  }

  /** Nothing but cells of the block t has changed. */
  ghost predicate OnlyBlock(was: Mat, out: Mat, inp: Inputs, t: Task)
    requires Good(inp) && Fits(was, inp) && Fits(out, inp) && t.b < |inp.tokenSizes|
  {
    forall row, c :: 0 <= row < |out| && 0 <= c < inp.qHeadNum * inp.headSize && !InBlock(inp, t, row, c) ==>
      out[row][c] == was[row][c]
  }

  ghost predicate InRow(inp: Inputs, b: nat, i: nat, r: nat, row: int, c: int)
    requires b < |inp.tokenSizes|
  {
    row == OutRow(inp, b, r) && OutCol(inp, i, 0) <= c < OutCol(inp, i, 0) + inp.headSize
  }

  /** Nothing but head i of token r of sample b has changed. */
  ghost predicate OnlyRow(was: Mat, out: Mat, inp: Inputs, b: nat, i: nat, r: nat)
    requires Good(inp) && Fits(was, inp) && Fits(out, inp) && b < |inp.tokenSizes|
  {
    forall row, c :: 0 <= row < |out| && 0 <= c < inp.qHeadNum * inp.headSize && !InRow(inp, b, i, r, row, c) ==>
      out[row][c] == was[row][c]
  }

  lemma CellElsewhere(inp: Inputs, b: nat, i: nat, r: nat, d: nat, r': nat)
    requires b < |inp.tokenSizes| && r != r'
    ensures !InRow(inp, b, i, r', OutRow(inp, b, r), OutCol(inp, i, d))
  {
  }

  lemma RowFits(inp: Inputs, b: nat, i: nat, r: nat)
    requires b < |inp.tokenSizes| && i < inp.qHeadNum && r < inp.tokenSizes[b]
    ensures 0 <= OutRow(inp, b, r) < Total(inp.tokenSizes, |inp.tokenSizes|)
    ensures OutCol(inp, i, 0) + inp.headSize <= inp.qHeadNum * inp.headSize
    ensures forall d: nat :: OutCol(inp, i, d) == OutCol(inp, i, 0) + d
  {
    TotalMono(inp.tokenSizes, b + 1, |inp.tokenSizes|);
    HeadFits(inp, b, i, inp.qHeadNum);
  }

  /** Row k of the task's block. */
  method OutputRow(output: array2<real>, C: array2<real>, inp: Inputs, exp: real -> real, tid: nat, t: Task, k: nat,
                   packedV: Mat)
    requires ExpLaws(exp) && Good(inp) && GoodTask(inp, t) && Fits(Grid(output), inp) && ScratchFits(C, inp, tid)
      && C != output
    requires k < EndSeq(inp.tokenSizes[t.b], t.mb) - t.mb * M_BLOCK_SIZE
    requires BlockSoftmax(C, inp, exp, tid, t, EndSeq(inp.tokenSizes[t.b], t.mb) - t.mb * M_BLOCK_SIZE)
    requires packedV == Values(inp, t.b, KvHead(inp, t.i))
    modifies output
    ensures Fits(Grid(output), inp) && RowRight(Grid(output), inp, exp, t.b, t.i, t.mb * M_BLOCK_SIZE + k)
    ensures OnlyRow(old(Grid(output)), Grid(output), inp, t.b, t.i, t.mb * M_BLOCK_SIZE + k)
  {
    hide ExpLaws, SoftmaxRow, RowScore, Keys, Queries, KvHead, Good, Slope, GoodTask, Attention, Column, OutRow,
      OutCol, Total, Fits,
      Grid, OnlyRow, RowRight;
    BlockNotEmpty(inp, t);
    var r := t.mb * M_BLOCK_SIZE + k;
    ValuesFit(inp, t);
    var result := TimesValues(C, tid * M_BLOCK_SIZE + k, packedV, inp.headSize, r + 1, exp, BlockScore(inp, t, k));
    assert forall d: nat :: d < inp.headSize ==> result[d] == Expected(inp, exp, t.b, t.i, r, d);
    RowFits(inp, t.b, t.i, r);
    SizesFit(output, inp, OutRow(inp, t.b, r));
    StoreRow(output, OutRow(inp, t.b, r), OutCol(inp, t.i, 0), result);
    RowStored(old(Grid(output)), Grid(output), inp, exp, t.b, t.i, r, result);
  }

  lemma ValuesFit(inp: Inputs, t: Task)
    requires Good(inp) && GoodTask(inp, t)
    ensures t.b < |inp.tokenSizes| && t.i < inp.qHeadNum
    ensures Rect(Values(inp, t.b, KvHead(inp, t.i)), inp.tokenSizes[t.b], inp.headSize)
  {
    BlockNotEmpty(inp, t);
  }

  lemma SizesFit(output: array2<real>, inp: Inputs, row: nat)
    requires Good(inp) && Fits(Grid(output), inp) && row < Total(inp.tokenSizes, |inp.tokenSizes|)
    ensures output.Length0 == Total(inp.tokenSizes, |inp.tokenSizes|) && output.Length1 == inp.qHeadNum * inp.headSize
  {
    hide Grid, Total, Good;
    assert |Grid(output)[row]| == output.Length1;
  }

  /** A finished row stored at its place. */
  lemma RowStored(was: Mat, out: Mat, inp: Inputs, exp: real -> real, b: nat, i: nat, r: nat, result: seq<real>)
    requires ExpLaws(exp) && Good(inp) && Fits(was, inp) && Rect(out, |was|, inp.qHeadNum * inp.headSize)
    requires b < |inp.tokenSizes| && i < inp.qHeadNum && r < inp.tokenSizes[b]
    requires |result| == inp.headSize && forall d: nat :: d < inp.headSize ==>
      result[d] == Expected(inp, exp, b, i, r, d)
    requires OutRow(inp, b, r) < |was| && OutCol(inp, i, 0) + inp.headSize <= inp.qHeadNum * inp.headSize
    requires forall d :: 0 <= d < inp.headSize ==> out[OutRow(inp, b, r)][OutCol(inp, i, 0) + d] == result[d]
    requires forall row, c ::
      0 <= row < |was| && 0 <= c < inp.qHeadNum * inp.headSize && !InRow(inp, b, i, r, row, c) ==>
      out[row][c] == was[row][c]
    ensures Fits(out, inp) && RowRight(out, inp, exp, b, i, r) && OnlyRow(was, out, inp, b, i, r)
  {
    hide ExpLaws, Good, Expected, Total, OutRow, OutCol, InRow;
    RowFits(inp, b, i, r);
    forall d: nat | d < inp.headSize
      ensures Cell(out, inp, b, i, r, d) == Expected(inp, exp, b, i, r, d)
    {
      CellFits(inp, b, i, r, d);
    }
  }

  /** Writing row k of a block keeps its earlier rows right. */
  lemma EarlierRowsKept(was: Mat, out: Mat, inp: Inputs, exp: real -> real, t: Task, k: nat)
    requires ExpLaws(exp) && Good(inp) && Fits(was, inp) && Fits(out, inp) && GoodTask(inp, t)
    requires k < EndSeq(inp.tokenSizes[t.b], t.mb) - t.mb * M_BLOCK_SIZE
    requires RowsRight(was, inp, exp, t, k) && OnlyRow(was, out, inp, t.b, t.i, t.mb * M_BLOCK_SIZE + k)
    ensures RowsRight(out, inp, exp, t, k)
  {
    hide ExpLaws, Good, Expected, Total, OutRow, OutCol, InRow;
    var start := t.mb * M_BLOCK_SIZE;
    forall r: nat, d: nat | start <= r < start + k && d < inp.headSize
      ensures Cell(out, inp, t.b, t.i, r, d) == Expected(inp, exp, t.b, t.i, r, d)
    {
      assert RowRight(was, inp, exp, t.b, t.i, r);
      CellFits(inp, t.b, t.i, r, d);
      CellElsewhere(inp, t.b, t.i, r, d, start + k);
    }
  }

  /** Rows of a block stay right while a row of another block is written. */
  lemma OtherRowsKept(was: Mat, out: Mat, inp: Inputs, exp: real -> real, t: Task, k: nat, u: Task, n: nat)
    requires ExpLaws(exp) && Good(inp) && Fits(was, inp) && Fits(out, inp) && GoodTask(inp, t) && GoodTask(inp, u)
      && t != u
    requires k < EndSeq(inp.tokenSizes[t.b], t.mb) - t.mb * M_BLOCK_SIZE
    requires n <= EndSeq(inp.tokenSizes[u.b], u.mb) - u.mb * M_BLOCK_SIZE
    requires RowsRight(was, inp, exp, u, n) && OnlyRow(was, out, inp, t.b, t.i, t.mb * M_BLOCK_SIZE + k)
    ensures RowsRight(out, inp, exp, u, n)
  {
    hide ExpLaws, Good, Expected, Total, OutRow, OutCol, InBlock, InRow;
    var start := u.mb * M_BLOCK_SIZE;
    forall r: nat, d: nat | start <= r < start + n && d < inp.headSize
      ensures Cell(out, inp, u.b, u.i, r, d) == Expected(inp, exp, u.b, u.i, r, d)
    {
      assert RowRight(was, inp, exp, u.b, u.i, r);
      CellFits(inp, u.b, u.i, r, d);
      CellOutsideBlock(inp, u, r, d, t);
      RowInBlock(inp, t, k, OutRow(inp, u.b, r), OutCol(inp, u.i, d));
    }
  }

  lemma RowInBlock(inp: Inputs, t: Task, k: nat, row: int, c: int)
    requires GoodTask(inp, t) && k < EndSeq(inp.tokenSizes[t.b], t.mb) - t.mb * M_BLOCK_SIZE
    ensures InRow(inp, t.b, t.i, t.mb * M_BLOCK_SIZE + k, row, c) ==> InBlock(inp, t, row, c)
  {
    hide Total, OutCol;
  }

  /** A block stays right while another block is written. */
  lemma OtherBlockKept(was: Mat, out: Mat, inp: Inputs, exp: real -> real, t: Task, u: Task)
    requires ExpLaws(exp) && Good(inp) && Fits(was, inp) && Fits(out, inp) && GoodTask(inp, t) && GoodTask(inp, u)
      && t != u
    requires BlockRight(was, inp, exp, u) && OnlyBlock(was, out, inp, t)
    ensures BlockRight(out, inp, exp, u)
  {
    hide ExpLaws, Good, Expected, Total, OutRow, OutCol, InBlock;
    var start, end := u.mb * M_BLOCK_SIZE, EndSeq(inp.tokenSizes[u.b], u.mb);
    forall r: nat, d: nat | start <= r < end && d < inp.headSize
      ensures Cell(out, inp, u.b, u.i, r, d) == Expected(inp, exp, u.b, u.i, r, d)
    {
      assert RowRight(was, inp, exp, u.b, u.i, r);
      CellFits(inp, u.b, u.i, r, d);
      CellOutsideBlock(inp, u, r, d, t);
    }
  }

  /** The blocks of different tasks have no cell in common. */
  lemma CellOutsideBlock(inp: Inputs, u: Task, r: nat, d: nat, t: Task)
    requires GoodTask(inp, t) && GoodTask(inp, u) && t != u && d < inp.headSize
    requires u.mb * M_BLOCK_SIZE <= r < EndSeq(inp.tokenSizes[u.b], u.mb)
    ensures !InBlock(inp, t, OutRow(inp, u.b, r), OutCol(inp, u.i, d))
  {
    BlockNotEmpty(inp, t);
    if InBlock(inp, t, OutRow(inp, u.b, r), OutCol(inp, u.i, d)) {
      if t.b < u.b {
        TotalMono(inp.tokenSizes, t.b + 1, u.b);
        assert false;
      } else if u.b < t.b {
        TotalMono(inp.tokenSizes, u.b + 1, t.b);
        assert false;
      }
      var d' := OutCol(inp, u.i, d) - OutCol(inp, t.i, 0);
      Arith.CellUnique(u.i, d, t.i, d', inp.headSize);
    }
  }

  method OutputBlock(output: array2<real>, C: array2<real>, inp: Inputs, exp: real -> real, tid: nat, t: Task,
                     packedV: Mat)
    requires ExpLaws(exp) && Good(inp) && GoodTask(inp, t) && Fits(Grid(output), inp) && ScratchFits(C, inp, tid)
      && C != output
    requires BlockSoftmax(C, inp, exp, tid, t, EndSeq(inp.tokenSizes[t.b], t.mb) - t.mb * M_BLOCK_SIZE)
    requires packedV == Values(inp, t.b, KvHead(inp, t.i))
    modifies output
    ensures Fits(Grid(output), inp) && BlockRight(Grid(output), inp, exp, t)
    ensures OnlyBlock(old(Grid(output)), Grid(output), inp, t)
  {
    hide ExpLaws, RowsRight, KvHead, Good, GoodTask, BlockSoftmax, ScratchFits, Values, OnlyRow, OnlyBlock, Grid, Total;
    BlockNotEmpty(inp, t);
    ghost var was := Grid(output);
    NothingChanged(was, inp, exp, t);
    for k := 0 to EndSeq(inp.tokenSizes[t.b], t.mb) - t.mb * M_BLOCK_SIZE
      invariant Fits(Grid(output), inp)
      invariant RowsRight(Grid(output), inp, exp, t, k)
      invariant BlockSoftmax(C, inp, exp, tid, t, EndSeq(inp.tokenSizes[t.b], t.mb) - t.mb * M_BLOCK_SIZE)
      invariant OnlyBlock(was, Grid(output), inp, t)
    {
      ghost var before := Grid(output);
      OutputRow(output, C, inp, exp, tid, t, k, packedV);
      OneMoreRow(was, before, Grid(output), inp, exp, t, k);
    }
  }

  lemma NothingChanged(was: Mat, inp: Inputs, exp: real -> real, t: Task)
    requires ExpLaws(exp) && Good(inp) && Fits(was, inp) && GoodTask(inp, t)
    ensures OnlyBlock(was, was, inp, t) && RowsRight(was, inp, exp, t, 0)
  {
  }

  lemma OneMoreRow(was: Mat, before: Mat, out: Mat, inp: Inputs, exp: real -> real, t: Task, k: nat)
    requires ExpLaws(exp) && Good(inp) && Fits(was, inp) && Fits(before, inp) && Fits(out, inp) && GoodTask(inp, t)
    requires k < EndSeq(inp.tokenSizes[t.b], t.mb) - t.mb * M_BLOCK_SIZE
    requires RowsRight(before, inp, exp, t, k) && OnlyRow(before, out, inp, t.b, t.i, t.mb * M_BLOCK_SIZE + k)
    requires RowRight(out, inp, exp, t.b, t.i, t.mb * M_BLOCK_SIZE + k) && OnlyBlock(was, before, inp, t)
    ensures RowsRight(out, inp, exp, t, k + 1) && OnlyBlock(was, out, inp, t)
  {
    hide ExpLaws, Good, RowRight, OutCol, Total;
    EarlierRowsKept(before, out, inp, exp, t, k);
    assert forall row, c :: InRow(inp, t.b, t.i, t.mb * M_BLOCK_SIZE + k, row, c) ==> InBlock(inp, t, row, c);
  }

  /** The body of the parallel loop for one task number, on any thread, whatever that thread did before. */
  method TaskBody(T: Threads, inp: Inputs, output: array2<real>, blkEndIndex: array<int>, tid: nat, taskIdx: nat,
                  exp: real -> real, lowest: real)
    returns (t: Task)
    requires ExpLaws(exp) && T.Valid() && Good(inp) && MemoAllTrue(T, inp) && tid < T.threadNum
    requires Fits(Grid(output), inp) && ScratchFits(T.scores, inp, tid) && T.scores != output
    requires EndsAreRight(inp, blkEndIndex) && taskIdx < TaskCount(inp)
    modifies T.packInfo, T.packedB, T.packedV, T.scores, output
    ensures MemoAllTrue(T, inp)
    ensures GoodTask(inp, t) && Number(BlockCounts(inp.tokenSizes), inp.qHeadNum, t) == taskIdx
    ensures Fits(Grid(output), inp) && BlockRight(Grid(output), inp, exp, t)
      && OnlyBlock(old(Grid(output)), Grid(output), inp, t)
  {
    hide ExpLaws, BlockRight, Good, BlockSoftmax, Fits, Values, Keys, MemoAllTrue, HalfPacked, OnlyBlock, Number,
      Total, BlockCounts, Grid;
    GoodHasHeads(inp);
    t := Decode(blkEndIndex, inp.qHeadNum, taskIdx, BlockCounts(inp.tokenSizes));
    BlockNotEmpty(inp, t);
    var kvHeadIdx := KvHead(inp, t.i);
    PackKeys(T, inp, tid, t.b, kvHeadIdx);
    ScoreBlock(T.scores, inp, tid, t, T.packedB[tid], exp, lowest);
    PackValues(T, inp, tid, t.b, kvHeadIdx);
    OutputBlock(output, T.scores, inp, exp, tid, t, T.packedV[tid]);
  }

  ghost predicate EndsAreRight(inp: Inputs, blkEndIndex: array<int>)
    reads blkEndIndex
  {
    && blkEndIndex.Length == |inp.tokenSizes|
    && forall i :: 0 <= i < |inp.tokenSizes| ==> blkEndIndex[i] == Total(BlockCounts(inp.tokenSizes), i + 1)
  }

  function TaskCount(inp: Inputs): nat {
    inp.qHeadNum * Total(BlockCounts(inp.tokenSizes), |inp.tokenSizes|)
  }

  lemma GoodHasHeads(inp: Inputs)
    requires Good(inp)
    ensures Grouped(inp.qHeadNum, inp.kvHeadNum)
  {
  }

  // ---------- the whole loop, under any schedule ----------

  /** One turn of the parallel loop: a thread takes a task number. */
  datatype Turn = Turn(tid: nat, taskIdx: nat)

  ghost predicate GoodSchedule(inp: Inputs, threadNum: nat, turns: seq<Turn>) {
    forall k :: 0 <= k < |turns| ==> turns[k].tid < threadNum && turns[k].taskIdx < TaskCount(inp)
  }

  ghost predicate Taken(inp: Inputs, turns: seq<Turn>, n: nat, t: Task)
    requires n <= |turns| && t.b < |inp.tokenSizes|
  {
    CameUp(turns, n, Number(BlockCounts(inp.tokenSizes), inp.qHeadNum, t))
  }

  ghost predicate CameUp(turns: seq<Turn>, n: nat, taskIdx: nat)
    requires n <= |turns|
  {
    exists k :: 0 <= k < n && turns[k].taskIdx == taskIdx
  }

  /** Every block whose number came up among the first n turns is right. */
  ghost predicate DoneRight(out: Mat, inp: Inputs, exp: real -> real, turns: seq<Turn>, n: nat)
    requires ExpLaws(exp) && Good(inp) && Fits(out, inp) && n <= |turns|
  {
    forall t :: GoodTask(inp, t) && Taken(inp, turns, n, t) ==> BlockRight(out, inp, exp, t)
  }

  lemma NextTurn(was: Mat, out: Mat, inp: Inputs, exp: real -> real, turns: seq<Turn>, n: nat, t: Task)
    requires ExpLaws(exp) && Good(inp) && Fits(was, inp) && Fits(out, inp) && n < |turns| && GoodTask(inp, t)
    requires DoneRight(was, inp, exp, turns, n)
      && Number(BlockCounts(inp.tokenSizes), inp.qHeadNum, t) == turns[n].taskIdx
    requires BlockRight(out, inp, exp, t) && OnlyBlock(was, out, inp, t)
    ensures DoneRight(out, inp, exp, turns, n + 1)
  {
    hide ExpLaws, Good, Fits, BlockRight, OnlyBlock, Number, BlockCounts;
    forall u | GoodTask(inp, u) && Taken(inp, turns, n + 1, u)
      ensures BlockRight(out, inp, exp, u)
    {
      if u != t {
        NumberOrder(BlockCounts(inp.tokenSizes), inp.qHeadNum, t, u);
        assert Taken(inp, turns, n, u);
        OtherBlockKept(was, out, inp, exp, t, u);
      }
    }
  }

  /** Threads take tasks in any order and any assignment, the memo and the scratch carrying over from
      task to task.  Blocks that were computed are right, whichever thread computed them and when. */
  method RunTasks(inp: Inputs, threadNum: nat, turns: seq<Turn>, exp: real -> real, lowest: real)
    returns (output: array2<real>)
    requires ExpLaws(exp) && Good(inp) && GoodSchedule(inp, threadNum, turns)
    ensures Fits(Grid(output), inp) && DoneRight(Grid(output), inp, exp, turns, |turns|)
  {
    hide ExpLaws, Good, Fits, DoneRight, BlockRight, OnlyBlock, Number, BlockCounts, MemoTrue, Grid, TaskCount,
      BlockRight, GoodTask, Total;
    var offsets, blkEndIndex, totalTokenSize := Tables(inp.tokenSizes);
    var maxTokenSize := MaxTokens(inp.tokenSizes);
    var T := new Threads(threadNum, (maxTokenSize + 31) / 32 * 32);
    output := new real[totalTokenSize, inp.qHeadNum * inp.headSize];
    GridFits(output, inp);
    NothingDone(Grid(output), inp, exp, turns);
    NothingPacked(T, inp);
    for k := 0 to |turns|
      invariant T.Valid() && MemoAllTrue(T, inp) && EndsAreRight(inp, blkEndIndex)
      invariant Fits(Grid(output), inp) && DoneRight(Grid(output), inp, exp, turns, k)
    {
      ghost var was := Grid(output);
      RowsOfThread(T, turns[k].tid);
      var t := TaskBody(T, inp, output, blkEndIndex, turns[k].tid, turns[k].taskIdx, exp, lowest);
      NextTurn(was, Grid(output), inp, exp, turns, k, t);
    }
  }

  method MaxTokens(tokenSizes: seq<nat>) returns (maxTokenSize: nat)
    ensures forall b :: 0 <= b < |tokenSizes| ==> tokenSizes[b] <= maxTokenSize
  {
    maxTokenSize := 0;
    for i := 0 to |tokenSizes|
      invariant forall b :: 0 <= b < i ==> tokenSizes[b] <= maxTokenSize
    {
      if tokenSizes[i] > maxTokenSize {
        maxTokenSize := tokenSizes[i];
      }
    }
  }

  lemma GridFits(output: array2<real>, inp: Inputs)
    requires Good(inp) && output.Length0 == Total(inp.tokenSizes, |inp.tokenSizes|)
      && output.Length1 == inp.qHeadNum * inp.headSize
    ensures Fits(Grid(output), inp)
  {
    hide Good, Total, Grid;
  }

  lemma NothingDone(out: Mat, inp: Inputs, exp: real -> real, turns: seq<Turn>)
    requires ExpLaws(exp) && Good(inp) && Fits(out, inp)
    ensures DoneRight(out, inp, exp, turns, 0)
  {
  }

  lemma NothingPacked(T: Threads, inp: Inputs)
    requires T.Valid() && Good(inp) && forall t :: 0 <= t < T.threadNum ==> T.packInfo[t].0 == -1
    ensures MemoAllTrue(T, inp)
  {
  }

  lemma RowsOfThread(T: Threads, tid: nat)
    requires T.Valid() && tid < T.threadNum
    ensures tid * M_BLOCK_SIZE + M_BLOCK_SIZE <= T.scores.Length0
  {
  }

  /** If no task number is forgotten, the whole output is causal attention: every token of every sample,
      in every head, attends to its own sample's tokens up to itself and to nothing else. */
  lemma EveryTokenRight(out: Mat, inp: Inputs, exp: real -> real, turns: seq<Turn>, b: nat, i: nat, r: nat, d: nat)
    requires ExpLaws(exp) && Good(inp) && Fits(out, inp) && DoneRight(out, inp, exp, turns, |turns|)
    requires forall taskIdx: nat :: taskIdx < TaskCount(inp) ==> CameUp(turns, |turns|, taskIdx)
    requires b < |inp.tokenSizes| && i < inp.qHeadNum && r < inp.tokenSizes[b] && d < inp.headSize
    ensures Cell(out, inp, b, i, r, d) == Expected(inp, exp, b, i, r, d)
  {
    hide ExpLaws, Good, Cell, Expected, Number, Total;
    var t := Task(b, i, r / M_BLOCK_SIZE);
    NumberInRange(BlockCounts(inp.tokenSizes), inp.qHeadNum, t);
    assert Taken(inp, turns, |turns|, t);
    assert BlockRight(out, inp, exp, t);
    assert RowRight(out, inp, exp, b, i, r);
  }

  // ---------- the output written out over the stacked matrices ----------

  /** Element e of a token's query in head i, and of the key and value that serve head i, in the stacked matrices: the
      samples' tokens are stacked, and head i is served by the kv head i / (qHeadNum / kvHeadNum). */
  function QueryAt(inp: Inputs, b: nat, i: nat, r: int, e: int): real
    requires b < |inp.tokenSizes|
  {
    Entry(inp.query, Total(inp.tokenSizes, b) + r, i * inp.headSize + e)
  }

  function KeyAt(inp: Inputs, b: nat, i: nat, j: int, e: int): real
    requires b < |inp.tokenSizes| && 0 < inp.kvHeadNum <= inp.qHeadNum
  {
    Arith.QuotientPositive(inp.qHeadNum, inp.kvHeadNum);
    Entry(inp.key, Total(inp.tokenSizes, b) + j, i / (inp.qHeadNum / inp.kvHeadNum) * inp.headSize + e)
  }

  function ValueAt(inp: Inputs, b: nat, i: nat, j: int, e: int): real
    requires b < |inp.tokenSizes| && 0 < inp.kvHeadNum <= inp.qHeadNum
  {
    Arith.QuotientPositive(inp.qHeadNum, inp.kvHeadNum);
    Entry(inp.value, Total(inp.tokenSizes, b) + j, i / (inp.qHeadNum / inp.kvHeadNum) * inp.headSize + e)
  }

  /** Attention of token r of sample b, in head i and column d, written out: dots(j) lists the products of the query
      with key j, num and den the weighted values and the weights. */
  ghost predicate WrittenOut(inp: Inputs, exp: real -> real, b: nat, i: nat, r: nat, d: nat, dots: int -> (int -> real),
                             score: int -> real, num: int -> real, den: int -> real)
    requires b < |inp.tokenSizes| && 0 < inp.kvHeadNum <= inp.qHeadNum
  {
    && (forall j: nat, e: nat :: j <= r && e < inp.headSize ==>
          dots(j)(e) == QueryAt(inp, b, i, r, e) * KeyAt(inp, b, i, j, e))
    && (forall j: nat :: j <= r ==>
          && score(j) == Sum(dots(j), 0, inp.headSize) * inp.scale + AlibiSlope(inp.alibiSlopes, i) * j as real
          && den(j) == exp(score(j))
          && num(j) == exp(score(j)) * ValueAt(inp, b, i, j, d))
  }

  function AlibiSlope(slopes: Option<seq<real>>, i: nat): real {
    if slopes.Some? && i < |slopes.value| then slopes.value[i] else 0.0
  }

  lemma HeadMatAt(m: Mat, firstRow: nat, rows: nat, head: nat, headSize: nat, r: nat, e: nat)
    requires firstRow + rows <= |m| && r < rows && e < headSize
    requires forall r :: 0 <= r < |m| ==> head * headSize + headSize <= |m[r]|
    ensures 0 <= head * headSize + e < |m[firstRow + r]|
    ensures HeadMat(m, firstRow, rows, head, headSize)[r][e] == m[firstRow + r][head * headSize + e]
  {
    Arith.MulMono(0, head, headSize);
  }

  /** The elements of a token's query, key and value. */
  lemma TokenElements(inp: Inputs, b: nat, i: nat, r: nat, e: nat)
    requires Good(inp) && b < |inp.tokenSizes| && i < inp.qHeadNum && r < inp.tokenSizes[b] && e < inp.headSize
    ensures 0 < inp.kvHeadNum <= inp.qHeadNum && 0 < inp.qHeadNum / inp.kvHeadNum
    ensures var first, kv, n := Total(inp.tokenSizes, b), i / (inp.qHeadNum / inp.kvHeadNum), inp.headSize;
      && 0 <= kv == KvHead(inp, i) && first + r < |inp.query| == |inp.key| == |inp.value|
      && 0 <= i * n + e < |inp.query[first + r]| && 0 <= kv * n + e < |inp.key[first + r]| == |inp.value[first + r]|
      && Queries(inp, b, i)[r][e] == inp.query[first + r][i * n + e]
      && Keys(inp, b, kv)[r][e] == inp.key[first + r][kv * n + e]
      && Values(inp, b, kv)[r][e] == inp.value[first + r][kv * n + e]
  {
    hide Total, HeadMat;
    var kv, first := KvHead(inp, i), Total(inp.tokenSizes, b);
    HasKvHeads(inp);
    assert 0 < GroupSize(inp.qHeadNum, inp.kvHeadNum) == inp.qHeadNum / inp.kvHeadNum;
    HeadFits(inp, b, i, inp.qHeadNum);
    HeadFits(inp, b, kv, inp.kvHeadNum);
    HeadMatAt(inp.query, first, inp.tokenSizes[b], i, inp.headSize, r, e);
    HeadMatAt(inp.key, first, inp.tokenSizes[b], kv, inp.headSize, r, e);
    HeadMatAt(inp.value, first, inp.tokenSizes[b], kv, inp.headSize, r, e);
  }

  lemma HasKvHeads(inp: Inputs)
    requires Good(inp)
    ensures 0 < inp.kvHeadNum <= inp.qHeadNum
  {
    assert Grouped(inp.qHeadNum, inp.kvHeadNum);
    Arith.Factors(inp.kvHeadNum, inp.qHeadNum / inp.kvHeadNum);
  }

  lemma ProductWrittenOut(inp: Inputs, b: nat, i: nat, r: nat, j: nat, e: nat)
    requires Good(inp) && b < |inp.tokenSizes| && i < inp.qHeadNum && r < inp.tokenSizes[b] && j <= r
      && e < inp.headSize
    ensures 0 < inp.kvHeadNum <= inp.qHeadNum
    ensures DotTerm(Queries(inp, b, i)[r], Keys(inp, b, KvHead(inp, i))[j])(e)
      == QueryAt(inp, b, i, r, e) * KeyAt(inp, b, i, j, e)
    ensures Column(Values(inp, b, KvHead(inp, i)), e)(j) == ValueAt(inp, b, i, j, e)
  {
    hide Total, HeadMat, Sum, Queries, Keys, Values, KvHead;
    TokenElements(inp, b, i, r, e);
    TokenElements(inp, b, i, j, e);
  }

  /** The score, the weight and the weighted value of key j. */
  lemma TermWrittenOut(inp: Inputs, exp: real -> real, b: nat, i: nat, r: nat, d: nat, dots: int -> (int -> real),
                       score: int -> real, num: int -> real, den: int -> real, j: nat)
    requires Good(inp) && b < |inp.tokenSizes| && i < inp.qHeadNum && r < inp.tokenSizes[b] && d < inp.headSize
    requires 0 < inp.kvHeadNum <= inp.qHeadNum && WrittenOut(inp, exp, b, i, r, d, dots, score, num, den) && j <= r
    ensures den(j) == exp(RowScore(Queries(inp, b, i)[r], Keys(inp, b, KvHead(inp, i)), inp.scale, Slope(inp, i))(j))
    ensures num(j) == den(j) * Column(Values(inp, b, KvHead(inp, i)), d)(j)
  {
    hide Total, HeadMat, Sum, Queries, Keys, Values, KvHead, DotTerm, QueryAt, KeyAt, ValueAt, Column;
    var q, key := Queries(inp, b, i)[r], Keys(inp, b, KvHead(inp, i))[j];
    forall e: nat | e < inp.headSize
      ensures dots(j)(e) == DotTerm(q, key)(e)
    {
      ProductWrittenOut(inp, b, i, r, j, e);
    }
    SumExt(dots(j), DotTerm(q, key), 0, inp.headSize);
    ProductWrittenOut(inp, b, i, r, j, d);
    assert Slope(inp, i) == AlibiSlope(inp.alibiSlopes, i);
    assert score(j) == Sum(dots(j), 0, inp.headSize) * inp.scale + AlibiSlope(inp.alibiSlopes, i) * j as real;
    assert RowScore(q, Keys(inp, b, KvHead(inp, i)), inp.scale, Slope(inp, i))(j) == score(j);
  }

  /** The cell that is expected is the weighted sum of the values over the sum of the weights. */
  lemma ExpectedWrittenOut(inp: Inputs, exp: real -> real, b: nat, i: nat, r: nat, d: nat, dots: int -> (int -> real),
                           score: int -> real, num: int -> real, den: int -> real)
    requires ExpLaws(exp) && Good(inp) && b < |inp.tokenSizes| && i < inp.qHeadNum && r < inp.tokenSizes[b]
      && d < inp.headSize
    requires 0 < inp.kvHeadNum <= inp.qHeadNum && WrittenOut(inp, exp, b, i, r, d, dots, score, num, den)
    ensures Sum(den, 0, r + 1) > 0.0 && Expected(inp, exp, b, i, r, d) == Sum(num, 0, r + 1) / Sum(den, 0, r + 1)
  {
    hide Total, Sum, ExpLaws, RowScore, Attention, Queries, Keys, Values, KvHead, Slope, WrittenOut, Column;
    var kv := KvHead(inp, i);
    var z, v := RowScore(Queries(inp, b, i)[r], Keys(inp, b, kv), inp.scale, Slope(inp, i)),
      Column(Values(inp, b, kv), d);
    forall j | 0 <= j < r + 1
      ensures den(j) == exp(z(j)) && num(j) == exp(z(j)) * v(j)
    {
      TermWrittenOut(inp, exp, b, i, r, d, dots, score, num, den, j);
    }
    AttentionRatio(exp, z, v, r + 1, num, den);
  }

  /** A right cell written out, in the output and over the stacked matrices. */
  lemma RightCellWrittenOut(out: Mat, inp: Inputs, exp: real -> real, b: nat, i: nat, r: nat, d: nat,
                            dots: int -> (int -> real), score: int -> real, num: int -> real, den: int -> real)
    requires ExpLaws(exp) && Good(inp) && Fits(out, inp)
    requires b < |inp.tokenSizes| && i < inp.qHeadNum && r < inp.tokenSizes[b] && d < inp.headSize
    requires 0 < inp.kvHeadNum <= inp.qHeadNum && WrittenOut(inp, exp, b, i, r, d, dots, score, num, den)
    requires Cell(out, inp, b, i, r, d) == Expected(inp, exp, b, i, r, d)
    ensures Total(inp.tokenSizes, b) + r < |out|
    ensures 0 <= i * inp.headSize + d < |out[Total(inp.tokenSizes, b) + r]| && Sum(den, 0, r + 1) > 0.0
    ensures out[Total(inp.tokenSizes, b) + r][i * inp.headSize + d] == Sum(num, 0, r + 1) / Sum(den, 0, r + 1)
  {
    hide ExpLaws, Good, Cell, Expected, Total, WrittenOut, Fits;
    CellIsAt(out, inp, b, i, r, d);
    ExpectedWrittenOut(inp, exp, b, i, r, d, dots, score, num, den);
  }

  /** The whole output written out: if no task number is forgotten, the cell of token r of sample b, in head i and
      column d, is attention over the tokens 0 .. r of its own sample. */
  lemma EveryTokenWrittenOut(out: Mat, inp: Inputs, exp: real -> real, turns: seq<Turn>, b: nat, i: nat, r: nat, d: nat,
                             dots: int -> (int -> real), score: int -> real, num: int -> real, den: int -> real)
    requires ExpLaws(exp) && Good(inp) && Fits(out, inp) && DoneRight(out, inp, exp, turns, |turns|)
    requires forall taskIdx: nat :: taskIdx < TaskCount(inp) ==> CameUp(turns, |turns|, taskIdx)
    requires b < |inp.tokenSizes| && i < inp.qHeadNum && r < inp.tokenSizes[b] && d < inp.headSize
    requires 0 < inp.kvHeadNum <= inp.qHeadNum && WrittenOut(inp, exp, b, i, r, d, dots, score, num, den)
    ensures Total(inp.tokenSizes, b) + r < |out| && 0 <= i * inp.headSize + d < |out[Total(inp.tokenSizes, b) + r]|
    ensures Sum(den, 0, r + 1) > 0.0
    ensures out[Total(inp.tokenSizes, b) + r][i * inp.headSize + d] == Sum(num, 0, r + 1) / Sum(den, 0, r + 1)
  {
    hide ExpLaws, Good, Cell, Expected, Total, WrittenOut, Fits, DoneRight, TaskCount;
    EveryTokenRight(out, inp, exp, turns, b, i, r, d);
    RightCellWrittenOut(out, inp, exp, b, i, r, d, dots, score, num, den);
  }

  lemma CellIsAt(out: Mat, inp: Inputs, b: nat, i: nat, r: nat, d: nat)
    requires Good(inp) && Fits(out, inp)
    requires b < |inp.tokenSizes| && i < inp.qHeadNum && r < inp.tokenSizes[b] && d < inp.headSize
    ensures Total(inp.tokenSizes, b) + r < |out| && 0 <= i * inp.headSize + d < |out[Total(inp.tokenSizes, b) + r]|
    ensures Cell(out, inp, b, i, r, d) == out[Total(inp.tokenSizes, b) + r][i * inp.headSize + d]
  {
    CellFits(inp, b, i, r, d);
  }

  /** The first token of a sample attends to itself alone: its output is its own value, in the columns of the kv head
      that serves the query head. */
  lemma FirstTokenIsItsValue(inp: Inputs, exp: real -> real, b: nat, i: nat, d: nat)
    requires ExpLaws(exp) && Good(inp) && b < |inp.tokenSizes| && i < inp.qHeadNum && 0 < inp.tokenSizes[b]
      && d < inp.headSize
    ensures 0 < inp.qHeadNum / inp.kvHeadNum && Total(inp.tokenSizes, b) < |inp.value|
    ensures var c := i / (inp.qHeadNum / inp.kvHeadNum) * inp.headSize + d;
      0 <= c < |inp.value[Total(inp.tokenSizes, b)]| &&
      Expected(inp, exp, b, i, 0, d) == inp.value[Total(inp.tokenSizes, b)][c]
  {
    TokenElements(inp, b, i, 0, d);
    hide Total, HeadMat, Sum, ExpLaws, RowScore, Attention, Queries, Keys, Values, KvHead, Slope;
    var kv := KvHead(inp, i);
    AttentionOfOne(exp, RowScore(Queries(inp, b, i)[0], Keys(inp, b, kv), inp.scale, Slope(inp, i)),
                   Column(Values(inp, b, kv), d));
  }

  lemma FirstTokenOfOutput(out: Mat, inp: Inputs, exp: real -> real, turns: seq<Turn>, b: nat, i: nat, d: nat)
    requires ExpLaws(exp) && Good(inp) && Fits(out, inp) && DoneRight(out, inp, exp, turns, |turns|)
    requires forall taskIdx: nat :: taskIdx < TaskCount(inp) ==> CameUp(turns, |turns|, taskIdx)
    requires b < |inp.tokenSizes| && i < inp.qHeadNum && 0 < inp.tokenSizes[b] && d < inp.headSize
    ensures 0 < inp.qHeadNum / inp.kvHeadNum && Total(inp.tokenSizes, b) < |out| == |inp.value|
    ensures var first, kv, n := Total(inp.tokenSizes, b), i / (inp.qHeadNum / inp.kvHeadNum), inp.headSize;
      && 0 <= i * n + d < |out[first]| && 0 <= kv * n + d < |inp.value[first]|
      && out[first][i * n + d] == inp.value[first][kv * n + d]
  {
    CellIsAt(out, inp, b, i, 0, d);
    FirstTokenIsItsValue(inp, exp, b, i, d);
    TokenElements(inp, b, i, 0, d);
    hide ExpLaws, Good, Cell, Expected, Total, DoneRight, TaskCount, KvHead, Queries, Keys, Values;
    EveryTokenRight(out, inp, exp, turns, b, i, 0, d);
  }
}
