/** The output projection of attention on the ranks: each loads the rows of the weight that belong to its
    own query heads, projects its own columns of the attention output, and the parts are added up. */
module OutputProjection {
  import opened Matrices
  import opened Sums
  import opened WeightLayout
  import opened HeadGroups
  import opened HeadSplit
  import Mlp = TensorParallelMlp
  import TaskSplit
  import Arith

  /** The head counts and sizes of the layer; the projection weight is attHeadNum * headSize x hiddenSize. */
  datatype Sizes = Sizes(attHeadNum: nat, kvHeadNum: nat, headSize: nat, hiddenSize: nat) {
    function AttnCols(): nat {
      attHeadNum * headSize
    }
  }

  /** A bias entry, if there is a bias, and the scaled residual. */
  function Own(bias: seq<real>, gamma: real, input: Mat, m: nat, j: nat): real {
    (if j < |bias| then bias[j] else 0.0) + if m < |input| && j < |input[m]| then gamma * input[m][j] else 0.0
  }

  /** One cell of the projection of all heads. */
  function ProjectedCell(attn: Mat, weight: Mat, bias: seq<real>, gamma: real, input: Mat, m: nat, j: nat): real {
    Mlp.Dot(attn, weight, m, j) + Own(bias, gamma, input, m, j)
  }

  /** The cell written out over the weight file: the products along row m of the attention output, then bias and scaled
      residual. */
  lemma ProjectedWrittenOut(attn: Mat, weight: seq<real>, trans: bool, cols: nat, hiddenSize: nat, bias: seq<real>,
                            gamma: real, input: Mat, m: nat, j: nat, f: int -> real)
    requires |weight| == cols * hiddenSize && m < |attn| && j < hiddenSize
    requires forall k: nat :: k < cols ==>
      f(k) == Entry(attn, m, k) * Element(weight, if trans then j * cols + k else k * hiddenSize + j)
    ensures ProjectedCell(attn, Whole(weight, trans, cols, hiddenSize), bias, gamma, input, m, j)
      == Sum(f, 0, cols) + Element(bias, j) + gamma * Entry(input, m, j)
  {
    hide Whole, Sum;
    var W := Whole(weight, trans, cols, hiddenSize);
    forall k: nat | k < cols
      ensures Mlp.MulTerm(attn, W, m, j)(k) == f(k)
    {
      WholeWrittenOut(weight, trans, cols, hiddenSize, k, j);
    }
    SumExt(Mlp.MulTerm(attn, W, m, j), f, 0, cols);
  }

  /** The columns of the attention output, and rows of the weight, of rank s. */
  ghost predicate RankColumns(z: Sizes, numSplit: nat, s: nat, lo: int, hi: int)
    requires 0 < numSplit
  {
    lo == ColumnCut(z.attHeadNum, numSplit, z.headSize, s) && hi == ColumnCut(z.attHeadNum, numSplit, z.headSize, s + 1)
  }

  lemma RankRange(z: Sizes, numSplit: nat, s: nat)
    requires Grouped(z.attHeadNum, z.kvHeadNum) && s < numSplit
    ensures var h := HeadsOf(z.attHeadNum, z.kvHeadNum, numSplit, s);
      && 0 <= h.startQ && 0 <= h.QNum()
      && RankColumns(z, numSplit, s, h.startQ * z.headSize, h.startQ * z.headSize + h.QNum() * z.headSize)
      && 0 <= h.startQ * z.headSize && 0 <= h.QNum() * z.headSize
      && h.startQ * z.headSize + h.QNum() * z.headSize <= z.AttnCols()
  {
    hide TaskSplit.Cut, TaskSplit.TaskRange;
    QueryHeadsTile(z.attHeadNum, z.kvHeadNum, numSplit, s);
    var h := HeadsOf(z.attHeadNum, z.kvHeadNum, numSplit, s);
    Arith.Distribute(z.headSize, h.startQ, h.QNum());
    Arith.Swap(z.headSize, h.startQ);
    Arith.Swap(z.headSize, h.QNum());
    Arith.Swap(z.headSize, h.startQ + h.QNum());
    Arith.MulMono(0, h.startQ, z.headSize);
    Arith.MulMono(0, h.QNum(), z.headSize);
    Arith.MulMono(h.endQ, z.attHeadNum, z.headSize);
  }

  /** Load the rows of the weight that belong to the rank's query heads. */
  method LoadOutputWeight(z: Sizes, numSplit: nat, s: nat, weight: seq<real>, trans: bool) returns (w: Mat)
    requires Grouped(z.attHeadNum, z.kvHeadNum) && s < numSplit && |weight| == z.AttnCols() * z.hiddenSize
    ensures forall lo, hi :: RankColumns(z, numSplit, s, lo, hi) ==>
      IsRows(w, Whole(weight, trans, z.AttnCols(), z.hiddenSize), lo, hi)
    ensures IsRows(w, Whole(weight, trans, z.AttnCols(), z.hiddenSize),
      TaskSplit.Cut(z.attHeadNum, numSplit, s) * z.headSize, TaskSplit.Cut(z.attHeadNum, numSplit, s + 1) * z.headSize)
  {
    hide HeadsOf, Whole, IsRows, z.AttnCols, TaskSplit.Cut;
    RankRange(z, numSplit, s);
    var h := HeadsOf(z.attHeadNum, z.kvHeadNum, numSplit, s);
    w := LoadSlice(trans, z.AttnCols(), z.hiddenSize, weight, h.startQ * z.headSize, h.QNum() * z.headSize, false);
  }

  /** A rank's product is the piece of the whole product over its own columns. */
  lemma DotOfRank(split: Mat, w: Mat, attn: Mat, weight: Mat, lo: int, hi: int, m: nat, j: nat)
    requires IsColumns(split, attn, lo, hi) && IsRows(w, weight, lo, hi) && m < |attn|
    ensures lo <= hi && Mlp.Dot(split, w, m, j) == Sum(Mlp.MulTerm(attn, weight, m, j), lo, hi)
  {
    hide Sum;
    forall k | 0 <= k < hi - lo
      ensures Mlp.MulTerm(split, w, m, j)(k) == Mlp.MulTerm(attn, weight, m, j)(k + lo)
    {
    }
    SumShift(Mlp.MulTerm(attn, weight, m, j), Mlp.MulTerm(split, w, m, j), lo, 0, hi - lo);
  }

  function Zeros(n: nat): (z: seq<real>)
    ensures |z| == n && forall j :: 0 <= j < n ==> z[j] == 0.0
  {
    seq(n, _ => 0.0)
  }

  /** What rank s leaves in a cell: its piece of the product, and on rank 0 bias and residual. */
  function RankPart(attn: Mat, weight: Mat, own: real, lo: int, hi: int, isMaster: bool, m: nat, j: nat): real
    requires lo <= hi
  {
    Sum(Mlp.MulTerm(attn, weight, m, j), lo, hi) + if isMaster then own else 0.0
  }

  /** The projection step of rank s.  The bias is kept on rank 0 and zeroed elsewhere; only rank 0 adds the
      input.  attnSplit holds the attention output of the rank's own heads. */
  method ProjectRank(s: nat, attnSplit: Mat, w: Mat, bias: seq<real>, gamma: real, input: Mat, output: array2<real>,
                     ghost attn: Mat, ghost weight: Mat, ghost lo: int, ghost hi: int)
    requires IsColumns(attnSplit, attn, lo, hi) && IsRows(w, weight, lo, hi) && |attn| == output.Length0
    modifies output
    ensures lo <= hi && forall m: nat, j: nat :: m < output.Length0 && j < output.Length1 ==>
      output[m, j] == RankPart(attn, weight, Own(bias, gamma, input, m, j), lo, hi, s == 0, m, j)
  {
    hide Mlp.Dot, Mlp.MulTerm, Sum, IsColumns, IsRows;
    var attnOutputBias := if s == 0 then bias else Zeros(|bias|);
    Mlp.Compute(attnSplit, w, output, if s == 0 then Mlp.ResExt(attnOutputBias, gamma, input)
      else Mlp.Bias(attnOutputBias));
    Nonempty(attnSplit, attn, lo, hi);
    forall m: nat, j: nat | m < output.Length0 && j < output.Length1
      ensures output[m, j] == RankPart(attn, weight, Own(bias, gamma, input, m, j), lo, hi, s == 0, m, j)
    {
      DotOfRank(attnSplit, w, attn, weight, lo, hi, m, j);
    }
  }

  lemma Nonempty(split: Mat, attn: Mat, lo: int, hi: int)
    requires IsColumns(split, attn, lo, hi)
    ensures lo <= hi
  {
  }

  /** The sum of what the first s ranks leave in a cell. */
  function PartsSum(z: Sizes, numSplit: nat, attn: Mat, weight: Mat, own: real, m: nat, j: nat, s: nat): real
    requires s <= numSplit && 0 < numSplit
  {
    Sum(ProjectionPiece(Mlp.MulTerm(attn, weight, m, j), z.attHeadNum, numSplit, z.headSize), 0, s) + if s > 0 then own
      else 0.0
  }

  lemma NextPart(z: Sizes, numSplit: nat, attn: Mat, weight: Mat, own: real, m: nat, j: nat, s: nat, lo: int, hi: int)
    requires s < numSplit && RankColumns(z, numSplit, s, lo, hi) && lo <= hi
    ensures PartsSum(z, numSplit, attn, weight, own, m, j, 0) == 0.0
    ensures PartsSum(z, numSplit, attn, weight, own, m, j, s + 1) ==
      PartsSum(z, numSplit, attn, weight, own, m, j, s) + RankPart(attn, weight, own, lo, hi, s == 0, m, j)
  {
    hide ColumnCut, Mlp.MulTerm;
  }

  lemma AllParts(z: Sizes, numSplit: nat, attn: Mat, weight: Mat, bias: seq<real>, gamma: real, input: Mat, m: nat,
                 j: nat)
    requires 0 < numSplit && |weight| == z.AttnCols()
    ensures PartsSum(z, numSplit, attn, weight, Own(bias, gamma, input, m, j), m, j, numSplit)
      == ProjectedCell(attn, weight, bias, gamma, input, m, j)
  {
    hide ProjectionPiece, Mlp.MulTerm, Own;
    OutputProjectionAddsUp(Mlp.MulTerm(attn, weight, m, j), z.attHeadNum, numSplit, z.headSize);
  }

  /** Every rank loads its rows, projects the attention output of its own heads, and the results are added
      up: the sum is the projection of all heads, with bias and residual once, for every number of ranks
      and however the weight file is stored. */
  method ProjectAllRanks(z: Sizes, numSplit: nat, attn: Mat, weight: seq<real>, trans: bool, bias: seq<real>,
                         gamma: real, input: Mat)
    returns (total: array2<real>)
    requires Grouped(z.attHeadNum, z.kvHeadNum) && 0 < numSplit && |weight| == z.AttnCols() * z.hiddenSize
    requires forall m :: 0 <= m < |attn| ==> |attn[m]| == z.AttnCols()
    ensures total.Length0 == |attn| && total.Length1 == z.hiddenSize
    ensures forall m: nat, j: nat :: m < total.Length0 && j < total.Length1 ==>
      total[m, j] == ProjectedCell(attn, Whole(weight, trans, z.AttnCols(), z.hiddenSize), bias, gamma, input, m, j)
  {
    hide Whole, ProjectedCell, PartsSum, RankPart, Own, HeadsOf, IsColumns, IsRows, RankColumns, z.AttnCols;
    ghost var W := Whole(weight, trans, z.AttnCols(), z.hiddenSize);
    total := new real[|attn|, z.hiddenSize]((_, _) => 0.0);
    NoParts(z, numSplit, attn, W, bias, gamma, input);
    for s := 0 to numSplit
      invariant forall m: nat, j: nat :: m < total.Length0 && j < total.Length1 ==>
        total[m, j] == PartsSum(z, numSplit, attn, W, Own(bias, gamma, input, m, j), m, j, s)
    {
      RankRange(z, numSplit, s);
      var h := HeadsOf(z.attHeadNum, z.kvHeadNum, numSplit, s);
      var lo, hi := h.startQ * z.headSize, h.startQ * z.headSize + h.QNum() * z.headSize;
      var w := LoadOutputWeight(z, numSplit, s, weight, trans);
      var attnSplit := ColumnsOf(attn, lo, hi);
      assert IsColumns(attnSplit, attn, lo, hi) by { CutColumns(attn, lo, hi); }
      var output := new real[|attn|, z.hiddenSize];
      ProjectRank(s, attnSplit, w, bias, gamma, input, output, attn, W, lo, hi);
      forall m: nat, j: nat | m < total.Length0 && j < total.Length1
        ensures PartsSum(z, numSplit, attn, W, Own(bias, gamma, input, m, j), m, j, s + 1) == total[m, j] + output[m, j]
      {
        NextPart(z, numSplit, attn, W, Own(bias, gamma, input, m, j), m, j, s, lo, hi);
      }
      AddRank(total, output);
    }
    forall m: nat, j: nat | m < total.Length0 && j < total.Length1
      ensures total[m, j] == ProjectedCell(attn, W, bias, gamma, input, m, j)
    {
      AllParts(z, numSplit, attn, W, bias, gamma, input, m, j);
    }
  }

  lemma NoParts(z: Sizes, numSplit: nat, attn: Mat, W: Mat, bias: seq<real>, gamma: real, input: Mat)
    requires 0 < numSplit
    ensures forall m: nat, j: nat :: PartsSum(z, numSplit, attn, W, Own(bias, gamma, input, m, j), m, j, 0) == 0.0
  {
  }

  lemma CutColumns(attn: Mat, lo: nat, hi: nat)
    requires lo <= hi && forall m :: 0 <= m < |attn| ==> hi <= |attn[m]|
    ensures IsColumns(ColumnsOf(attn, lo, hi), attn, lo, hi)
  {
  }
}
