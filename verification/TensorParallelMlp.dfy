/** The feed-forward layer shared out to ranks: each keeps a range of the intermediate columns, computes
    its part of the down projection, the first rank adds the residual, and the parts are added up. */
module TensorParallelMlp {
  import opened Matrices
  import opened Sums
  import opened TaskSplit
  import opened WeightLayout

  // ---------- what an unsplit layer computes ----------

  function MulTerm(A: Mat, B: Mat, i: int, j: int): int -> real {
    k => if 0 <= i < |A| && 0 <= k < |A[i]| && k < |B| && 0 <= j < |B[k]| then A[i][k] * B[k][j] else 0.0
  }

  function Dot(A: Mat, B: Mat, i: int, j: int): real {
    Sum(MulTerm(A, B, i, j), 0, |B|)
  }

  /** The weights of the whole layer; gate and up are hidden x im, down is im x hidden. */
  datatype Layer = Layer(hiddenSize: nat, imSize: nat, gate: Mat, up: Mat, down: Mat, act: real -> real)

  ghost predicate Shaped(l: Layer) {
    Rect(l.gate, l.hiddenSize, l.imSize) && Rect(l.up, l.hiddenSize, l.imSize) && Rect(l.down, l.imSize, l.hiddenSize)
  }

  /** The layer three weight files stand for. */
  function FileLayer(gateW: seq<real>, upW: seq<real>, downW: seq<real>, trans: bool, hiddenSize: nat, imSize: nat,
                     act: real -> real): (l: Layer)
    requires |gateW| == |upW| == hiddenSize * imSize && |downW| == imSize * hiddenSize
    ensures Shaped(l) && l.hiddenSize == hiddenSize && l.imSize == imSize && l.act == act
    ensures l.gate == Whole(gateW, trans, hiddenSize, imSize) && l.up == Whole(upW, trans, hiddenSize, imSize)
    ensures l.down == Whole(downW, trans, imSize, hiddenSize)
  {
    Layer(hiddenSize, imSize, Whole(gateW, trans, hiddenSize, imSize), Whole(upW, trans, hiddenSize, imSize),
          Whole(downW, trans, imSize, hiddenSize), act)
  }

  function Gated(act: real -> real, gate: real, up: real): real {
    act(gate) * up
  }

  function Hidden(l: Layer, x: Mat, m: int, c: int): real {
    Gated(l.act, Dot(x, l.gate, m, c), Dot(x, l.up, m, c))
  }

  function DownTerm(l: Layer, x: Mat, m: int, j: int): int -> real {
    c => if 0 <= c < |l.down| && 0 <= j < |l.down[c]| then Hidden(l, x, m, c) * l.down[c][j] else 0.0
  }

  /** Down projection of the activated gate times up, plus the residual. */
  function MlpCell(l: Layer, x: Mat, residual: Mat, m: nat, j: nat): real
    requires m < |residual| && j < |residual[m]|
  {
    Sum(DownTerm(l, x, m, j), 0, l.imSize) + residual[m][j]
  }

  /** The terms of a cell written out over the weight files: projections(c)(k) lists what column c of a gate or up
      projection adds up. */
  ghost predicate IsProjection(projection: int -> (int -> real), w: seq<real>, trans: bool, hiddenSize: nat,
                               imSize: nat, x: Mat, m: nat)
  {
    forall c: nat, k: nat :: c < imSize && k < hiddenSize ==>
      projection(c)(k) == Entry(x, m, k) * Element(w, if trans then c * hiddenSize + k else k * imSize + c)
  }

  lemma ProjectionIsDot(projection: int -> (int -> real), w: seq<real>, trans: bool, hiddenSize: nat, imSize: nat,
                        x: Mat, m: nat, c: nat)
    requires |w| == hiddenSize * imSize && c < imSize && m < |x|
      && IsProjection(projection, w, trans, hiddenSize, imSize, x, m)
    ensures Dot(x, Whole(w, trans, hiddenSize, imSize), m, c) == Sum(projection(c), 0, hiddenSize)
  {
    hide Whole, Sum, Element;
    var B := Whole(w, trans, hiddenSize, imSize);
    forall k: nat | k < hiddenSize
      ensures MulTerm(x, B, m, c)(k) == projection(c)(k)
    {
      WholeWrittenOut(w, trans, hiddenSize, imSize, k, c);
      var e := Element(w, if trans then c * hiddenSize + k else k * imSize + c);
      assert projection(c)(k) == Entry(x, m, k) * e && B[k][c] == e;
    }
    SumExt(MulTerm(x, B, m, c), projection(c), 0, hiddenSize);
  }

  /** A cell of the layer three weight files stand for: the activated gate projection times the up projection, down
      projected, plus the residual. */
  lemma MlpWrittenOut(gateW: seq<real>, upW: seq<real>, downW: seq<real>, trans: bool, hiddenSize: nat, imSize: nat,
                      act: real -> real, x: Mat, residual: Mat, m: nat, j: nat, gate: int -> (int -> real),
                      up: int -> (int -> real), f: int -> real)
    requires |gateW| == |upW| == hiddenSize * imSize && |downW| == imSize * hiddenSize
    requires m < |x| && m < |residual| && j < |residual[m]| && j < hiddenSize
    requires IsProjection(gate, gateW, trans, hiddenSize, imSize, x, m)
      && IsProjection(up, upW, trans, hiddenSize, imSize, x, m)
    requires forall c: nat :: c < imSize ==>
      f(c) == act(Sum(gate(c), 0, hiddenSize)) * Sum(up(c), 0, hiddenSize)
        * Element(downW, if trans then j * imSize + c else c * hiddenSize + j)
    ensures MlpCell(FileLayer(gateW, upW, downW, trans, hiddenSize, imSize, act), x, residual, m, j)
      == Sum(f, 0, imSize) + residual[m][j]
  {
    hide Whole, Sum, Element, Dot, IsProjection;
    var l := FileLayer(gateW, upW, downW, trans, hiddenSize, imSize, act);
    forall c: nat | c < imSize
      ensures DownTerm(l, x, m, j)(c) == f(c)
    {
      ProjectionIsDot(gate, gateW, trans, hiddenSize, imSize, x, m, c);
      ProjectionIsDot(up, upW, trans, hiddenSize, imSize, x, m, c);
      WholeWrittenOut(downW, trans, imSize, hiddenSize, c, j);
      assert Hidden(l, x, m, c) == act(Sum(gate(c), 0, hiddenSize)) * Sum(up(c), 0, hiddenSize);
      var down := Element(downW, if trans then j * imSize + c else c * hiddenSize + j);
      assert l.down[c][j] == down;
      assert DownTerm(l, x, m, j)(c) == Hidden(l, x, m, c) * down;
      assert f(c) == act(Sum(gate(c), 0, hiddenSize)) * Sum(up(c), 0, hiddenSize) * down;
    }
    SumExt(DownTerm(l, x, m, j), f, 0, imSize);
  }

  lemma ScaledProduct(p: real, q: real, a: real)
    ensures p * (a * q) == a * (p * q) && (a * p) * q == a * (p * q)
  {
  }

  lemma ScaledDot(w: seq<real>, w': seq<real>, trans: bool, K: nat, N: nat, x: Mat, m: int, n: nat, a: real)
    requires |w| == |w'| == K * N && n < N && forall i :: 0 <= i < |w| ==> w'[i] == a * w[i]
    ensures Dot(x, Whole(w', trans, K, N), m, n) == a * Dot(x, Whole(w, trans, K, N), m, n)
  {
    hide Whole, Sum;
    var B, B' := Whole(w, trans, K, N), Whole(w', trans, K, N);
    forall k | 0 <= k < K
      ensures MulTerm(x, B', m, n)(k) == a * MulTerm(x, B, m, n)(k)
    {
      WholeWrittenOut(w, trans, K, N, k, n);
      WholeWrittenOut(w', trans, K, N, k, n);
      if 0 <= m < |x| && k < |x[m]| {
        ScaledProduct(x[m][k], B[k][n], a);
      }
    }
    SumScale(MulTerm(x, B, m, n), MulTerm(x, B', m, n), a, 0, K);
  }

  // ---------- what a rank computes ----------

  function RankCell(l: Layer, x: Mat, residual: Mat, lo: int, hi: int, isMaster: bool, m: nat, j: nat): real
    requires m < |residual| && j < |residual[m]| && lo <= hi
  {
    Sum(DownTerm(l, x, m, j), lo, hi) + if isMaster then residual[m][j] else 0.0
  }

  /** Columns [lo, hi) of gate and of up side by side. */
  ghost predicate IsJoin(cat: Mat, gate: Mat, up: Mat, lo: int, hi: int)
    requires 0 <= lo <= hi
  {
    && |cat| == |gate| == |up| && Rect(cat, |gate|, 2 * (hi - lo))
    && forall k :: 0 <= k < |cat| ==>
         && hi <= |gate[k]| && hi <= |up[k]|
         && (forall n :: 0 <= n < hi - lo ==> cat[k][n] == gate[k][lo + n])
         && (forall n :: hi - lo <= n < 2 * (hi - lo) ==> cat[k][n] == up[k][n - (hi - lo) + lo])
  }

  /** Gate and up columns of a rank, for one product instead of two. */
  ghost predicate IsGateUp(cat: Mat, l: Layer, lo: int, hi: int)
    requires Shaped(l)
  {
    0 <= lo <= hi <= l.imSize && IsJoin(cat, l.gate, l.up, lo, hi)
  }

  /** A packed join of the right width is the rank's share if it is the join of the rows, and cannot be if
      it has twice the height. */
  lemma GateUpOf(cat: Mat, l: Layer, lo: int, hi: int)
    requires Shaped(l) && 0 <= lo <= hi <= l.imSize
    ensures IsJoin(cat, l.gate, l.up, lo, hi) ==> IsGateUp(cat, l, lo, hi)
    ensures Rect(cat, 2 * l.hiddenSize, hi - lo) ==> (IsGateUp(cat, l, lo, hi) <==> l.hiddenSize == 0)
  {
  }

  lemma JoinOfColumns(cat: Mat, gatePart: Mat, upPart: Mat, gate: Mat, up: Mat, lo: int, hi: int)
    requires IsColumns(gatePart, gate, lo, hi) && IsColumns(upPart, up, lo, hi) && |gate| == |up|
    requires |cat| == |gatePart| && forall k :: 0 <= k < |cat| ==> cat[k] == gatePart[k] + upPart[k]
    ensures IsJoin(cat, gate, up, lo, hi)
  {
  }

  lemma DotColumns(x: Mat, part: Mat, whole: Mat, m: nat, n: nat, col: nat)
    requires |part| == |whole|
    requires forall k :: 0 <= k < |part| ==> n < |part[k]| && col < |whole[k]| && part[k][n] == whole[k][col]
    ensures Dot(x, part, m, n) == Dot(x, whole, m, col)
  {
    SumExt(MulTerm(x, part, m, n), MulTerm(x, whole, m, col), 0, |part|);
  }

  /** The intermediate buffer holds the rank's columns. */
  ghost predicate HoldsHidden(im: Mat, l: Layer, x: Mat, rows: nat, lo: int, hi: int) {
    && lo <= hi && |im| == rows && (forall m :: 0 <= m < rows ==> |im[m]| == hi - lo)
    && forall m, c :: 0 <= m < rows && 0 <= c < hi - lo ==> im[m][c] == Hidden(l, x, m, lo + c)
  }

  lemma DownOfRank(im: Mat, down: Mat, l: Layer, x: Mat, rows: nat, lo: int, hi: int, m: nat, j: nat)
    requires Shaped(l) && HoldsHidden(im, l, x, rows, lo, hi) && IsRows(down, l.down, lo, hi) && m < rows
      && j < l.hiddenSize
    ensures Dot(im, down, m, j) == Sum(DownTerm(l, x, m, j), lo, hi)
  {
    hide Hidden, Sum;
    forall c | 0 <= c < hi - lo
      ensures MulTerm(im, down, m, j)(c) == DownTerm(l, x, m, j)(c + lo)
    {
      assert im[m][c] == Hidden(l, x, m, lo + c);
    }
    SumShift(DownTerm(l, x, m, j), MulTerm(im, down, m, j), lo, 0, hi - lo);
  }

  // ---------- the matrix helper ----------

  /** What a product does with its result: store it, activate it, multiply it into C, add a residual, add a
      bias, add a bias and a scaled residual. */
  datatype Epilogue = Plain | Activate(act: real -> real) | ResMul | Residual(R: Mat) | Bias(b: seq<real>)
                                       | ResExt(b: seq<real>, gamma: real, R: Mat)

  function Finish(e: Epilogue, dot: real, was: real, m: nat, j: nat): real {
    match e
    case Plain => dot
    case Activate(act) => act(dot)
    case ResMul => dot * was
    case Residual(R) => if m < |R| && j < |R[m]| then dot + R[m][j] else dot
    case Bias(b) => if j < |b| then dot + b[j] else dot
    case ResExt(b, gamma, R) =>
      (if j < |b| then dot + b[j] else dot) + (if m < |R| && j < |R[m]| then gamma * R[m][j] else 0.0)
  }

  method Compute(A: Mat, B: Mat, C: array2<real>, e: Epilogue)
    modifies C
    ensures forall m, j :: 0 <= m < C.Length0 && 0 <= j < C.Length1 ==>
      C[m, j] == Finish(e, Dot(A, B, m, j), old(C[m, j]), m, j)
  {
    hide Dot, Finish;
    for m := 0 to C.Length0
      invariant forall r, c :: 0 <= r < C.Length0 && 0 <= c < C.Length1 ==>
        C[r, c] == if r < m then Finish(e, Dot(A, B, r, c), old(C[r, c]), r, c) else old(C[r, c])
    {
      for j := 0 to C.Length1
        invariant forall r, c :: 0 <= r < C.Length0 && 0 <= c < C.Length1 ==>
          C[r, c] == if r < m || (r == m && c < j) then Finish(e, Dot(A, B, r, c), old(C[r, c]), r, c) else old(C[r, c])
      {
        C[m, j] := Finish(e, Dot(A, B, m, j), C[m, j], m, j);
      }
    }
  }

  // ---------- the layer on one rank ----------

  class LlamaMlp {
    const enableCatMlp: bool
    const hiddenSize: nat
    const imSize: nat
    const numSplit: nat
    const splitIdx: nat
    var gateWeight: Mat
    var upWeight: Mat
    var catWeights: Mat
    var downWeight: Mat

    constructor (enableCatMlp: bool, hiddenSize: nat, imSize: nat, numSplit: nat, splitIdx: nat)
      ensures this.enableCatMlp == enableCatMlp && this.hiddenSize == hiddenSize && this.imSize == imSize
      ensures this.numSplit == numSplit && this.splitIdx == splitIdx
    {
      this.enableCatMlp, this.hiddenSize, this.imSize := enableCatMlp, hiddenSize, imSize;
      this.numSplit, this.splitIdx := numSplit, splitIdx;
      gateWeight, upWeight, catWeights, downWeight := [], [], [], [];
    }

    function Lo(): int
      requires 0 < numSplit
    {
      WeightCut(imSize, numSplit, splitIdx)
    }

    function Hi(): int
      requires 0 < numSplit
    {
      WeightCut(imSize, numSplit, splitIdx + 1)
    }

    /** The rank holds its share of the layer's weights. */
    ghost predicate Holds(l: Layer)
      reads this
    {
      && splitIdx < numSplit && Shaped(l) && l.hiddenSize == hiddenSize && l.imSize == imSize
      && IsRows(downWeight, l.down, Lo(), Hi())
      && (if enableCatMlp then IsGateUp(catWeights, l, Lo(), Hi())
          else IsColumns(gateWeight, l.gate, Lo(), Hi()) && IsColumns(upWeight, l.up, Lo(), Hi()))
    }

    /** Load the rank's share.  The concatenated form joins the two converted matrices row by row, which
        leaves the rank with its share exactly if the file stores plain rows. */
    method SetWeights(gateW: seq<real>, upW: seq<real>, downW: seq<real>, trans: bool, act: real -> real)
      requires splitIdx < numSplit
      requires |gateW| == |upW| == hiddenSize * imSize && |downW| == imSize * hiddenSize
      modifies this
      ensures Holds(FileLayer(gateW, upW, downW, trans, hiddenSize, imSize, act)) <==>
        !(enableCatMlp && trans) || hiddenSize == 0
      ensures enableCatMlp && trans ==> |catWeights| == 2 * hiddenSize
    {
      hide Whole, WeightCut, IsColumns, IsRows, IsJoin;
      ghost var l := FileLayer(gateW, upW, downW, trans, hiddenSize, imSize, act);
      if !enableCatMlp {
        gateWeight := LoadWeight(trans, hiddenSize, imSize, gateW, numSplit, splitIdx, true);
        upWeight := LoadWeight(trans, hiddenSize, imSize, upW, numSplit, splitIdx, true);
      } else {
        catWeights := LoadCat(gateW, upW, trans);
        GateUpOf(catWeights, l, Lo(), Hi());
      }
      downWeight := LoadWeight(trans, imSize, hiddenSize, downW, numSplit, splitIdx, false);
    }

    /** Convert both, join, pack. */
    method LoadCat(gateW: seq<real>, upW: seq<real>, trans: bool) returns (cat: Mat)
      requires splitIdx < numSplit && |gateW| == |upW| == hiddenSize * imSize
      ensures 0 <= Lo() <= Hi() <= imSize
      ensures trans ==> Rect(cat, 2 * hiddenSize, Hi() - Lo())
      ensures !trans ==>
        IsJoin(cat, Whole(gateW, trans, hiddenSize, imSize), Whole(upW, trans, hiddenSize, imSize), Lo(), Hi())
    {
      hide Whole, WeightCut, At, IsColumns, IsJoin, Packed;
      WeightRangesTile(imSize, numSplit, splitIdx);
      var lo, size := Lo(), Hi() - Lo();
      var gate, rows, cols := ConvertWeight(trans, hiddenSize, imSize, gateW, lo, size, true);
      var up, _, _ := ConvertWeight(trans, hiddenSize, imSize, upW, lo, size, true);
      var joined := CatGateUpWeights(gate, up);
      cat := Packed(trans, joined, rows, 2 * cols);
      if !trans {
        ColumnsLoaded(gate, gateW, trans, hiddenSize, imSize, lo, lo + size);
        ColumnsLoaded(up, upW, trans, hiddenSize, imSize, lo, lo + size);
        JoinOfColumns(cat, gate, up, Whole(gateW, trans, hiddenSize, imSize), Whole(upW, trans, hiddenSize, imSize),
          lo, lo + size);
      }
    }

    /** The same from a file that merges gate and up.  A transposed file cannot be loaded in the
        concatenated form. */
    method SetMergedWeights(merged: seq<real>, downW: seq<real>, trans: bool, act: real -> real) returns (ok: bool)
      requires splitIdx < numSplit
      requires |merged| == hiddenSize * (2 * imSize) && |downW| == imSize * hiddenSize
      modifies this
      ensures ok <==> !(enableCatMlp && trans)
      ensures ok ==> Holds(MergedLayer(merged, downW, trans, hiddenSize, imSize, act))
      ensures !ok ==> unchanged(this)
    {
      hide Whole, WeightCut, IsColumns, IsRows, IsGateUp, ColumnsOf;
      if enableCatMlp && trans {
        return false;
      }
      WeightRangesTile(imSize, numSplit, splitIdx);
      ghost var l := MergedLayer(merged, downW, trans, hiddenSize, imSize, act);
      if !enableCatMlp {
        gateWeight, upWeight := LoadMerged(merged, trans, l);
      } else {
        catWeights := LoadMergedCat(merged, l);
      }
      downWeight := LoadWeight(trans, imSize, hiddenSize, downW, numSplit, splitIdx, false);
      ok := true;
    }

    /** Cut out gate and up and load each as it is. */
    method LoadMerged(merged: seq<real>, trans: bool, ghost l: Layer) returns (gate: Mat, up: Mat)
      requires splitIdx < numSplit && |merged| == hiddenSize * (2 * imSize) && IsMerged(l, merged, trans)
      ensures IsColumns(gate, l.gate, Lo(), Hi()) && IsColumns(up, l.up, Lo(), Hi())
    {
      hide Whole, WeightCut, IsColumns, At, RowAt;
      WeightRangesTile(imSize, numSplit, splitIdx);
      var lo, colSplit := Lo(), Hi() - Lo();
      var gateW, upW := SliceMerged(merged, trans, hiddenSize, imSize, lo, colSplit);
      WeightRangesTile(colSplit, 1, 0);
      gate := LoadWeight(trans, hiddenSize, colSplit, gateW, 1, 0, true);
      up := LoadWeight(trans, hiddenSize, colSplit, upW, 1, 0, true);
      SlicedColumns(gate, gateW, merged, trans, hiddenSize, 2 * imSize, 0, imSize, lo, colSplit);
      SlicedColumns(up, upW, merged, trans, hiddenSize, 2 * imSize, imSize, 2 * imSize, lo, colSplit);
    }

    /** Cut out gate and up side by side and load them as one. */
    method LoadMergedCat(merged: seq<real>, ghost l: Layer) returns (cat: Mat)
      requires splitIdx < numSplit && |merged| == hiddenSize * (2 * imSize) && IsMerged(l, merged, false)
      ensures IsGateUp(cat, l, Lo(), Hi())
    {
      hide Whole, WeightCut, IsColumns, IsGateUp, At, RowAt;
      WeightRangesTile(imSize, numSplit, splitIdx);
      var lo, colSplit := Lo(), Hi() - Lo();
      var gateUpW := SliceMergedCat(merged, hiddenSize, imSize, lo, colSplit, 2 * colSplit);
      WeightRangesTile(2 * colSplit, 1, 0);
      cat := LoadWeight(false, hiddenSize, 2 * colSplit, gateUpW, 1, 0, true);
      SlicedCat(cat, gateUpW, merged, l, lo, colSplit);
    }

    /** The merged file holds the gate of the layer, then its up. */
    ghost predicate IsMerged(l: Layer, merged: seq<real>, trans: bool)
      requires |merged| == hiddenSize * (2 * imSize)
    {
      var all := Whole(merged, trans, hiddenSize, 2 * imSize);
      && Shaped(l) && l.hiddenSize == hiddenSize && l.imSize == imSize
      && l.gate == ColumnsOf(all, 0, imSize) && l.up == ColumnsOf(all, imSize, 2 * imSize)
    }

    /** The feed-forward step of this rank. */
    method Forward(ghost l: Layer, input: array2<real>, norm: seq<real> -> seq<real>, doLnBefore: bool,
                   act: real -> real, normBuf: array2<real>, imBuf: array2<real>, output: array2<real>)
      requires Holds(l) && act == l.act
      requires input.Length1 == normBuf.Length1 == output.Length1 == hiddenSize
      requires input.Length0 == normBuf.Length0 == imBuf.Length0 == output.Length0
      requires imBuf.Length1 == (if enableCatMlp then 2 * (Hi() - Lo()) else Hi() - Lo())
      requires input != normBuf && input != imBuf && input != output && normBuf != imBuf && imBuf != output
        && normBuf != output
      requires forall row :: |norm(row)| == |row|
      modifies normBuf, imBuf, output
      ensures Lo() <= Hi()
      ensures var x := if doLnBefore then NormRows(norm, Grid(input)) else Grid(input);
        forall m, j :: 0 <= m < output.Length0 && 0 <= j < output.Length1 ==>
          output[m, j] == RankCell(l, x, Grid(input), Lo(), Hi(), splitIdx == 0, m, j)
    {
      hide WeightCut, Dot, IsRows, IsColumns, IsGateUp;
      ghost var inputRows := Grid(input);
      if doLnBefore {
        NormForward(input, norm, normBuf);
      }
      var x := if doLnBefore then Grid(normBuf) else Grid(input);
      if !enableCatMlp {
        SeparateProjections(l, x, act, imBuf);
        DownProj(l, x, Grid(imBuf), input, output);
      } else {
        var siluBuf := new real[imBuf.Length0, imBuf.Length1 / 2];
        CatGateUpProj(l, x, act, imBuf, siluBuf);
        DownProj(l, x, Grid(siluBuf), input, output);
      }
    }

    method SeparateProjections(ghost l: Layer, x: Mat, act: real -> real, imBuf: array2<real>)
      requires Holds(l) && act == l.act && !enableCatMlp && imBuf.Length1 == Hi() - Lo()
      modifies imBuf
      ensures HoldsHidden(Grid(imBuf), l, x, imBuf.Length0, Lo(), Hi())
    {
      hide WeightCut, Dot;
      Compute(x, gateWeight, imBuf, Activate(act));
      Compute(x, upWeight, imBuf, ResMul);
      forall m: nat, c: nat | m < imBuf.Length0 && c < imBuf.Length1
        ensures imBuf[m, c] == Hidden(l, x, m, Lo() + c)
      {
        DotColumns(x, gateWeight, l.gate, m, c, Lo() + c);
        DotColumns(x, upWeight, l.up, m, c, Lo() + c);
      }
    }

    method CatGateUpProj(ghost l: Layer, x: Mat, act: real -> real, imBuf: array2<real>, siluBuf: array2<real>)
      requires Holds(l) && act == l.act && enableCatMlp && imBuf != siluBuf
      requires imBuf.Length1 == 2 * (Hi() - Lo()) && siluBuf.Length1 == Hi() - Lo() && siluBuf.Length0 == imBuf.Length0
      modifies imBuf, siluBuf
      ensures HoldsHidden(Grid(siluBuf), l, x, siluBuf.Length0, Lo(), Hi())
    {
      hide WeightCut, Dot;
      Compute(x, catWeights, imBuf, Plain);
      SiluSum(act, imBuf, siluBuf);
      forall m: nat, c: nat | m < siluBuf.Length0 && c < siluBuf.Length1
        ensures siluBuf[m, c] == Hidden(l, x, m, Lo() + c)
      {
        DotColumns(x, catWeights, l.gate, m, c, Lo() + c);
        DotColumns(x, catWeights, l.up, m, siluBuf.Length1 + c, Lo() + c);
      }
    }

    method DownProj(ghost l: Layer, x: Mat, im: Mat, input: array2<real>, output: array2<real>)
      requires Holds(l) && input != output && output.Length0 == input.Length0
        && output.Length1 == input.Length1 == hiddenSize
      requires HoldsHidden(im, l, x, output.Length0, Lo(), Hi())
      modifies output
      ensures Lo() <= Hi() && forall m, j :: 0 <= m < output.Length0 && 0 <= j < output.Length1 ==>
        output[m, j] == RankCell(l, x, Grid(input), Lo(), Hi(), splitIdx == 0, m, j)
    {
      hide WeightCut, Dot, DownTerm, HoldsHidden, IsRows;
      if splitIdx == 0 {
        Compute(im, downWeight, output, Residual(Grid(input)));
      } else {
        Compute(im, downWeight, output, Plain);
      }
      HiddenRange(im, l, x, output.Length0, Lo(), Hi());
      forall m: nat, j: nat | m < output.Length0 && j < output.Length1
        ensures Dot(im, downWeight, m, j) == Sum(DownTerm(l, x, m, j), Lo(), Hi())
      {
        DownOfRank(im, downWeight, l, x, output.Length0, Lo(), Hi(), m, j);
      }
    }
  }

  lemma HiddenRange(im: Mat, l: Layer, x: Mat, rows: nat, lo: int, hi: int)
    requires HoldsHidden(im, l, x, rows, lo, hi)
    ensures lo <= hi
  {
  }

  function NormRows(norm: seq<real> -> seq<real>, x: Mat): (y: Mat)
    ensures |y| == |x| && forall m :: 0 <= m < |x| ==> y[m] == norm(x[m])
  {
    seq(|x|, m requires 0 <= m < |x| => norm(x[m]))
  }

  method NormForward(input: array2<real>, norm: seq<real> -> seq<real>, normBuf: array2<real>)
    requires input != normBuf && input.Length0 == normBuf.Length0 && input.Length1 == normBuf.Length1
    requires forall row :: |norm(row)| == |row|
    modifies normBuf
    ensures Grid(normBuf) == NormRows(norm, Grid(input))
  {
    for m := 0 to input.Length0
      invariant forall r, c :: 0 <= r < m && 0 <= c < input.Length1 ==> normBuf[r, c] == norm(RowOf(input, r))[c]
    {
      var row := norm(RowOf(input, m));
      for j := 0 to input.Length1
        invariant forall r, c :: 0 <= r < m && 0 <= c < input.Length1 ==> normBuf[r, c] == norm(RowOf(input, r))[c]
        invariant forall c :: 0 <= c < j ==> normBuf[m, c] == row[c]
      {
        normBuf[m, j] := row[j];
      }
    }
    forall r | 0 <= r < input.Length0
      ensures Grid(normBuf)[r] == norm(Grid(input)[r])
    {
      assert Grid(input)[r] == RowOf(input, r);
    }
  }

  /** Activation of the left half times the right half. */
  method SiluSum(act: real -> real, src: array2<real>, dst: array2<real>)
    requires src != dst && src.Length0 == dst.Length0 && src.Length1 == 2 * dst.Length1
    modifies dst
    ensures forall m, c :: 0 <= m < dst.Length0 && 0 <= c < dst.Length1 ==>
      dst[m, c] == Gated(act, src[m, c], src[m, dst.Length1 + c])
  {
    hide Gated;
    for m := 0 to dst.Length0
      invariant forall r, c :: 0 <= r < m && 0 <= c < dst.Length1 ==>
        dst[r, c] == Gated(act, src[r, c], src[r, dst.Length1 + c])
    {
      for j := 0 to dst.Length1
        invariant forall r, c :: 0 <= r < m && 0 <= c < dst.Length1 ==>
          dst[r, c] == Gated(act, src[r, c], src[r, dst.Length1 + c])
        invariant forall c :: 0 <= c < j ==> dst[m, c] == Gated(act, src[m, c], src[m, dst.Length1 + c])
      {
        dst[m, j] := Gated(act, src[m, j], src[m, dst.Length1 + j]);
      }
    }
  }

  /** Join two converted matrices row by row. */
  method CatGateUpWeights(gate: Mat, up: Mat) returns (cat: Mat)
    requires |gate| == |up|
    ensures |cat| == |gate| && forall i :: 0 <= i < |cat| ==> cat[i] == gate[i] + up[i]
  {
    cat := [];
    for i := 0 to |gate|
      invariant |cat| == i && forall r :: 0 <= r < i ==> cat[r] == gate[r] + up[r]
    {
      cat := cat + [gate[i] + up[i]];
    }
  }

  /** Joining rows only works for weights stored by rows: the converted matrices of a transposed weight
      are columns x hidden, and their join is packed into a matrix of the wrong height. */
  lemma CatNeedsPlainRows(trans: bool, gate: Mat, up: Mat, cat: Mat, hiddenSize: nat, n: nat)
    requires 0 < hiddenSize && 0 < n
    requires if trans then Rect(gate, n, hiddenSize) && Rect(up, n, hiddenSize)
      else Rect(gate, hiddenSize, n) && Rect(up, hiddenSize, n)
    requires |cat| == |gate| && forall i :: 0 <= i < |cat| ==> cat[i] == gate[i] + up[i]
    ensures Rect(cat, |gate|, |gate[0]| + |up[0]|)
    ensures |Packed(trans, cat, |gate|, |gate[0]| + |up[0]|)| == hiddenSize <==> !trans
  {
  }

  // ---------- the merged file ----------

  /** The layer a merged file stands for: gate columns first, then up columns. */
  function MergedLayer(merged: seq<real>, downW: seq<real>, trans: bool, hiddenSize: nat, imSize: nat,
                       act: real -> real): (l: Layer)
    requires |merged| == hiddenSize * (2 * imSize) && |downW| == imSize * hiddenSize
    ensures Shaped(l) && l.hiddenSize == hiddenSize && l.imSize == imSize && l.act == act
    ensures l.down == Whole(downW, trans, imSize, hiddenSize)
    ensures l.gate == ColumnsOf(Whole(merged, trans, hiddenSize, 2 * imSize), 0, imSize)
    ensures l.up == ColumnsOf(Whole(merged, trans, hiddenSize, 2 * imSize), imSize, 2 * imSize)
  {
    var all := Whole(merged, trans, hiddenSize, 2 * imSize);
    Layer(hiddenSize, imSize, ColumnsOf(all, 0, imSize), ColumnsOf(all, imSize, 2 * imSize),
      Whole(downW, trans, imSize, hiddenSize), act)
  }

  lemma SlicedColumns(w: Mat, part: seq<real>, merged: seq<real>, trans: bool, K: nat, N: nat, from: nat, to: nat,
                      lo: nat, n: nat)
    requires |merged| == K * N && |part| == K * n && from + lo + n <= to <= N
    requires forall k: nat, c: nat :: k < K && c < n ==>
      At(part, trans, K, n, k, c) == At(merged, trans, K, N, k, from + lo + c)
    requires IsColumns(w, Whole(part, trans, K, n), 0, n)
    ensures IsColumns(w, ColumnsOf(Whole(merged, trans, K, N), from, to), lo, lo + n)
  {
    hide At;
    var whole, small := Whole(merged, trans, K, N), Whole(part, trans, K, n);
    hide Whole;
    var half := ColumnsOf(whole, from, to);
    forall k: nat, c: nat | k < K && c < n
      ensures w[k][c] == half[k][lo + c]
    {
      assert w[k][c] == small[k][0 + c];
    }
  }

  lemma SlicedCat(w: Mat, gateUpW: seq<real>, merged: seq<real>, l: Layer, lo: nat, n: nat)
    requires |merged| == l.hiddenSize * (2 * l.imSize) && |gateUpW| == l.hiddenSize * (2 * n) && lo + n <= l.imSize
      && Shaped(l)
    requires l.gate == ColumnsOf(Whole(merged, false, l.hiddenSize, 2 * l.imSize), 0, l.imSize)
    requires l.up == ColumnsOf(Whole(merged, false, l.hiddenSize, 2 * l.imSize), l.imSize, 2 * l.imSize)
    requires forall r: nat, c: nat :: r < l.hiddenSize && c < 2 * n ==>
      RowAt(gateUpW, 2 * n, r, c) == RowAt(merged, 2 * l.imSize, r, if c < n then lo + c else l.imSize + lo + (c - n))
    requires IsColumns(w, Whole(gateUpW, false, l.hiddenSize, 2 * n), 0, 2 * n)
    ensures IsGateUp(w, l, lo, lo + n)
  {
    hide At, RowAt, ColumnsOf;
    var whole, small := Whole(merged, false, l.hiddenSize, 2 * l.imSize), Whole(gateUpW, false, l.hiddenSize, 2 * n);
    hide Whole;
    forall k: nat, c: nat | k < l.hiddenSize && c < 2 * n
      ensures w[k][c] == if c < n then l.gate[k][lo + c] else l.up[k][c - n + lo]
    {
      var from := if c < n then lo + c else l.imSize + lo + (c - n);
      assert w[k][c] == small[k][0 + c];
      RowAtIsAt(gateUpW, l.hiddenSize, 2 * n, k, c);
      RowAtIsAt(merged, l.hiddenSize, 2 * l.imSize, k, from);
      assert whole[k][from] == if c < n then l.gate[k][lo + c] else l.up[k][c - n + lo];
    }
  }

  // ---------- all ranks together ----------

  /** What rank s contributes to a cell. */
  function RankTerm(l: Layer, x: Mat, residual: Mat, splits: nat, m: nat, j: nat): int -> real
    requires 0 < splits && m < |residual| && j < |residual[m]|
  {
    s => if 0 <= s < splits then
           WeightRangesTile(l.imSize, splits, s);
           RankCell(l, x, residual, WeightCut(l.imSize, splits, s), WeightCut(l.imSize, splits, s + 1), s == 0, m, j)
         else 0.0
  }

  function Cuts(N: nat, splits: nat): int -> int
    requires 0 < splits
  {
    s => WeightCut(N, splits, s)
  }

  function Piece(f: int -> real, N: nat, splits: nat): int -> real
    requires 0 < splits
  {
    s => if WeightCut(N, splits, s) <= WeightCut(N, splits, s + 1)
      then Sum(f, WeightCut(N, splits, s), WeightCut(N, splits, s + 1)) else 0.0
  }

  function OnlyMaster(v: real): int -> real {
    s => if s == 0 then v else 0.0
  }

  lemma RankSplitsUp(l: Layer, x: Mat, residual: Mat, splits: nat, m: nat, j: nat, s: nat)
    requires 0 < splits && m < |residual| && j < |residual[m]| && s < splits
    ensures var f, cut := DownTerm(l, x, m, j), Cuts(l.imSize, splits);
      && cut(s) <= cut(s + 1) && Piece(f, l.imSize, splits)(s) == Sum(f, cut(s), cut(s + 1))
      && RankTerm(l, x, residual, splits, m, j)(s) == Piece(f, l.imSize, splits)(s) + OnlyMaster(residual[m][j])(s)
      && cut(0) == 0 && cut(splits) == l.imSize
  {
    hide WeightCut, DownTerm, Sum, RankTerm;
    CutsGrow(l.imSize, splits, s);
    RankTermIs(l, x, residual, splits, m, j, s);
  }

  lemma CutsGrow(N: nat, splits: nat, s: nat)
    requires s < splits
    ensures WeightCut(N, splits, s) <= WeightCut(N, splits, s + 1)
    ensures WeightCut(N, splits, 0) == 0 && WeightCut(N, splits, splits) == N
  {
    hide WeightCut;
    WeightRangesTile(N, splits, s);
  }

  lemma RankTermIs(l: Layer, x: Mat, residual: Mat, splits: nat, m: nat, j: nat, s: nat)
    requires 0 < splits && m < |residual| && j < |residual[m]| && s < splits
    requires WeightCut(l.imSize, splits, s) <= WeightCut(l.imSize, splits, s + 1)
    ensures RankTerm(l, x, residual, splits, m, j)(s) ==
      RankCell(l, x, residual, WeightCut(l.imSize, splits, s), WeightCut(l.imSize, splits, s + 1), s == 0, m, j)
  {
    hide WeightCut, RankCell;
  }

  /** For any number of ranks, even or uneven, with or without empty shares, the contributions add up to
      the cell of the unsplit layer: every column once, the residual once. */
  lemma RanksAddUp(l: Layer, x: Mat, residual: Mat, splits: nat, m: nat, j: nat)
    requires Shaped(l) && 0 < splits && m < |residual| && j < |residual[m]|
    ensures Sum(RankTerm(l, x, residual, splits, m, j), 0, splits) == MlpCell(l, x, residual, m, j)
  {
    hide WeightCut, DownTerm, Sum, RankTerm, Cuts, Piece, Shaped;
    var f, cut, piece, first :=
      DownTerm(l, x, m, j), Cuts(l.imSize, splits), Piece(DownTerm(l, x, m, j), l.imSize, splits),
      OnlyMaster(residual[m][j]);
    var all := RankTerm(l, x, residual, splits, m, j);
    forall s: nat | s < splits
      ensures cut(s) <= cut(s + 1) && piece(s) == Sum(f, cut(s), cut(s + 1)) && all(s) == piece(s) + first(s)
    {
      RankSplitsUp(l, x, residual, splits, m, j, s);
    }
    RankSplitsUp(l, x, residual, splits, m, j, 0);
    PiecesSum(f, cut, piece, splits);
    SumAdd(piece, first, all, 0, splits);
    MasterOnce(residual[m][j], splits);
  }

  /** Scaling the up weights scales the layer's output, and zero up weights leave the residual alone. */
  lemma UpWeightsAreLinear(gateW: seq<real>, upW: seq<real>, upW': seq<real>, downW: seq<real>, trans: bool,
                           hiddenSize: nat, imSize: nat, act: real -> real, x: Mat, residual: Mat, m: nat, j: nat,
                           a: real)
    requires |gateW| == |upW| == |upW'| == hiddenSize * imSize && |downW| == imSize * hiddenSize
    requires forall i :: 0 <= i < |upW| ==> upW'[i] == a * upW[i]
    requires m < |residual| && j < |residual[m]|
    ensures MlpCell(FileLayer(gateW, upW', downW, trans, hiddenSize, imSize, act), x, residual, m, j) - residual[m][j]
      == a * (MlpCell(FileLayer(gateW, upW, downW, trans, hiddenSize, imSize, act), x, residual, m, j) - residual[m][j])
  {
    hide Whole, Sum, Dot, At;
    var l := FileLayer(gateW, upW, downW, trans, hiddenSize, imSize, act);
    var l' := FileLayer(gateW, upW', downW, trans, hiddenSize, imSize, act);
    forall c | 0 <= c < imSize
      ensures DownTerm(l', x, m, j)(c) == a * DownTerm(l, x, m, j)(c)
    {
      ScaledDot(upW, upW', trans, hiddenSize, imSize, x, m, c, a);
      ScaledProduct(act(Dot(x, l.gate, m, c)), Dot(x, l.up, m, c), a);
      if 0 <= j < hiddenSize {
        ScaledProduct(Hidden(l, x, m, c), l.down[c][j], a);
      }
    }
    SumScale(DownTerm(l, x, m, j), DownTerm(l', x, m, j), a, 0, imSize);
  }

  /** With a constant activation the gate weights do not matter. */
  lemma ConstantActivationIgnoresGate(gateW: seq<real>, gateW': seq<real>, upW: seq<real>, downW: seq<real>,
                                      trans: bool, hiddenSize: nat, imSize: nat, act: real -> real, x: Mat,
                                      residual: Mat, m: nat, j: nat, v: real)
    requires |gateW| == |gateW'| == |upW| == hiddenSize * imSize && |downW| == imSize * hiddenSize
    requires m < |residual| && j < |residual[m]| && forall t :: act(t) == v
    ensures MlpCell(FileLayer(gateW', upW, downW, trans, hiddenSize, imSize, act), x, residual, m, j)
      == MlpCell(FileLayer(gateW, upW, downW, trans, hiddenSize, imSize, act), x, residual, m, j)
  {
    hide Whole, Sum, Dot, At;
    var l := FileLayer(gateW, upW, downW, trans, hiddenSize, imSize, act);
    var l' := FileLayer(gateW', upW, downW, trans, hiddenSize, imSize, act);
    SumExt(DownTerm(l, x, m, j), DownTerm(l', x, m, j), 0, imSize);
  }

  /** What the ranks add up to, in terms of the weight files: scaling the up weights scales it, up to the residual, and
      zero up weights leave the residual. */
  lemma TotalIsLinearInUp(gateW: seq<real>, upW: seq<real>, upW': seq<real>, downW: seq<real>, trans: bool,
                          hiddenSize: nat, imSize: nat, act: real -> real, x: Mat, residual: Mat, splits: nat, m: nat,
                          j: nat, a: real)
    requires |gateW| == |upW| == |upW'| == hiddenSize * imSize && |downW| == imSize * hiddenSize && 0 < splits
    requires forall i :: 0 <= i < |upW| ==> upW'[i] == a * upW[i]
    requires m < |residual| && j < |residual[m]|
    ensures var l := FileLayer(gateW, upW, downW, trans, hiddenSize, imSize, act);
      var l' := FileLayer(gateW, upW', downW, trans, hiddenSize, imSize, act);
      Sum(RankTerm(l', x, residual, splits, m, j), 0, splits) - residual[m][j]
        == a * (Sum(RankTerm(l, x, residual, splits, m, j), 0, splits) - residual[m][j])
  {
    hide FileLayer, MlpCell, RankTerm, Sum, Shaped;
    var l := FileLayer(gateW, upW, downW, trans, hiddenSize, imSize, act);
    var l' := FileLayer(gateW, upW', downW, trans, hiddenSize, imSize, act);
    UpWeightsAreLinear(gateW, upW, upW', downW, trans, hiddenSize, imSize, act, x, residual, m, j, a);
    RanksAddUp(l, x, residual, splits, m, j);
    RanksAddUp(l', x, residual, splits, m, j);
  }

  /** With a constant activation the ranks' total does not depend on the gate weights. */
  lemma TotalIgnoresGate(gateW: seq<real>, gateW': seq<real>, upW: seq<real>, downW: seq<real>, trans: bool,
                         hiddenSize: nat, imSize: nat, act: real -> real, x: Mat, residual: Mat, splits: nat, m: nat,
                         j: nat, v: real)
    requires |gateW| == |gateW'| == |upW| == hiddenSize * imSize && |downW| == imSize * hiddenSize && 0 < splits
    requires m < |residual| && j < |residual[m]| && forall t :: act(t) == v
    ensures var l := FileLayer(gateW, upW, downW, trans, hiddenSize, imSize, act);
      var l' := FileLayer(gateW', upW, downW, trans, hiddenSize, imSize, act);
      Sum(RankTerm(l', x, residual, splits, m, j), 0, splits) == Sum(RankTerm(l, x, residual, splits, m, j), 0, splits)
  {
    ConstantActivationIgnoresGate(gateW, gateW', upW, downW, trans, hiddenSize, imSize, act, x, residual, m, j, v);
    hide FileLayer, MlpCell, RankTerm, Sum, Shaped;
    RanksAddUp(FileLayer(gateW, upW, downW, trans, hiddenSize, imSize, act), x, residual, splits, m, j);
    RanksAddUp(FileLayer(gateW', upW, downW, trans, hiddenSize, imSize, act), x, residual, splits, m, j);
  }

  lemma MasterOnce(v: real, n: nat)
    requires 0 < n
    ensures Sum(OnlyMaster(v), 0, n) == v
  {
    SumSplit(OnlyMaster(v), 0, 1, n);
    SumZero(OnlyMaster(v), 1, n);
    assert Sum(OnlyMaster(v), 0, 0) == 0.0;
  }

  lemma RankNext(l: Layer, x: Mat, residual: Mat, splits: nat, m: nat, j: nat, s: nat)
    requires 0 < splits && m < |residual| && j < |residual[m]| && s < splits
    ensures WeightCut(l.imSize, splits, s) <= WeightCut(l.imSize, splits, s + 1)
    ensures Sum(RankTerm(l, x, residual, splits, m, j), 0, s + 1) ==
      Sum(RankTerm(l, x, residual, splits, m, j), 0, s)
      + RankCell(l, x, residual, WeightCut(l.imSize, splits, s), WeightCut(l.imSize, splits, s + 1), s == 0, m, j)
  {
    hide RankCell, WeightCut;
    WeightRangesTile(l.imSize, splits, s);
  }

  /** Every rank loads its share, runs the layer on the same input, and the results are added up: the sum
      is the unsplit layer, whichever of the two projection forms the ranks use and however the
      weight files are stored. */
  method RunAllRanks(enableCatMlp: bool, hiddenSize: nat, imSize: nat, numSplit: nat, gateW: seq<real>, upW: seq<real>,
                     downW: seq<real>, trans: bool, act: real -> real, input: array2<real>,
                     norm: seq<real> -> seq<real>)
    returns (total: array2<real>)
    requires 0 < numSplit && |gateW| == |upW| == hiddenSize * imSize && |downW| == imSize * hiddenSize
    requires (enableCatMlp ==> !trans) && input.Length1 == hiddenSize && forall row :: |norm(row)| == |row|
    ensures total.Length0 == input.Length0 && total.Length1 == hiddenSize
    ensures var l := FileLayer(gateW, upW, downW, trans, hiddenSize, imSize, act);
      forall m, j :: 0 <= m < total.Length0 && 0 <= j < total.Length1 ==>
        total[m, j] == MlpCell(l, NormRows(norm, Grid(input)), Grid(input), m, j)
  {
    hide Whole, FileLayer, MlpCell, RankCell, RankTerm, Sum, WeightCut, Grid, NormRows;
    ghost var l := FileLayer(gateW, upW, downW, trans, hiddenSize, imSize, act);
    ghost var x, residual := NormRows(norm, Grid(input)), Grid(input);
    total := new real[input.Length0, hiddenSize]((_, _) => 0.0);
    NothingAdded(l, x, residual, numSplit);
    for s := 0 to numSplit
      invariant Grid(input) == residual
      invariant forall m, j :: 0 <= m < total.Length0 && 0 <= j < total.Length1 ==>
        total[m, j] == Sum(RankTerm(l, x, residual, numSplit, m, j), 0, s)
    {
      var part := RunRank(enableCatMlp, hiddenSize, imSize, numSplit, s, gateW, upW, downW, trans, act, input, norm);
      forall m, j | 0 <= m < total.Length0 && 0 <= j < total.Length1
        ensures total[m, j] + part[m, j] == Sum(RankTerm(l, x, residual, numSplit, m, j), 0, s + 1)
      {
        RankNext(l, x, residual, numSplit, m, j, s);
      }
      AddRank(total, part);
    }
    forall m, j | 0 <= m < total.Length0 && 0 <= j < total.Length1
      ensures total[m, j] == MlpCell(l, x, residual, m, j)
    {
      RanksAddUp(l, x, residual, numSplit, m, j);
    }
  }

  lemma NothingAdded(l: Layer, x: Mat, residual: Mat, splits: nat)
    requires 0 < splits
    ensures forall m: nat, j: nat :: m < |residual| && j < |residual[m]| ==>
      Sum(RankTerm(l, x, residual, splits, m, j), 0, 0) == 0.0
  {
    hide RankTerm;
  }

  method RunRank(enableCatMlp: bool, hiddenSize: nat, imSize: nat, numSplit: nat, s: nat, gateW: seq<real>,
                 upW: seq<real>, downW: seq<real>, trans: bool, act: real -> real, input: array2<real>,
                 norm: seq<real> -> seq<real>)
    returns (output: array2<real>)
    requires s < numSplit && |gateW| == |upW| == hiddenSize * imSize && |downW| == imSize * hiddenSize
    requires (enableCatMlp ==> !trans) && input.Length1 == hiddenSize && forall row :: |norm(row)| == |row|
    ensures output.Length0 == input.Length0 && output.Length1 == hiddenSize && fresh(output)
    ensures var l := FileLayer(gateW, upW, downW, trans, hiddenSize, imSize, act);
      WeightCut(imSize, numSplit, s) <= WeightCut(imSize, numSplit, s + 1) &&
      forall m, j :: 0 <= m < output.Length0 && 0 <= j < output.Length1 ==>
        output[m, j]
          == RankCell(l, NormRows(norm, Grid(input)), Grid(input), WeightCut(imSize, numSplit, s),
          WeightCut(imSize, numSplit, s + 1), s == 0, m, j)
  {
    hide Whole, FileLayer, RankCell, WeightCut, Grid, NormRows;
    ghost var l := FileLayer(gateW, upW, downW, trans, hiddenSize, imSize, act);
    WeightRangesTile(imSize, numSplit, s);
    var mlp := new LlamaMlp(enableCatMlp, hiddenSize, imSize, numSplit, s);
    mlp.SetWeights(gateW, upW, downW, trans, act);
    var cols := mlp.Hi() - mlp.Lo();
    var normBuf := new real[input.Length0, hiddenSize];
    var imBuf := new real[input.Length0, if enableCatMlp then 2 * cols else cols];
    output := new real[input.Length0, hiddenSize];
    mlp.Forward(l, input, norm, true, act, normBuf, imBuf, output);
  }
}
