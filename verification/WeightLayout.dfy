/** Weights as they come from the model files, flat and possibly transposed, and the slice a rank keeps. */
module WeightLayout {
  import opened Matrices
  import opened TaskSplit
  import Arith

  /** The flat array holds a K x N matrix row by row, or its transpose. */
  function At(w: seq<real>, trans: bool, K: nat, N: nat, k: nat, n: nat): real
    requires |w| == K * N && k < K && n < N
  {
    if trans then
      Arith.CellInRange(n, k, N, K);
      Arith.Swap(K, N);
      w[n * K + k]
    else
      Arith.CellInRange(k, n, K, N);
      w[k * N + n]
  }

  /** The matrix meant by a flat array. */
  function Whole(w: seq<real>, trans: bool, K: nat, N: nat): (m: Mat)
    requires |w| == K * N
    ensures Rect(m, K, N)
    ensures forall k, n :: 0 <= k < K && 0 <= n < N ==> m[k][n] == At(w, trans, K, N, k, n)
  {
    seq(K, k requires 0 <= k < K => seq(N, n requires 0 <= n < N => At(w, trans, K, N, k, n)))
  }

  /** Where an element of the matrix is in the file: row by row, or, transposed, column by column. */
  lemma WholeWrittenOut(w: seq<real>, trans: bool, K: nat, N: nat, k: nat, n: nat)
    requires |w| == K * N && k < K && n < N
    ensures 0 <= (if trans then n * K + k else k * N + n) < |w|
    ensures Whole(w, trans, K, N)[k][n] == Element(w, if trans then n * K + k else k * N + n)
  {
    Arith.CellInRange(n, k, N, K);
    Arith.CellInRange(k, n, K, N);
    Arith.Swap(K, N);
  }

  ghost predicate IsColumns(part: Mat, whole: Mat, lo: int, hi: int) {
    && 0 <= lo <= hi && |part| == |whole|
    && forall k :: 0 <= k < |part| ==>
         |part[k]| == hi - lo && hi <= |whole[k]| && forall n :: 0 <= n < hi - lo ==> part[k][n] == whole[k][lo + n]
  }

  ghost predicate IsRows(part: Mat, whole: Mat, lo: int, hi: int) {
    0 <= lo <= hi <= |whole| && |part| == hi - lo && forall k :: 0 <= k < |part| ==> part[k] == whole[lo + k]
  }

  /** Packing reads the converted matrix, transposed if the weight was. */
  function Packed(trans: bool, src: Mat, rows: nat, cols: nat): (m: Mat)
    requires Rect(src, rows, cols)
    ensures Rect(m, if trans then cols else rows, if trans then rows else cols)
    ensures trans ==> forall k, n :: 0 <= k < cols && 0 <= n < rows ==> m[k][n] == src[n][k]
    ensures !trans ==> m == src
  {
    if trans then seq(cols, k requires 0 <= k < cols => seq(rows, n requires 0 <= n < rows => src[n][k])) else src
  }

  /** Copy a rectangle out of a row-major array. */
  method CopyRectangle(w: seq<real>, rows: nat, cols: nat, rowOffset: nat, rowSize: nat, colOffset: nat, colSize: nat)
    returns (m: Mat)
    requires |w| == rows * cols && rowOffset + rowSize <= rows && colOffset + colSize <= cols
    ensures Rect(m, rowSize, colSize)
    ensures forall r, c :: 0 <= r < rowSize && 0 <= c < colSize ==>
      m[r][c] == At(w, false, rows, cols, rowOffset + r, colOffset + c)
  {
    hide At;
    m := [];
    for i := 0 to rowSize
      invariant Rect(m, i, colSize)
      invariant forall r, c :: 0 <= r < i && 0 <= c < colSize ==>
        m[r][c] == At(w, false, rows, cols, rowOffset + r, colOffset + c)
    {
      RowInside(w, rows, cols, rowOffset + i, colOffset, colSize);
      var at := (rowOffset + i) * cols + colOffset;
      var line := w[at..at + colSize];
      SliceIs(w, rows, cols, rowOffset + i, colOffset, colSize, line);
      m := m + [line];
    }
  }

  lemma RowInside(w: seq<real>, rows: nat, cols: nat, r: nat, colOffset: nat, colSize: nat)
    requires |w| == rows * cols && r < rows && colOffset + colSize <= cols
    ensures 0 <= r * cols + colOffset && r * cols + colOffset + colSize <= |w|
  {
    Arith.MulMono(r + 1, rows, cols);
    Arith.Distribute(cols, r, 1);
    Arith.Swap(cols, r);
    Arith.Swap(cols, r + 1);
    Arith.MulMono(0, r, cols);
  }

  lemma SliceIs(w: seq<real>, rows: nat, cols: nat, r: nat, colOffset: nat, colSize: nat, line: seq<real>)
    requires |w| == rows * cols && r < rows && colOffset + colSize <= cols
    requires 0 <= r * cols + colOffset && r * cols + colOffset + colSize <= |w|
    requires line == w[r * cols + colOffset..r * cols + colOffset + colSize]
    ensures forall c :: 0 <= c < colSize ==> line[c] == At(w, false, rows, cols, r, colOffset + c)
  {
  }

  lemma AtTransposed(w: seq<real>, K: nat, N: nat, k: nat, n: nat)
    requires |w| == K * N == N * K && k < K && n < N
    ensures At(w, true, K, N, k, n) == At(w, false, N, K, n, k)
  {
  }

  /** Copy the slice a rank is responsible for.  For a transposed weight rows and columns change roles
      and so does the direction of the split. */
  method ConvertWeight(trans: bool, K: nat, N: nat, weight: seq<real>, splitOffset: nat, splitSize: nat,
                       verticalSplit: bool)
    returns (converted: Mat, rowSize: nat, colSize: nat)
    requires |weight| == K * N && splitOffset + splitSize <= if verticalSplit then N else K
    ensures Rect(converted, rowSize, colSize)
    ensures var (kSize, nSize) := if verticalSplit then (K, splitSize) else (splitSize, N);
      (rowSize, colSize) == (if trans then (nSize, kSize) else (kSize, nSize))
    ensures var (k0, n0) := if verticalSplit then (0, splitOffset) else (splitOffset, 0);
      forall r: nat, c: nat :: r < rowSize && c < colSize ==>
        converted[r][c]
          == (if trans then At(weight, trans, K, N, k0 + c, n0 + r) else At(weight, trans, K, N, k0 + r, n0 + c))
  {
    hide At;
    Arith.Swap(K, N);
    var rows, cols, vertical := if trans then N else K, if trans then K else N, if trans then !verticalSplit
      else verticalSplit;
    var rowOffset, colOffset := 0, 0;
    if vertical {
      rowSize, colOffset, colSize := rows, splitOffset, splitSize;
    } else {
      rowOffset, rowSize, colSize := splitOffset, splitSize, cols;
    }
    converted := CopyRectangle(weight, rows, cols, rowOffset, rowSize, colOffset, colSize);
    if trans {
      forall r: nat, c: nat | r < rowSize && c < colSize
        ensures converted[r][c] == At(weight, true, K, N, colOffset + c, rowOffset + r)
      {
        AtTransposed(weight, K, N, colOffset + c, rowOffset + r);
      }
    }
  }

  /** What a slice of a weight is after loading: columns, or rows.  Neither depends on whether the file
      was transposed. */
  method LoadSlice(trans: bool, K: nat, N: nat, weight: seq<real>, splitOffset: nat, splitSize: nat,
                   verticalSplit: bool)
    returns (w: Mat)
    requires |weight| == K * N && splitOffset + splitSize <= if verticalSplit then N else K
    ensures verticalSplit ==> IsColumns(w, Whole(weight, trans, K, N), splitOffset, splitOffset + splitSize)
    ensures !verticalSplit ==> IsRows(w, Whole(weight, trans, K, N), splitOffset, splitOffset + splitSize)
  {
    hide At, IsColumns, IsRows, Whole, Packed;
    var converted, rows, cols := ConvertWeight(trans, K, N, weight, splitOffset, splitSize, verticalSplit);
    w := Packed(trans, converted, rows, cols);
    ghost var (k0, n0) := if verticalSplit then (0, splitOffset) else (splitOffset, 0);
    forall k: nat, n: nat | k < |w| && n < (if trans then rows else cols)
      ensures w[k][n] == At(weight, trans, K, N, k0 + k, n0 + n)
    {
      assert w[k][n] == if trans then converted[n][k] else converted[k][n];
    }
    if verticalSplit {
      ColumnsLoaded(w, weight, trans, K, N, splitOffset, splitOffset + splitSize);
    } else {
      RowsLoaded(w, weight, trans, K, N, splitOffset, splitOffset + splitSize);
    }
  }

  /** The slice of rank splitIdx. */
  method LoadWeight(trans: bool, K: nat, N: nat, weight: seq<real>, numSplit: nat, splitIdx: nat, verticalSplit: bool)
    returns (w: Mat)
    requires |weight| == K * N && splitIdx < numSplit
    ensures verticalSplit ==>
      IsColumns(w, Whole(weight, trans, K, N), WeightCut(N, numSplit, splitIdx), WeightCut(N, numSplit, splitIdx + 1))
    ensures !verticalSplit ==>
      IsRows(w, Whole(weight, trans, K, N), WeightCut(K, numSplit, splitIdx), WeightCut(K, numSplit, splitIdx + 1))
  {
    hide WeightRange, WeightCut, IsColumns, IsRows, Whole;
    var totalSize := if verticalSplit then N else K;
    WeightRangesTile(totalSize, numSplit, splitIdx);
    var range := WeightRange(totalSize, numSplit, splitIdx);
    w := LoadSlice(trans, K, N, weight, range.0, range.1 - range.0, verticalSplit);
  }

  lemma ColumnsLoaded(w: Mat, weight: seq<real>, trans: bool, K: nat, N: nat, lo: nat, hi: nat)
    requires |weight| == K * N && lo <= hi <= N && Rect(w, K, hi - lo)
    requires forall k, n :: 0 <= k < K && 0 <= n < hi - lo ==> w[k][n] == At(weight, trans, K, N, k, lo + n)
    ensures IsColumns(w, Whole(weight, trans, K, N), lo, hi)
  {
    hide Whole, At;
  }

  lemma RowsLoaded(w: Mat, weight: seq<real>, trans: bool, K: nat, N: nat, lo: nat, hi: nat)
    requires |weight| == K * N && lo <= hi <= K && Rect(w, hi - lo, N)
    requires forall k, n :: 0 <= k < hi - lo && 0 <= n < N ==> w[k][n] == At(weight, trans, K, N, lo + k, n)
    ensures IsRows(w, Whole(weight, trans, K, N), lo, hi)
  {
    hide At;
    var whole := Whole(weight, trans, K, N);
    hide Whole;
    forall k | 0 <= k < hi - lo
      ensures w[k] == whole[lo + k]
    {
    }
  }

  // ---------- gate and up merged in one file ----------

  /** The same matrix restricted to some columns. */
  function ColumnsOf(m: Mat, lo: nat, hi: nat): (part: Mat)
    requires lo <= hi && forall k :: 0 <= k < |m| ==> hi <= |m[k]|
    ensures |part| == |m| && forall k :: 0 <= k < |m| ==> |part[k]| == hi - lo && forall n :: 0 <= n < hi - lo ==>
      part[k][n] == m[k][lo + n]
  {
    seq(|m|, k requires 0 <= k < |m| => m[k][lo..hi])
  }

  /** Column c of row r in an array of rows of n, filled up so far. */
  function RowAt(w: seq<real>, n: nat, r: nat, c: nat): real {
    if r * n + c < |w| then w[r * n + c] else 0.0
  }

  lemma AppendRow(w: seq<real>, chunk: seq<real>, n: nat, i: nat)
    requires |w| == i * n && |chunk| == n
    ensures |w + chunk| == (i + 1) * n
    ensures forall r: nat, c: nat :: r < i && c < n ==> RowAt(w + chunk, n, r, c) == RowAt(w, n, r, c)
    ensures forall c: nat :: c < n ==> RowAt(w + chunk, n, i, c) == chunk[c]
  {
    Arith.Distribute(n, i, 1);
    Arith.Swap(n, i);
    Arith.Swap(n, i + 1);
    forall r: nat, c: nat | r < i && c < n
      ensures RowAt(w + chunk, n, r, c) == RowAt(w, n, r, c)
    {
      Arith.CellInRange(r, c, i, n);
    }
  }

  lemma RowAtIsAt(w: seq<real>, K: nat, N: nat, k: nat, n: nat)
    requires |w| == K * N && k < K && n < N
    ensures RowAt(w, N, k, n) == At(w, false, K, N, k, n)
  {
    Arith.CellInRange(k, n, K, N);
  }

  /** Cut the rank's gate and up columns out of a merged weight.  Stored by rows, the read pointer moves
      from a row's gate half to its up half and on to the next row; transposed, each is one block. */
  method SliceMerged(merged: seq<real>, trans: bool, hiddenSize: nat, imSize: nat, lo: nat, colSplit: nat)
    returns (gateW: seq<real>, upW: seq<real>)
    requires |merged| == hiddenSize * (2 * imSize) && lo + colSplit <= imSize
    ensures |gateW| == |upW| == hiddenSize * colSplit
    ensures forall k: nat, c: nat :: k < hiddenSize && c < colSplit ==>
      At(gateW, trans, hiddenSize, colSplit, k, c) == At(merged, trans, hiddenSize, 2 * imSize, k, lo + c)
    ensures forall k: nat, c: nat :: k < hiddenSize && c < colSplit ==>
      At(upW, trans, hiddenSize, colSplit, k, c) == At(merged, trans, hiddenSize, 2 * imSize, k, imSize + lo + c)
  {
    hide At, RowAt;
    if trans {
      gateW := SliceBlock(merged, hiddenSize, 2 * imSize, lo, colSplit);
      upW := SliceBlock(merged, hiddenSize, 2 * imSize, imSize + lo, colSplit);
    } else {
      gateW, upW := SliceRows(merged, hiddenSize, imSize, lo, colSplit);
      forall k: nat, c: nat | k < hiddenSize && c < colSplit
        ensures At(gateW, trans, hiddenSize, colSplit, k, c) == At(merged, trans, hiddenSize, 2 * imSize, k, lo + c)
        ensures At(upW, trans, hiddenSize, colSplit, k, c)
          == At(merged, trans, hiddenSize, 2 * imSize, k, imSize + lo + c)
      {
        RowAtIsAt(gateW, hiddenSize, colSplit, k, c);
        RowAtIsAt(upW, hiddenSize, colSplit, k, c);
        RowAtIsAt(merged, hiddenSize, 2 * imSize, k, lo + c);
        RowAtIsAt(merged, hiddenSize, 2 * imSize, k, imSize + lo + c);
      }
    }
  }

  method SliceBlock(merged: seq<real>, hiddenSize: nat, all: nat, first: nat, n: nat) returns (w: seq<real>)
    requires |merged| == hiddenSize * all && first + n <= all
    ensures |w| == hiddenSize * n
    ensures forall k: nat, c: nat :: k < hiddenSize && c < n ==>
      At(w, true, hiddenSize, n, k, c) == At(merged, true, hiddenSize, all, k, first + c)
  {
    BlockInside(hiddenSize, all, first, n);
    w := merged[first * hiddenSize..first * hiddenSize + n * hiddenSize];
    forall k: nat, c: nat | k < hiddenSize && c < n
      ensures At(w, true, hiddenSize, n, k, c) == At(merged, true, hiddenSize, all, k, first + c)
    {
      Arith.CellInRange(c, k, n, hiddenSize);
      Arith.Distribute(hiddenSize, first, c);
      Arith.Swap(hiddenSize, first);
      Arith.Swap(hiddenSize, c);
      Arith.Swap(hiddenSize, first + c);
    }
  }

  lemma BlockInside(hiddenSize: nat, all: nat, first: nat, n: nat)
    requires first + n <= all
    ensures 0 <= first * hiddenSize <= first * hiddenSize + n * hiddenSize <= hiddenSize * all
    ensures n * hiddenSize == hiddenSize * n
  {
    Arith.MulMono(first + n, all, hiddenSize);
    Arith.Swap(all, hiddenSize);
    Arith.Distribute(hiddenSize, first, n);
    Arith.Swap(hiddenSize, first);
    Arith.Swap(hiddenSize, n);
    Arith.Swap(hiddenSize, first + n);
    Arith.MulMono(0, first, hiddenSize);
    Arith.MulMono(0, n, hiddenSize);
  }

  method SliceRows(merged: seq<real>, hiddenSize: nat, imSize: nat, lo: nat, colSplit: nat)
    returns (gateW: seq<real>, upW: seq<real>)
    requires |merged| == hiddenSize * (2 * imSize) && lo + colSplit <= imSize
    ensures |gateW| == |upW| == hiddenSize * colSplit
    ensures forall r: nat, c: nat :: r < hiddenSize && c < colSplit ==>
      RowAt(gateW, colSplit, r, c) == RowAt(merged, 2 * imSize, r, lo + c)
        && RowAt(upW, colSplit, r, c) == RowAt(merged, 2 * imSize, r, imSize + lo + c)
  {
    hide RowAt;
    gateW, upW := [], [];
    var weightPtr := 0;
    for i := 0 to hiddenSize
      invariant weightPtr == i * (2 * imSize) && |gateW| == |upW| == i * colSplit
      invariant forall r: nat, c: nat :: r < i && c < colSplit ==>
        RowAt(gateW, colSplit, r, c) == RowAt(merged, 2 * imSize, r, lo + c)
          && RowAt(upW, colSplit, r, c) == RowAt(merged, 2 * imSize, r, imSize + lo + c)
    {
      PieceInside(merged, hiddenSize, 2 * imSize, i, lo, colSplit);
      var gate := merged[weightPtr + lo..weightPtr + lo + colSplit];
      PieceIs(merged, 2 * imSize, i, lo, gate);
      weightPtr := weightPtr + imSize;
      PieceInside(merged, hiddenSize, 2 * imSize, i, imSize + lo, colSplit);
      var up := merged[weightPtr + lo..weightPtr + lo + colSplit];
      PieceIs(merged, 2 * imSize, i, imSize + lo, up);
      weightPtr := weightPtr + imSize;
      AppendRow(gateW, gate, colSplit, i);
      AppendRow(upW, up, colSplit, i);
      gateW, upW := gateW + gate, upW + up;
      Arith.Distribute(2 * imSize, i, 1);
      Arith.Swap(2 * imSize, i);
      Arith.Swap(2 * imSize, i + 1);
    }
  }

  lemma PieceInside(w: seq<real>, rows: nat, cols: nat, r: nat, first: nat, n: nat)
    requires |w| == rows * cols && r < rows && first + n <= cols
    ensures 0 <= r * cols + first && r * cols + first + n <= |w|
  {
    RowInside(w, rows, cols, r, first, n);
  }

  lemma PieceIs(w: seq<real>, cols: nat, r: nat, first: nat, piece: seq<real>)
    requires 0 <= r * cols + first && r * cols + first + |piece| <= |w|
    requires piece == w[r * cols + first..r * cols + first + |piece|]
    ensures forall c: nat :: c < |piece| ==> piece[c] == RowAt(w, cols, r, first + c)
  {
  }

  /** The concatenated form: every row of the result is the rank's gate columns, then its up columns. */
  method SliceMergedCat(merged: seq<real>, hiddenSize: nat, imSize: nat, lo: nat, colSplit: nat, colSplitStride: nat)
    returns (gateUpW: seq<real>)
    requires |merged| == hiddenSize * (2 * imSize) && lo + colSplit <= imSize && colSplitStride == 2 * colSplit
    ensures |gateUpW| == hiddenSize * colSplitStride
    ensures forall r: nat, c: nat :: r < hiddenSize && c < colSplitStride ==>
      RowAt(gateUpW, colSplitStride, r, c)
        == RowAt(merged, 2 * imSize, r, if c < colSplit then lo + c else imSize + lo + (c - colSplit))
  {
    hide RowAt;
    gateUpW := [];
    var weightPtr := 0;
    for i := 0 to hiddenSize
      invariant weightPtr == i * (2 * imSize) && |gateUpW| == i * colSplitStride
      invariant forall r: nat, c: nat :: r < i && c < colSplitStride ==>
        RowAt(gateUpW, colSplitStride, r, c)
          == RowAt(merged, 2 * imSize, r, if c < colSplit then lo + c else imSize + lo + (c - colSplit))
    {
      PieceInside(merged, hiddenSize, 2 * imSize, i, lo, colSplit);
      var gate := merged[weightPtr + lo..weightPtr + lo + colSplit];
      PieceIs(merged, 2 * imSize, i, lo, gate);
      weightPtr := weightPtr + imSize;
      PieceInside(merged, hiddenSize, 2 * imSize, i, imSize + lo, colSplit);
      var up := merged[weightPtr + lo..weightPtr + lo + colSplit];
      PieceIs(merged, 2 * imSize, i, imSize + lo, up);
      weightPtr := weightPtr + imSize;
      AppendRow(gateUpW, gate + up, colSplitStride, i);
      gateUpW := gateUpW + (gate + up);
      Arith.Distribute(2 * imSize, i, 1);
      Arith.Swap(2 * imSize, i);
      Arith.Swap(2 * imSize, i + 1);
    }
  }
}
