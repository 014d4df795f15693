/** C = A * B and C = C + A * B with B row-major: register tiles of rows by 16-lane columns with a tail
    mask, optional per-row scales of an int8 B, and the drivers that cut M and N into tiles. */
module GemmRowMajor {
  import opened Wrappers
  import opened GemmVectors
  import opened Matrices
  import opened Sums

  /** A is at least M x K, B at least K x N; the pointer C stands at cell (r0, c0) of a larger matrix. */
  datatype Problem = Problem(A: Mat, B: Mat, bScale: Option<seq<real>>, K: nat, r0: nat, c0: nat)

  ghost predicate Fits(p: Problem, M: nat, N: nat) {
    && M <= |p.A| && (forall i :: 0 <= i < M ==> p.K <= |p.A[i]|)
    && p.K <= |p.B| && (forall k :: 0 <= k < p.K ==> N <= |p.B[k]|)
    && (p.bScale.Some? ==> p.K <= |p.bScale.value|)
  }

  ghost predicate Room(C: array2<real>, p: Problem, M: nat, N: nat) {
    p.r0 + M <= C.Length0 && p.c0 + N <= C.Length1
  }

  /** B[k][j], with the scale of row k applied if there is one. */
  function Element(p: Problem, k: int, j: int): real {
    if 0 <= k < |p.B| && 0 <= j < |p.B[k]| then
      if p.bScale.Some? then
        if k < |p.bScale.value| then p.B[k][j] * p.bScale.value[k] else 0.0
      else p.B[k][j]
    else 0.0
  }

  function Term(p: Problem, i: int, j: int): int -> real {
    k => if 0 <= i < |p.A| && 0 <= k < |p.A[i]| then p.A[i][k] * Element(p, k, j) else 0.0
  }

  /** The naive product, by cell of C. */
  function Cells(p: Problem): (int, int) -> real {
    (r, c) => Sum(Term(p, r - p.r0, c - p.c0), 0, p.K)
  }

  /** A cell of the window written out: row i of A times column j of B, every row k of B scaled by scale[k] if there
      are scales. */
  lemma CellWrittenOut(p: Problem, M: nat, N: nat, i: nat, j: nat, f: int -> real)
    requires Fits(p, M, N) && i < M && j < N
    requires forall k: nat :: k < p.K ==>
      f(k) == p.A[i][k] * (p.B[k][j] * if p.bScale.Some? then p.bScale.value[k] else 1.0)
    ensures Cells(p)(p.r0 + i, p.c0 + j) == Sum(f, 0, p.K)
  {
    hide Sum;
    assert p.r0 + i - p.r0 == i && p.c0 + j - p.c0 == j;
    forall k: nat | k < p.K
      ensures Term(p, i, j)(k) == f(k)
    {
      TermIs(p, i, j, k);
    }
    SumExt(Term(p, i, j), f, 0, p.K);
  }

  // ---------- the register tile ----------

  /** Lane l of column vector "col" after k steps; lanes beyond the n columns stay zero. */
  function Partial(p: Problem, i: nat, n: nat, actualN: nat, col: nat, k: nat): Vec {
    seq(LANES, l requires 0 <= l < LANES =>
      if col * LANES + l < actualN then Sum(Term(p, i, n + col * LANES + l), 0, k) else 0.0)
  }

  /** The loaded, masked and scaled piece of row k of B. */
  function LoadB(p: Problem, n: nat, actualN: nat, col: nat, cols: nat, k: nat): Vec
    requires Fits(p, 0, n + actualN) && k < p.K && col < cols && (cols - 1) * LANES < actualN <= cols * LANES
  {
    MaskIsExact(col, cols, actualN);
    var vb := Load(Mask(col, cols, actualN), p.B[k], n + col * LANES);
    if p.bScale.Some? then Mul(vb, Set1(p.bScale.value[k])) else vb
  }

  lemma FmaddStep(p: Problem, i: nat, n: nat, actualN: nat, col: nat, cols: nat, k: nat)
    requires Fits(p, i + 1, n + actualN) && k < p.K && col < cols && (cols - 1) * LANES < actualN <= cols * LANES
    ensures Fmadd(Set1(p.A[i][k]), LoadB(p, n, actualN, col, cols, k), Partial(p, i, n, actualN, col, k))
      == Partial(p, i, n, actualN, col, k + 1)
  {
    var a, b, c := Set1(p.A[i][k]), LoadB(p, n, actualN, col, cols, k), Partial(p, i, n, actualN, col, k);
    forall l | 0 <= l < LANES
      ensures Fmadd(a, b, c)[l] == Partial(p, i, n, actualN, col, k + 1)[l]
    {
      LoadedLane(p, n, actualN, col, cols, k, l);
      TermIs(p, i, n + col * LANES + l, k);
    }
  }

  lemma LoadedLane(p: Problem, n: nat, actualN: nat, col: nat, cols: nat, k: nat, l: nat)
    requires Fits(p, 0, n + actualN) && k < p.K && col < cols && (cols - 1) * LANES < actualN <= cols * LANES
      && l < LANES
    ensures LoadB(p, n, actualN, col, cols, k)[l] == if col * LANES + l < actualN
      then Element(p, k, n + col * LANES + l) else 0.0
  {
    MaskIsExact(col, cols, actualN);
  }

  lemma TermIs(p: Problem, i: nat, j: nat, k: nat)
    requires Fits(p, i + 1, 0) && k < p.K
    ensures Term(p, i, j)(k) == p.A[i][k] * Element(p, k, j)
  {
  }

  ghost predicate AllPartial(vc: array2<Vec>, p: Problem, m: nat, n: nat, actualN: nat, k: nat)
    reads vc
  {
    forall row, col :: 0 <= row < vc.Length0 && 0 <= col < vc.Length1 ==>
      vc[row, col] == Partial(p, m + row, n, actualN, col, k)
  }

  /** Step k of a whole tile, column vector by column vector: A's element is broadcast when the first
      column is reached, B's piece is loaded when the first row is. */
  method AccumulateByColumns(p: Problem, vc: array2<Vec>, m: nat, n: nat, actualN: nat, k: nat)
    requires Fits(p, m + vc.Length0, n + actualN) && k < p.K
    requires 0 < vc.Length1 && (vc.Length1 - 1) * LANES < actualN <= vc.Length1 * LANES
    requires AllPartial(vc, p, m, n, actualN, k)
    modifies vc
    ensures AllPartial(vc, p, m, n, actualN, k + 1)
  {
    hide Partial, Fmadd, LoadB, Set1;
    var ROWS, COLS := vc.Length0, vc.Length1;
    var va: seq<Vec> := [];
    var vb := Set1(0.0);
    for col := 0 to COLS
      invariant |va| == (if col == 0 then 0 else ROWS)
      invariant forall r :: 0 <= r < |va| ==> va[r] == Set1(p.A[m + r][k])
      invariant forall r, c :: 0 <= r < ROWS && 0 <= c < COLS ==>
        vc[r, c] == Partial(p, m + r, n, actualN, c, if c < col then k + 1 else k)
    {
      for row := 0 to ROWS
        invariant |va| == (if col == 0 then row else ROWS)
        invariant forall r :: 0 <= r < |va| ==> va[r] == Set1(p.A[m + r][k])
        invariant row > 0 ==> vb == LoadB(p, n, actualN, col, COLS, k)
        invariant forall r, c :: 0 <= r < ROWS && 0 <= c < COLS ==>
          vc[r, c] == Partial(p, m + r, n, actualN, c, if c < col || (c == col && r < row) then k + 1 else k)
      {
        if col == 0 {
          va := va + [Set1(p.A[m + row][k])];
        }
        if row == 0 {
          vb := LoadB(p, n, actualN, col, COLS, k);
        }
        FmaddStep(p, m + row, n, actualN, col, COLS, k);
        vc[row, col] := Fmadd(va[row], vb, vc[row, col]);
      }
    }
  }

  /** The same step row by row: B's pieces are kept from the first row on, A's element is one register. */
  method AccumulateByRows(p: Problem, vc: array2<Vec>, m: nat, n: nat, actualN: nat, k: nat)
    requires Fits(p, m + vc.Length0, n + actualN) && k < p.K
    requires 0 < vc.Length1 && (vc.Length1 - 1) * LANES < actualN <= vc.Length1 * LANES
    requires AllPartial(vc, p, m, n, actualN, k)
    modifies vc
    ensures AllPartial(vc, p, m, n, actualN, k + 1)
  {
    hide Partial, Fmadd, LoadB, Set1;
    var ROWS, COLS := vc.Length0, vc.Length1;
    var va := Set1(0.0);
    var vb: seq<Vec> := [];
    for row := 0 to ROWS
      invariant |vb| == (if row == 0 then 0 else COLS)
      invariant forall c :: 0 <= c < |vb| ==> vb[c] == LoadB(p, n, actualN, c, COLS, k)
      invariant forall r, c :: 0 <= r < ROWS && 0 <= c < COLS ==>
        vc[r, c] == Partial(p, m + r, n, actualN, c, if r < row then k + 1 else k)
    {
      for col := 0 to COLS
        invariant |vb| == (if row == 0 then col else COLS)
        invariant forall c :: 0 <= c < |vb| ==> vb[c] == LoadB(p, n, actualN, c, COLS, k)
        invariant col > 0 ==> va == Set1(p.A[m + row][k])
        invariant forall r, c :: 0 <= r < ROWS && 0 <= c < COLS ==>
          vc[r, c] == Partial(p, m + r, n, actualN, c, if r < row || (r == row && c < col) then k + 1 else k)
      {
        if col == 0 {
          va := Set1(p.A[m + row][k]);
        }
        if row == 0 {
          vb := vb + [LoadB(p, n, actualN, col, COLS, k)];
        }
        FmaddStep(p, m + row, n, actualN, col, COLS, k);
        vc[row, col] := Fmadd(va, vb[col], vc[row, col]);
      }
    }
  }

  lemma FinishedLane(vc: array2<Vec>, p: Problem, m: nat, n: nat, actualN: nat, row: nat, col: nat, c: nat)
    requires AllPartial(vc, p, m, n, actualN, p.K) && row < vc.Length0 && col < vc.Length1
    requires p.c0 + n + col * LANES <= c < p.c0 + n + col * LANES + LANES && c < p.c0 + n + actualN
    ensures vc[row, col][c - (p.c0 + n + col * LANES)] == Cells(p)(p.r0 + m + row, c)
  {
    var l := c - (p.c0 + n + col * LANES);
    assert p.r0 + m + row - p.r0 == m + row && n + col * LANES + l == c - p.c0;
  }

  /** Masked stores of one finished row, on top of C if acc is set. */
  method StoreRow(p: Problem, vc: array2<Vec>, C: array2<real>, m: nat, n: nat, actualN: nat, row: nat, acc: bool)
    requires Room(C, p, m + vc.Length0, n + actualN) && row < vc.Length0
    requires 0 < vc.Length1 && (vc.Length1 - 1) * LANES < actualN <= vc.Length1 * LANES
    requires AllPartial(vc, p, m, n, actualN, p.K)
    modifies C
    ensures Tile(C, Cells(p), p.r0 + m + row, p.c0 + n, 1, actualN, acc)
  {
    hide AllPartial, Cells, Mask;
    var COLS := vc.Length1;
    for col := 0 to COLS
      invariant Tile(C, Cells(p), p.r0 + m + row, p.c0 + n, 1,
                     if col * LANES < actualN then col * LANES else actualN, acc)
    {
      MaskIsExact(col, COLS, actualN);
      var mask := Mask(col, COLS, actualN);
      var r, at := p.r0 + m + row, p.c0 + n + col * LANES;
      ghost var f := Cells(p);
      forall c | at <= c < at + mask
        ensures vc[row, col][c - at] == f(r, c)
      {
        FinishedLane(vc, p, m, n, actualN, row, col, c);
      }
      Store(C, r, at, mask, vc[row, col], acc);
    }
  }

  method StoreTile(p: Problem, vc: array2<Vec>, C: array2<real>, m: nat, n: nat, actualN: nat, acc: bool)
    requires Room(C, p, m + vc.Length0, n + actualN)
    requires 0 < vc.Length1 && (vc.Length1 - 1) * LANES < actualN <= vc.Length1 * LANES
    requires AllPartial(vc, p, m, n, actualN, p.K)
    modifies C
    ensures Tile(C, Cells(p), p.r0 + m, p.c0 + n, vc.Length0, actualN, acc)
  {
    hide AllPartial, Cells;
    for row := 0 to vc.Length0
      invariant Tile(C, Cells(p), p.r0 + m, p.c0 + n, row, actualN, acc)
    {
      StoreRow(p, vc, C, m, n, actualN, row, acc);
    }
  }

  /** One tile: ROWS rows by ceil(actualN / 16) vectors, kept in registers over the whole of K. */
  method FixMN(p: Problem, C: array2<real>, m: nat, n: nat, ROWS: nat, ALIGNED_N: nat, actualN: nat, acc: bool)
    requires Fits(p, m + ROWS, n + actualN) && Room(C, p, m + ROWS, n + actualN)
    requires ALIGNED_N % LANES == 0 && ALIGNED_N - LANES < actualN <= ALIGNED_N && 0 < actualN
    modifies C
    ensures Tile(C, Cells(p), p.r0 + m, p.c0 + n, ROWS, actualN, acc)
  {
    hide Cells, Partial;
    var COLS := ALIGNED_N / LANES;
    var vc := new Vec[ROWS, COLS]((_, _) => Set1(0.0));
    NothingYet(vc, p, m, n, actualN);
    for k := 0 to p.K
      invariant AllPartial(vc, p, m, n, actualN, k)
      invariant forall r, c :: 0 <= r < C.Length0 && 0 <= c < C.Length1 ==> C[r, c] == old(C[r, c])
    {
      AccumulateByColumns(p, vc, m, n, actualN, k);
    }
    StoreTile(p, vc, C, m, n, actualN, acc);
  }

  lemma NothingYet(vc: array2<Vec>, p: Problem, m: nat, n: nat, actualN: nat)
    requires forall r, c :: 0 <= r < vc.Length0 && 0 <= c < vc.Length1 ==> vc[r, c] == Set1(0.0)
    ensures AllPartial(vc, p, m, n, actualN, 0)
  {
    hide Partial, Set1;
    forall r, c | 0 <= r < vc.Length0 && 0 <= c < vc.Length1
      ensures vc[r, c] == Partial(p, m + r, n, actualN, c, 0)
    {
      PartialOfNothing(p, m + r, n, actualN, c);
    }
  }

  lemma PartialOfNothing(p: Problem, i: nat, n: nat, actualN: nat, col: nat)
    ensures Set1(0.0) == Partial(p, i, n, actualN, col, 0)
  {
    hide Term;
    forall l | 0 <= l < LANES
      ensures Partial(p, i, n, actualN, col, 0)[l] == 0.0
    {
      assert Sum(Term(p, i, n + col * LANES + l), 0, 0) == 0.0;
    }
  }

  // ---------- float B: tiles of rows, blocks of 128 columns ----------

  /** Rows computed together, so that the accumulators fit the register file. */
  function GetMaxRows(COLS: nat): nat {
    if COLS >= 15 then 1 else if COLS >= 10 then 2 else if COLS >= 7 then 3 else if COLS >= 5 then 4
      else if COLS >= 4 then 5 else 6
  }

  /** Each accumulator, each A register and the B register has its own place among the 32. */
  lemma RegistersSuffice(COLS: nat)
    requires 0 < COLS <= 16
    ensures GetMaxRows(COLS) * COLS + GetMaxRows(COLS) + 1 <= 32 && 1 <= GetMaxRows(COLS) <= 6
  {
  }

  method FixN(p: Problem, C: array2<real>, n: nat, ALIGNED_N: nat, M: nat, N: nat, acc: bool)
    requires Fits(p, M, n + N) && Room(C, p, M, n + N)
    requires ALIGNED_N % LANES == 0 && ALIGNED_N - LANES < N <= ALIGNED_N && 0 < N
    modifies C
    ensures Tile(C, Cells(p), p.r0, p.c0 + n, M, N, acc)
  {
    hide Cells;
    var ROWS := GetMaxRows(ALIGNED_N / LANES);
    var m := 0;
    while m + ROWS <= M
      invariant m <= M
      invariant Tile(C, Cells(p), p.r0, p.c0 + n, m, N, acc)
    {
      FixMN(p, C, m, n, ROWS, ALIGNED_N, N, acc);
      m := m + ROWS;
    }
    if m < M {
      var remain := M - m;
      if remain == 1 {
        FixMN(p, C, m, n, 1, ALIGNED_N, N, acc);
      } else if remain == 2 {
        FixMN(p, C, m, n, 2, ALIGNED_N, N, acc);
      } else if remain == 3 {
        FixMN(p, C, m, n, 3, ALIGNED_N, N, acc);
      } else if remain == 4 {
        FixMN(p, C, m, n, 4, ALIGNED_N, N, acc);
      } else if remain == 5 {
        FixMN(p, C, m, n, 5, ALIGNED_N, N, acc);
      }
    }
  }

  /** At most 128 columns: round N up to a multiple of 16. */
  method SmallN(p: Problem, C: array2<real>, n: nat, M: nat, N: nat, acc: bool)
    requires Fits(p, M, n + N) && Room(C, p, M, n + N) && N <= 128
    modifies C
    ensures Tile(C, Cells(p), p.r0, p.c0 + n, M, N, acc)
  {
    hide Cells;
    if N > 7 * LANES {
      FixN(p, C, n, 8 * LANES, M, N, acc);
    } else if N > 6 * LANES {
      FixN(p, C, n, 7 * LANES, M, N, acc);
    } else if N > 5 * LANES {
      FixN(p, C, n, 6 * LANES, M, N, acc);
    } else if N > 4 * LANES {
      FixN(p, C, n, 5 * LANES, M, N, acc);
    } else if N > 3 * LANES {
      FixN(p, C, n, 4 * LANES, M, N, acc);
    } else if N > 2 * LANES {
      FixN(p, C, n, 3 * LANES, M, N, acc);
    } else if N > 1 * LANES {
      FixN(p, C, n, 2 * LANES, M, N, acc);
    } else if N > 0 {
      FixN(p, C, n, 1 * LANES, M, N, acc);
    }
  }

  /** The whole product: every cell of the M x N window gets the naive sum, nothing else is touched. */
  method SmallSgemm(p: Problem, C: array2<real>, M: nat, N: nat, acc: bool)
    requires Fits(p, M, N) && Room(C, p, M, N) && p.bScale.None?
    modifies C
    ensures Tile(C, Cells(p), p.r0, p.c0, M, N, acc)
  {
    hide Cells;
    if M == 1 && N == 128 {
      FixMN(p, C, 0, 0, 1, 128, 128, acc);
      return;
    }
    if M == 1 && N == 256 {
      FixMN(p, C, 0, 0, 1, 256, 256, acc);
      return;
    }
    var blockSize := 8 * LANES;
    if N > blockSize {
      var blocks, remainN := N / blockSize, N % blockSize;
      for i := 0 to blocks
        invariant Tile(C, Cells(p), p.r0, p.c0, M, i * blockSize, acc)
      {
        FixN(p, C, i * blockSize, blockSize, M, blockSize, acc);
      }
      if remainN > 0 {
        SmallN(p, C, blocks * blockSize, M, remainN, acc);
      }
    } else {
      SmallN(p, C, 0, M, N, acc);
    }
  }

  // ---------- a product in two pieces along K ----------

  function FirstK(p: Problem, k: nat): Problem
    requires p.bScale.None?
  {
    p.(K := k)
  }

  /** The rest of K: A from column k on, B from row k on. */
  function RestK(p: Problem, k: nat): Problem
    requires p.bScale.None? && k <= p.K <= |p.B| && forall i :: 0 <= i < |p.A| ==> k <= |p.A[i]|
  {
    p.(A := seq(|p.A|, i requires 0 <= i < |p.A| => p.A[i][k..]), B := p.B[k..], K := p.K - k)
  }

  lemma PiecesAddUp(p: Problem, k: nat, r: int, c: int)
    requires p.bScale.None? && k <= p.K <= |p.B| && forall i :: 0 <= i < |p.A| ==> k <= |p.A[i]|
    ensures Cells(FirstK(p, k))(r, c) + Cells(RestK(p, k))(r, c) == Cells(p)(r, c)
  {
    hide Term, Sum;
    var i, j := r - p.r0, c - p.c0;
    SumSplit(Term(p, i, j), 0, k, p.K);
    forall x | 0 <= x < k
      ensures Term(p, i, j)(x) == Term(FirstK(p, k), i, j)(x)
    {
      FirstTerm(p, k, i, j, x);
    }
    SumExt(Term(p, i, j), Term(FirstK(p, k), i, j), 0, k);
    forall x | 0 <= x < p.K - k
      ensures Term(RestK(p, k), i, j)(x) == Term(p, i, j)(x + k)
    {
      RestTerm(p, k, i, j, x);
    }
    SumShift(Term(p, i, j), Term(RestK(p, k), i, j), k, 0, p.K - k);
  }

  lemma FirstTerm(p: Problem, k: nat, i: int, j: int, x: int)
    requires p.bScale.None? && k <= p.K <= |p.B| && forall i :: 0 <= i < |p.A| ==> k <= |p.A[i]|
    requires 0 <= x < k
    ensures Term(p, i, j)(x) == Term(FirstK(p, k), i, j)(x)
  {
  }

  lemma RestTerm(p: Problem, k: nat, i: int, j: int, x: int)
    requires p.bScale.None? && k <= p.K <= |p.B| && forall i :: 0 <= i < |p.A| ==> k <= |p.A[i]|
    requires 0 <= x < p.K - k
    ensures Term(RestK(p, k), i, j)(x) == Term(p, i, j)(x + k)
  {
    if 0 <= i < |p.A| && x < |RestK(p, k).A[i]| {
      assert RestK(p, k).A[i][x] == p.A[i][x + k];
    }
  }

  /** Cached rows first, then the raw ones in accumulate mode: the same as one product over all of them. */
  method TwoProducts(p: Problem, C: array2<real>, M: nat, N: nat, k: nat)
    requires Fits(p, M, N) && Room(C, p, M, N) && p.bScale.None? && k <= p.K && forall i :: 0 <= i < |p.A| ==>
      k <= |p.A[i]|
    modifies C
    ensures Tile(C, Cells(p), p.r0, p.c0, M, N, false)
  {
    hide Cells, FirstK, RestK;
    PiecesFit(p, M, N, k);
    SmallSgemm(FirstK(p, k), C, M, N, false);
    SmallSgemm(RestK(p, k), C, M, N, true);
    forall r, c | 0 <= r < C.Length0 && 0 <= c < C.Length1
      ensures Cells(FirstK(p, k))(r, c) + Cells(RestK(p, k))(r, c) == Cells(p)(r, c)
    {
      PiecesAddUp(p, k, r, c);
    }
  }

  lemma PiecesFit(p: Problem, M: nat, N: nat, k: nat)
    requires Fits(p, M, N) && p.bScale.None? && k <= p.K && forall i :: 0 <= i < |p.A| ==> k <= |p.A[i]|
    ensures Fits(FirstK(p, k), M, N) && Fits(RestK(p, k), M, N)
    ensures FirstK(p, k).bScale.None? && FirstK(p, k).r0 == p.r0 && FirstK(p, k).c0 == p.c0
    ensures RestK(p, k).bScale.None? && RestK(p, k).r0 == p.r0 && RestK(p, k).c0 == p.c0
  {
  }

  // ---------- int8 B with a scale per row: few rows, blocks of 256, 128 or 96 columns ----------

  /** A tile whose width is only known when it runs. */
  method SmallMDynamic(p: Problem, C: array2<real>, m: nat, n: nat, M: nat, N: nat, acc: bool)
    requires Fits(p, m + M, n + N) && Room(C, p, m + M, n + N) && 0 < N
    modifies C
    ensures Tile(C, Cells(p), p.r0 + m, p.c0 + n, M, N, acc)
  {
    hide Cells, Partial;
    var COLS := (N + LANES - 1) / LANES;
    var vc := new Vec[M, COLS]((_, _) => Set1(0.0));
    NothingYet(vc, p, m, n, N);
    for k := 0 to p.K
      invariant AllPartial(vc, p, m, n, N, k)
      invariant forall r, c :: 0 <= r < C.Length0 && 0 <= c < C.Length1 ==> C[r, c] == old(C[r, c])
    {
      AccumulateByRows(p, vc, m, n, N, k);
    }
    StoreTile(p, vc, C, m, n, N, acc);
  }

  /** Full blocks of columns, then what is left, for a handful of rows. */
  method RowsOfBlocks(p: Problem, C: array2<real>, m: nat, M: nat, N: nat, BLOCK: nat, acc: bool)
    requires Fits(p, m + M, N) && Room(C, p, m + M, N) && 0 < BLOCK && BLOCK % LANES == 0
    modifies C
    ensures Tile(C, Cells(p), p.r0 + m, p.c0, M, N, acc)
  {
    hide Cells;
    var n := 0;
    while n + BLOCK - 1 < N
      invariant n <= N
      invariant Tile(C, Cells(p), p.r0 + m, p.c0, M, n, acc)
    {
      FixMN(p, C, m, n, M, BLOCK, BLOCK, acc);
      n := n + BLOCK;
    }
    if n < N {
      SmallMDynamic(p, C, m, n, M, N - n, acc);
    }
  }

  method SmallGemmInt8(p: Problem, C: array2<real>, M: nat, N: nat, acc: bool)
    requires Fits(p, M, N) && Room(C, p, M, N) && p.bScale.Some?
    modifies C
    ensures Tile(C, Cells(p), p.r0, p.c0, M, N, acc)
  {
    hide Cells;
    if M == 1 {
      if N == 128 {
        FixMN(p, C, 0, 0, 1, 128, N, acc);
      } else if N == 256 {
        FixMN(p, C, 0, 0, 1, 256, N, acc);
      } else {
        RowsOfBlocks(p, C, 0, 1, N, 256, acc);
      }
    } else if M == 2 {
      RowsOfBlocks(p, C, 0, 2, N, 128, acc);
    } else if M == 3 {
      RowsOfBlocks(p, C, 0, 3, N, 128, acc);
    } else if M == 4 {
      RowsOfBlocks(p, C, 0, 4, N, 96, acc);
    } else {
      var m := 0;
      while m + 2 < M
        invariant m <= M
        invariant Tile(C, Cells(p), p.r0, p.c0, m, N, acc)
      {
        RowsOfBlocks(p, C, m, 3, N, 128, acc);
        m := m + 3;
      }
      if m < M {
        if M - m == 1 {
          RowsOfBlocks(p, C, m, 1, N, 128, acc);
        } else if M - m == 2 {
          RowsOfBlocks(p, C, m, 2, N, 128, acc);
        }
      }
    }
  }
}
