/** C = A * B with B stored by columns (N x K): dot products sixteen lanes at a time, the last vector of
    K masked, tiles of 6 x 4 with every remainder case, and kernels of their own for a single row. */
module GemmTransB {
  import opened GemmVectors
  import opened Matrices
  import opened Sums

  /** A is at least M x K, B at least N x K; the pointer C stands at cell (r0, c0) of a larger matrix. */
  datatype Problem = Problem(A: Mat, B: Mat, K: nat, r0: nat, c0: nat)

  ghost predicate Fits(p: Problem, M: nat, N: nat) {
    && M <= |p.A| && (forall i :: 0 <= i < M ==> p.K <= |p.A[i]|)
    && N <= |p.B| && (forall j :: 0 <= j < N ==> p.K <= |p.B[j]|)
  }

  ghost predicate Room(C: array2<real>, p: Problem, M: nat, N: nat) {
    p.r0 + M <= C.Length0 && p.c0 + N <= C.Length1
  }

  function Term(p: Problem, i: int, j: int): int -> real {
    k => if 0 <= k < p.K && 0 <= i < |p.A| && 0 <= j < |p.B| && k < |p.A[i]| && k < |p.B[j]| then p.A[i][k] * p.B[j][k]
      else 0.0
  }

  /** The naive dot product of row r of A and row c of B, by cell of C. */
  function Cells(p: Problem): (int, int) -> real {
    (r, c) => Sum(Term(p, r - p.r0, c - p.c0), 0, p.K)
  }

  /** A cell of the window written out: row i of A times row j of B. */
  lemma CellWrittenOut(p: Problem, M: nat, N: nat, i: nat, j: nat, f: int -> real)
    requires Fits(p, M, N) && i < M && j < N
    requires forall k: nat :: k < p.K ==> f(k) == p.A[i][k] * p.B[j][k]
    ensures Cells(p)(p.r0 + i, p.c0 + j) == Sum(f, 0, p.K)
  {
    hide Sum;
    CellIs(p, i, j);
    SumExt(Term(p, i, j), f, 0, p.K);
  }

  // ---------- sixteen partial sums per cell ----------

  function Vecs(K: nat): nat {
    (K + 15) / 16
  }

  /** Lanes used by vector v of K elements. */
  function KMask(K: nat, v: nat): (mask: nat)
    requires v < Vecs(K)
    ensures mask <= LANES && v * LANES + mask <= K
    ensures v * LANES + mask == if v + 1 < Vecs(K) then v * LANES + LANES else K
  {
    if v + 1 < Vecs(K) then LANES else TailMask(K)
  }

  /** Every 16th term from lane l on, over the first v vectors. */
  function LaneSum(p: Problem, i: nat, j: nat, l: nat, v: nat): real {
    if v == 0 then 0.0 else LaneSum(p, i, j, l, v - 1) + Term(p, i, j)((v - 1) * LANES + l)
  }

  function Partial(p: Problem, i: nat, j: nat, v: nat): Vec {
    seq(LANES, l requires 0 <= l < LANES => LaneSum(p, i, j, l, v))
  }

  lemma PartialOfNothing(p: Problem, i: nat, j: nat)
    ensures Partial(p, i, j, 0) == Set1(0.0)
  {
  }

  function LoadA(p: Problem, i: nat, v: nat): Vec
    requires Fits(p, i + 1, 0) && v < Vecs(p.K)
  {
    Load(KMask(p.K, v), p.A[i], v * LANES)
  }

  function LoadB(p: Problem, j: nat, v: nat): Vec
    requires Fits(p, 0, j + 1) && v < Vecs(p.K)
  {
    Load(KMask(p.K, v), p.B[j], v * LANES)
  }

  lemma FmaddStep(p: Problem, i: nat, j: nat, v: nat)
    requires Fits(p, i + 1, j + 1) && v < Vecs(p.K)
    ensures Fmadd(LoadA(p, i, v), LoadB(p, j, v), Partial(p, i, j, v)) == Partial(p, i, j, v + 1)
  {
    var a, b, c := LoadA(p, i, v), LoadB(p, j, v), Partial(p, i, j, v);
    forall l: nat | l < LANES
      ensures Fmadd(a, b, c)[l] == Partial(p, i, j, v + 1)[l]
    {
      LaneTerm(p, i, j, v, l);
    }
  }

  lemma LaneTerm(p: Problem, i: nat, j: nat, v: nat, l: nat)
    requires Fits(p, i + 1, j + 1) && v < Vecs(p.K) && l < LANES
    ensures LoadA(p, i, v)[l] * LoadB(p, j, v)[l] == Term(p, i, j)(v * LANES + l)
  {
  }

  lemma LaneNext(p: Problem, i: nat, j: nat, v: nat, l: nat)
    requires l < LANES
    ensures Lane(Partial(p, i, j, 0))(l) == 0.0
    ensures Lane(Partial(p, i, j, v + 1))(l) == Lane(Partial(p, i, j, v))(l) + Term(p, i, j)(v * LANES + l)
  {
    hide Term;
  }

  lemma ReduceIsSum(v: Vec)
    ensures ReduceAdd(v) == Sum(Lane(v), 0, LANES)
  {
    hide Sum;
  }

  lemma SumOfNothing(f: int -> real, lo: int)
    ensures Sum(f, lo, lo) == 0.0
  {
  }

  /** Adding up the sixteen lanes in the end gives the sum over all of K. */
  lemma {:induction false} LanesTotal(p: Problem, i: nat, j: nat, v: nat)
    ensures ReduceAdd(Partial(p, i, j, v)) == Sum(Term(p, i, j), 0, v * LANES)
  {
    hide Term, Sum, Lane, Partial, ReduceAdd;
    var t := Term(p, i, j);
    ReduceIsSum(Partial(p, i, j, v));
    if v == 0 {
      forall l: nat | l < LANES
        ensures Lane(Partial(p, i, j, 0))(l) == 0.0
      {
        LaneNext(p, i, j, 0, l);
      }
      SumZero(Lane(Partial(p, i, j, 0)), 0, LANES);
      SumOfNothing(t, 0);
    } else {
      LanesTotal(p, i, j, v - 1);
      ReduceIsSum(Partial(p, i, j, v - 1));
      var was, now := Lane(Partial(p, i, j, v - 1)), Lane(Partial(p, i, j, v));
      var at := (v - 1) * LANES;
      var step: int -> real := l => t(l + at);
      forall l: nat | l < LANES
        ensures now(l) == was(l) + step(l)
      {
        LaneNext(p, i, j, v - 1, l);
      }
      SumAdd(was, step, now, 0, LANES);
      SumShift(t, step, at, 0, LANES);
      SumSplit(t, 0, at, at + LANES);
    }
  }

  lemma ReducedIsCell(p: Problem, i: nat, j: nat)
    ensures ReduceAdd(Partial(p, i, j, Vecs(p.K))) == Cells(p)(p.r0 + i, p.c0 + j)
  {
    hide Sum, Partial, ReduceAdd;
    var all := Vecs(p.K) * LANES;
    LanesTotal(p, i, j, Vecs(p.K));
    SumSplit(Term(p, i, j), 0, p.K, all);
    SumZero(Term(p, i, j), p.K, all);
    CellIs(p, i, j);
  }

  lemma CellIs(p: Problem, i: nat, j: nat)
    ensures Cells(p)(p.r0 + i, p.c0 + j) == Sum(Term(p, i, j), 0, p.K)
  {
    hide Sum, Term;
    assert p.r0 + i - p.r0 == i && p.c0 + j - p.c0 == j;
  }

  ghost predicate AllPartial(vc: array2<Vec>, p: Problem, m: nat, n: nat, v: nat)
    reads vc
  {
    forall r, c :: 0 <= r < vc.Length0 && 0 <= c < vc.Length1 ==> vc[r, c] == Partial(p, m + r, n + c, v)
  }

  /** One vector of K for a whole tile: A's vector is loaded at the first column of each row, B's vectors
      in the first row. */
  method AccumulateVector(p: Problem, vc: array2<Vec>, m: nat, n: nat, v: nat)
    requires Fits(p, m + vc.Length0, n + vc.Length1) && v < Vecs(p.K) && AllPartial(vc, p, m, n, v)
    modifies vc
    ensures AllPartial(vc, p, m, n, v + 1)
  {
    hide Partial, LoadA, LoadB, Fmadd, Set1, Vecs;
    var M, N := vc.Length0, vc.Length1;
    var va := Set1(0.0);
    var vb: seq<Vec> := [];
    for row := 0 to M
      invariant |vb| == (if row == 0 then 0 else N)
      invariant forall c :: 0 <= c < |vb| ==> vb[c] == LoadB(p, n + c, v)
      invariant forall r, c :: 0 <= r < M && 0 <= c < N ==>
        vc[r, c] == Partial(p, m + r, n + c, if r < row then v + 1 else v)
    {
      for col := 0 to N
        invariant |vb| == (if row == 0 then col else N)
        invariant forall c :: 0 <= c < |vb| ==> vb[c] == LoadB(p, n + c, v)
        invariant col > 0 ==> va == LoadA(p, m + row, v)
        invariant forall r, c :: 0 <= r < M && 0 <= c < N ==>
          vc[r, c] == Partial(p, m + r, n + c, if r < row || (r == row && c < col) then v + 1 else v)
      {
        if col == 0 {
          va := LoadA(p, m + row, v);
        }
        if row == 0 {
          vb := vb + [LoadB(p, n + col, v)];
        }
        FmaddStep(p, m + row, n + col, v);
        vc[row, col] := Fmadd(va, vb[col], vc[row, col]);
      }
    }
  }

  /** An M x N tile.  The last vector is masked; a K of 0 would read before the matrices. */
  method TransBTile(p: Problem, C: array2<real>, m: nat, n: nat, M: nat, N: nat)
    requires Fits(p, m + M, n + N) && Room(C, p, m + M, n + N) && 0 < p.K
    modifies C
    ensures Tile(C, Cells(p), p.r0 + m, p.c0 + n, M, N, false)
  {
    hide Cells, Partial, Vecs, ReduceAdd;
    var vecs := Vecs(p.K);
    var vc := new Vec[M, N]((_, _) => Set1(0.0));
    NothingYet(vc, p, m, n);
    for v := 0 to vecs
      invariant AllPartial(vc, p, m, n, v)
      invariant forall r, c :: 0 <= r < C.Length0 && 0 <= c < C.Length1 ==> C[r, c] == old(C[r, c])
    {
      AccumulateVector(p, vc, m, n, v);
    }
    StoreReduced(p, vc, C, m, n);
  }

  lemma NothingYet(vc: array2<Vec>, p: Problem, m: nat, n: nat)
    requires forall r, c :: 0 <= r < vc.Length0 && 0 <= c < vc.Length1 ==> vc[r, c] == Set1(0.0)
    ensures AllPartial(vc, p, m, n, 0)
  {
    hide Partial, Set1;
    forall r, c | 0 <= r < vc.Length0 && 0 <= c < vc.Length1
      ensures vc[r, c] == Partial(p, m + r, n + c, 0)
    {
      PartialOfNothing(p, m + r, n + c);
    }
  }

  method StoreReduced(p: Problem, vc: array2<Vec>, C: array2<real>, m: nat, n: nat)
    requires Room(C, p, m + vc.Length0, n + vc.Length1) && AllPartial(vc, p, m, n, Vecs(p.K))
    modifies C
    ensures Tile(C, Cells(p), p.r0 + m, p.c0 + n, vc.Length0, vc.Length1, false)
  {
    hide Cells, Partial, Vecs, ReduceAdd;
    for row := 0 to vc.Length0
      invariant Tile(C, Cells(p), p.r0 + m, p.c0 + n, row, vc.Length1, false)
    {
      for col := 0 to vc.Length1
        invariant forall r, c :: 0 <= r < C.Length0 && 0 <= c < C.Length1 ==>
          C[r, c] == (if p.c0 + n <= c < p.c0 + n + vc.Length1 && p.r0 + m <= r
            && (r < p.r0 + m + row || (r == p.r0 + m + row && c < p.c0 + n + col))
                      then Cells(p)(r, c) else old(C[r, c]))
      {
        ReducedIsCell(p, m + row, n + col);
        C[p.r0 + m + row, p.c0 + n + col] := ReduceAdd(vc[row, col]);
      }
    }
  }

  // ---------- a few rows: blocks of four columns ----------

  method TransBRows(p: Problem, C: array2<real>, m: nat, M: nat, N: nat)
    requires Fits(p, m + M, N) && Room(C, p, m + M, N) && 0 < p.K
    modifies C
    ensures Tile(C, Cells(p), p.r0 + m, p.c0, M, N, false)
  {
    hide Cells;
    var NB := 4;
    var j := 0;
    while j + NB - 1 < N
      invariant j <= N
      invariant Tile(C, Cells(p), p.r0 + m, p.c0, M, j, false)
    {
      TransBTile(p, C, m, j, M, NB);
      j := j + NB;
    }
    if j < N {
      if N - j == 2 {
        TransBTile(p, C, m, j, M, 2);
      } else if N - j == 1 {
        TransBTile(p, C, m, j, M, 1);
      } else if N - j == 3 {
        TransBTile(p, C, m, j, M, 3);
      }
    }
  }

  // ---------- one row ----------

  /** BC elements of the single row of C, in one go over K. */
  method OneRowBlock(p: Problem, va: seq<Vec>, C: array2<real>, n: nat, BC: nat)
    requires Fits(p, 1, n + BC) && Room(C, p, 1, n + BC)
    requires |va| == Vecs(p.K) && forall v :: 0 <= v < |va| ==> va[v] == LoadA(p, 0, v)
    modifies C
    ensures Tile(C, Cells(p), p.r0, p.c0 + n, 1, BC, false)
  {
    hide Cells, Partial, Vecs, ReduceAdd, LoadA, LoadB, Fmadd, Set1;
    var vc := new Vec[1, BC]((_, _) => Set1(0.0));
    NothingYet(vc, p, 0, n);
    for j := 0 to |va|
      invariant AllPartial(vc, p, 0, n, j)
      invariant forall r, c :: 0 <= r < C.Length0 && 0 <= c < C.Length1 ==> C[r, c] == old(C[r, c])
    {
      for idx := 0 to BC
        invariant forall c :: 0 <= c < BC ==> vc[0, c] == Partial(p, 0, n + c, if c < idx then j + 1 else j)
        invariant forall r, c :: 0 <= r < C.Length0 && 0 <= c < C.Length1 ==> C[r, c] == old(C[r, c])
      {
        FmaddStep(p, 0, n + idx, j);
        vc[0, idx] := Fmadd(va[j], LoadB(p, n + idx, j), vc[0, idx]);
      }
    }
    StoreReduced(p, vc, C, 0, n);
  }

  /** A single row of A: its vectors stay loaded, C is filled BC cells at a time, then one by one. */
  method OneRow(p: Problem, C: array2<real>, N: nat, BC: nat)
    requires Fits(p, 1, N) && Room(C, p, 1, N) && 0 < BC
    modifies C
    ensures Tile(C, Cells(p), p.r0, p.c0, 1, N, false)
  {
    hide Cells, LoadA;
    var va := seq(Vecs(p.K), v requires 0 <= v < Vecs(p.K) => LoadA(p, 0, v));
    var i := 0;
    while i + BC - 1 < N
      invariant i <= N
      invariant Tile(C, Cells(p), p.r0, p.c0, 1, i, false)
    {
      OneRowBlock(p, va, C, i, BC);
      i := i + BC;
    }
    while i < N
      invariant i <= N
      invariant Tile(C, Cells(p), p.r0, p.c0, 1, i, false)
    {
      OneRowBlock(p, va, C, i, 1);
      i := i + 1;
    }
  }

  method TransBOneRow(p: Problem, C: array2<real>, N: nat)
    requires Fits(p, 1, N) && Room(C, p, 1, N)
    modifies C
    ensures Tile(C, Cells(p), p.r0, p.c0, 1, N, false)
  {
    if p.K == 128 || p.K == 256 {
      OneRow(p, C, N, 8);
    } else {
      OneRow(p, C, N, 16);
    }
  }

  // ---------- the whole product ----------

  /** Every cell of the M x N window gets the naive dot product, nothing else is touched.  Only the
      single-row kernels can do without any column. */
  method SmallGemmTransB(p: Problem, C: array2<real>, M: nat, N: nat)
    requires Fits(p, M, N) && Room(C, p, M, N) && (0 < p.K || M == 1)
    modifies C
    ensures Tile(C, Cells(p), p.r0, p.c0, M, N, false)
  {
    hide Cells;
    if M == 1 {
      TransBOneRow(p, C, N);
      return;
    }
    var MB := 6;
    var i := 0;
    while i + MB - 1 < M
      invariant i <= M
      invariant Tile(C, Cells(p), p.r0, p.c0, i, N, false)
    {
      TransBRows(p, C, i, MB, N);
      i := i + MB;
    }
    if i < M {
      var remain := M - i;
      if remain == 1 {
        TransBRows(p, C, i, 1, N);
      } else if remain == 2 {
        TransBRows(p, C, i, 2, N);
      } else if remain == 3 {
        TransBRows(p, C, i, 3, N);
      } else if remain == 4 {
        TransBRows(p, C, i, 4, N);
      } else if remain == 5 {
        TransBRows(p, C, i, 5, N);
      }
    }
  }

  // ---------- int8 B: a scale per row of B, applied to the columns of C afterwards ----------

  function ScaledCells(p: Problem, scale: seq<real>): (int, int) -> real {
    (r, c) => if 0 <= c - p.c0 < |scale| then Cells(p)(r, c) * scale[c - p.c0] else 0.0
  }

  /** The int8 cell: the integer product of the rows, times the scale of row j of B. */
  lemma ScaledCellWrittenOut(p: Problem, scale: seq<real>, M: nat, N: nat, i: nat, j: nat, f: int -> real)
    requires Fits(p, M, N) && i < M && j < N <= |scale|
    requires forall k: nat :: k < p.K ==> f(k) == p.A[i][k] * p.B[j][k]
    ensures ScaledCells(p, scale)(p.r0 + i, p.c0 + j) == Sum(f, 0, p.K) * scale[j]
  {
    hide Cells;
    CellWrittenOut(p, M, N, i, j, f);
    assert p.c0 + j - p.c0 == j;
  }

  method ApplyScale(C: array2<real>, r0: nat, c0: nat, scale: seq<real>, M: nat, N: nat)
    requires r0 + M <= C.Length0 && c0 + N <= C.Length1 && N <= |scale|
    modifies C
    ensures forall r, c :: 0 <= r < C.Length0 && 0 <= c < C.Length1 ==>
      C[r, c] == (if r0 <= r < r0 + M && c0 <= c < c0 + N then old(C[r, c]) * scale[c - c0] else old(C[r, c]))
  {
    for i := 0 to M
      invariant forall r, c :: 0 <= r < C.Length0 && 0 <= c < C.Length1 ==>
        C[r, c] == (if r0 <= r < r0 + i && c0 <= c < c0 + N then old(C[r, c]) * scale[c - c0] else old(C[r, c]))
    {
      ScaleRow(C, r0 + i, c0, scale, N);
    }
  }

  method ScaleRow(C: array2<real>, row: nat, c0: nat, scale: seq<real>, N: nat)
    requires row < C.Length0 && c0 + N <= C.Length1 && N <= |scale|
    modifies C
    ensures forall r, c :: 0 <= r < C.Length0 && 0 <= c < C.Length1 ==>
      C[r, c] == (if r == row && c0 <= c < c0 + N then old(C[r, c]) * scale[c - c0] else old(C[r, c]))
  {
    hide Load, Mul;
    var j := 0;
    while j < N
      invariant forall r, c :: 0 <= r < C.Length0 && 0 <= c < C.Length1 ==>
        C[r, c] == (if r == row && c0 <= c < c0 + (if j < N then j else N) then old(C[r, c]) * scale[c - c0]
          else old(C[r, c]))
    {
      var remain := N - j;
      var mask := if remain >= LANES then LANES else remain;
      var v := Load(mask, RowOf(C, row), c0 + j);
      var scaleVec := Load(mask, scale, j);
      Products(v, scaleVec, mask, RowOf(C, row), c0 + j, scale, j);
      Store(C, row, c0 + j, mask, Mul(v, scaleVec), false);
      j := j + LANES;
    }
  }

  lemma Products(v: Vec, w: Vec, mask: nat, a: seq<real>, at: nat, b: seq<real>, j: nat)
    requires mask <= LANES && at + mask <= |a| && j + mask <= |b| && v == Load(mask, a, at) && w == Load(mask, b, j)
    ensures forall c :: at <= c < at + mask ==> Mul(v, w)[c - at] == a[c] * b[c - at + j]
  {
  }

  /** The int8 kernel; without scales it is the plain product. */
  method SmallGemmTransBInt8(p: Problem, bScale: seq<real>, hasScale: bool, C: array2<real>, M: nat, N: nat)
    requires Fits(p, M, N) && Room(C, p, M, N) && (0 < p.K || M == 1) && (hasScale ==> N <= |bScale|)
    modifies C
    ensures Tile(C, if hasScale then ScaledCells(p, bScale) else Cells(p), p.r0, p.c0, M, N, false)
  {
    hide Cells;
    SmallGemmTransB(p, C, M, N);
    if hasScale {
      ApplyScale(C, p.r0, p.c0, bScale, M, N);
    }
  }
}
