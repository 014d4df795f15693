/** Rectangular matrices as values, and the contents of two-dimensional buffers. */
module Matrices {

  type Mat = seq<seq<real>>

  ghost predicate Rect(m: Mat, rows: nat, cols: nat) {
    |m| == rows && forall r :: 0 <= r < rows ==> |m[r]| == cols
  }

  /** The element in row r and column c. */
  function Entry(m: Mat, r: int, c: int): real {
    if 0 <= r < |m| && 0 <= c < |m[r]| then m[r][c] else 0.0
  }

  /** Element i of a flat array. */
  function Element(w: seq<real>, i: int): real {
    if 0 <= i < |w| then w[i] else 0.0
  }

  /** One row of a two-dimensional buffer. */
  function RowOf(C: array2<real>, row: nat): (w: seq<real>)
    requires row < C.Length0
    reads C
    ensures |w| == C.Length1 && forall c :: 0 <= c < C.Length1 ==> w[c] == C[row, c]
  {
    seq(C.Length1, c requires 0 <= c < C.Length1 reads C => C[row, c])
  }

  /** The contents of a two-dimensional buffer. */
  function Grid(C: array2<real>): (m: Mat)
    reads C
    ensures Rect(m, C.Length0, C.Length1)
    ensures forall r, c :: 0 <= r < C.Length0 && 0 <= c < C.Length1 ==> m[r][c] == C[r, c]
  {
    seq(C.Length0, r requires 0 <= r < C.Length0 reads C => RowOf(C, r))
  }

  /** reduceAdd of one rank's buffer into the total. */
  method AddRank(total: array2<real>, part: array2<real>)
    requires total != part && total.Length0 == part.Length0 && total.Length1 == part.Length1
    modifies total
    ensures forall m, j :: 0 <= m < total.Length0 && 0 <= j < total.Length1 ==>
      total[m, j] == old(total[m, j]) + part[m, j]
  {
    for m := 0 to total.Length0
      invariant forall r, c :: 0 <= r < total.Length0 && 0 <= c < total.Length1 ==>
        total[r, c] == old(total[r, c]) + if r < m then part[r, c] else 0.0
    {
      for j := 0 to total.Length1
        invariant forall r, c :: 0 <= r < total.Length0 && 0 <= c < total.Length1 ==>
          total[r, c] == old(total[r, c]) + if r < m || (r == m && c < j) then part[r, c] else 0.0
      {
        total[m, j] := total[m, j] + part[m, j];
      }
    }
  }
}
