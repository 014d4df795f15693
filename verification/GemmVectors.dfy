/** Sixteen-lane vectors with masks, and what it means for a kernel to fill a tile of C. */
module GemmVectors {
  import opened Sums

  const LANES: nat := 16

  type Vec = v: seq<real> | |v| == LANES witness seq(LANES, _ => 0.0)

  function Set1(x: real): Vec {
    seq(LANES, _ => x)
  }

  /** The first "mask" lanes from memory, the others zero. */
  function Load(mask: nat, row: seq<real>, at: nat): Vec
    requires mask <= LANES && at + mask <= |row|
  {
    seq(LANES, l requires 0 <= l < LANES => if l < mask then row[at + l] else 0.0)
  }

  function Mul(a: Vec, b: Vec): Vec {
    seq(LANES, l requires 0 <= l < LANES => a[l] * b[l])
  }

  function Fmadd(a: Vec, b: Vec, c: Vec): Vec {
    seq(LANES, l requires 0 <= l < LANES => a[l] * b[l] + c[l])
  }

  function Lane(v: Vec): int -> real {
    l => if 0 <= l < LANES then v[l] else 0.0
  }

  function ReduceAdd(v: Vec): real {
    Sum(Lane(v), 0, LANES)
  }

  /** Lanes in use in the last of several vectors that hold n elements; the others are full. */
  function TailMask(n: nat): (mask: nat)
    ensures 0 < mask <= LANES
  {
    if n % LANES == 0 then LANES else n % LANES
  }

  function Mask(col: nat, cols: nat, n: nat): (mask: nat)
    ensures mask <= LANES
  {
    if col + 1 < cols then LANES else TailMask(n)
  }

  /** With cols = ceil(n / 16) vectors the mask covers exactly the elements there are. */
  lemma MaskIsExact(col: nat, cols: nat, n: nat)
    requires col < cols && (cols - 1) * LANES < n <= cols * LANES
    ensures col * LANES + Mask(col, cols, n) == if col + 1 < cols then (col + 1) * LANES else n
    ensures col * LANES + Mask(col, cols, n) <= n
  {
  }

  /** Exactly the cells of a tile changed: each holds its value, on top of what it held if acc is set. */
  twostate predicate Tile(C: array2<real>, f: (int, int) -> real, row: nat, col: nat, rows: nat, cols: nat, acc: bool)
    reads C
  {
    forall r, c :: 0 <= r < C.Length0 && 0 <= c < C.Length1 ==>
      C[r, c] ==
        (if row <= r < row + rows && col <= c < col + cols
         then f(r, c) + (if acc then old(C[r, c]) else 0.0)
         else old(C[r, c]))
  }

  /** Masked store of v, added to what was there if acc is set. */
  method Store(C: array2<real>, row: nat, col: nat, mask: nat, v: Vec, acc: bool)
    requires row < C.Length0 && mask <= LANES && col + mask <= C.Length1
    modifies C
    ensures forall r, c :: 0 <= r < C.Length0 && 0 <= c < C.Length1 ==>
      C[r, c] == (if r == row && col <= c < col + mask then v[c - col] + (if acc then old(C[r, c]) else 0.0)
        else old(C[r, c]))
  {
    for l := 0 to mask
      invariant forall r, c :: 0 <= r < C.Length0 && 0 <= c < C.Length1 ==>
        C[r, c] == (if r == row && col <= c < col + l then v[c - col] + (if acc then old(C[r, c]) else 0.0)
          else old(C[r, c]))
    {
      C[row, col + l] := if acc then C[row, col + l] + v[l] else v[l];
    }
  }
}
