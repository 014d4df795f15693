/** Rotary position embedding: the cosine and sine tables, the in-place vector kernels, and why the
    product of a rotated query and a rotated key only depends on the distance of their positions. */
module RotaryEmbedding {
  import opened GemmVectors
  import opened Matrices
  import opened Sums
  import Arith

  // ---------- tables ----------

  /** The addition laws of the two functions the tables are made of. */
  ghost predicate TrigLaws(cos: real -> real, sin: real -> real) {
    && (forall a, b :: cos(a - b) == cos(a) * cos(b) + sin(a) * sin(b))
    && (forall a, b :: sin(a - b) == sin(a) * cos(b) - cos(a) * sin(b))
    && cos(0.0) == 1.0
  }

  function Squared(x: real): real {
    x * x
  }

  function Angle(pos: int, freq: real): real {
    pos as real * freq
  }

  function TableEntry(f: real -> real, pos: int, freq: real, scale: real): real {
    f(Angle(pos, freq)) * scale
  }

  function Slot(pos: nat, size: nat, j: nat): nat {
    pos * size + j
  }

  /** The tables hold, at position i and frequency j, cosine and sine of i times the frequency. */
  ghost predicate TablesRight(embCos: seq<real>, embSin: seq<real>, invFreq: seq<real>, positions: nat,
                              cos: real -> real, sin: real -> real, scale: real) {
    && |embCos| == |embSin| == positions * |invFreq|
    && forall i: nat, j: nat :: i < positions && j < |invFreq| ==>
         (Slot(i, |invFreq|, j) < |embCos|
          && embCos[Slot(i, |invFreq|, j)] == TableEntry(cos, i, invFreq[j], scale)
            && embSin[Slot(i, |invFreq|, j)] == TableEntry(sin, i, invFreq[j], scale))
  }

  lemma SlotInside(pos: nat, size: nat, j: nat, positions: nat)
    requires pos < positions && j < size
    ensures Slot(pos, size, j) < positions * size
  {
    Arith.CellInRange(pos, j, positions, size);
  }

  lemma SlotsApart(pos: nat, j: nat, pos': nat, j': nat, size: nat)
    requires j < size && j' < size && (pos, j) != (pos', j')
    ensures Slot(pos, size, j) != Slot(pos', size, j')
  {
    if Slot(pos, size, j) == Slot(pos', size, j') {
      Arith.CellUnique(pos, j, pos', j', size);
    }
  }

  method SetCosSinCache(invFreq: seq<real>, positions: nat, cos: real -> real, sin: real -> real, scale: real)
    returns (embCos: array<real>, embSin: array<real>)
    ensures fresh(embCos) && fresh(embSin)
    ensures TablesRight(embCos[..], embSin[..], invFreq, positions, cos, sin, scale)
  {
    hide Slot, TableEntry;
    var size := |invFreq|;
    Arith.MulMono(0, positions, size);
    embCos, embSin := new real[positions * size], new real[positions * size];
    for i := 0 to positions
      invariant forall p: nat, j: nat :: p < i && j < size ==> (Slot(p, size, j) < embCos.Length
        && embCos[Slot(p, size, j)] == TableEntry(cos, p, invFreq[j], scale)
          && embSin[Slot(p, size, j)] == TableEntry(sin, p, invFreq[j], scale))
    {
      FillRow(embCos, embSin, invFreq, positions, i, cos, sin, scale);
    }
  }

  /** The tables written out: row i of the flat arrays holds cosine and sine of i times each inverse frequency. */
  lemma TablesWrittenOut(embCos: seq<real>, embSin: seq<real>, invFreq: seq<real>, positions: nat, cos: real -> real,
                         sin: real -> real, scale: real, i: nat, j: nat)
    requires TablesRight(embCos, embSin, invFreq, positions, cos, sin, scale) && i < positions && j < |invFreq|
    ensures 0 <= i * |invFreq| + j < |embCos| == |embSin|
    ensures embCos[i * |invFreq| + j] == cos(i as real * invFreq[j]) * scale
    ensures embSin[i * |invFreq| + j] == sin(i as real * invFreq[j]) * scale
  {
    assert Slot(i, |invFreq|, j) == i * |invFreq| + j;
  }

  method FillRow(embCos: array<real>, embSin: array<real>, invFreq: seq<real>, positions: nat, i: nat,
                 cos: real -> real, sin: real -> real, scale: real)
    requires embCos != embSin && embCos.Length == embSin.Length == positions * |invFreq| && i < positions
    modifies embCos, embSin
    ensures forall j: nat :: j < |invFreq| ==> (Slot(i, |invFreq|, j) < embCos.Length
      && embCos[Slot(i, |invFreq|, j)] == TableEntry(cos, i, invFreq[j], scale)
        && embSin[Slot(i, |invFreq|, j)] == TableEntry(sin, i, invFreq[j], scale))
    ensures forall p: nat, j: nat :: p != i && j < |invFreq| && Slot(p, |invFreq|, j) < embCos.Length ==>
      embCos[Slot(p, |invFreq|, j)] == old(embCos[Slot(p, |invFreq|, j)])
        && embSin[Slot(p, |invFreq|, j)] == old(embSin[Slot(p, |invFreq|, j)])
  {
    hide Slot, TableEntry;
    var size := |invFreq|;
    for j := 0 to size
      invariant forall l: nat :: l < j ==> (Slot(i, size, l) < embCos.Length
        && embCos[Slot(i, size, l)] == TableEntry(cos, i, invFreq[l], scale)
          && embSin[Slot(i, size, l)] == TableEntry(sin, i, invFreq[l], scale))
      invariant forall p: nat, l: nat :: p != i && l < size && Slot(p, size, l) < embCos.Length ==>
        embCos[Slot(p, size, l)] == old(embCos[Slot(p, size, l)])
          && embSin[Slot(p, size, l)] == old(embSin[Slot(p, size, l)])
    {
      SlotInside(i, size, j, positions);
      forall p: nat, l: nat | l < size && (p, l) != (i, j)
        ensures Slot(p, size, l) != Slot(i, size, j)
      {
        SlotsApart(p, l, i, j, size);
      }
      embCos[Slot(i, size, j)] := TableEntry(cos, i, invFreq[j], scale);
      embSin[Slot(i, size, j)] := TableEntry(sin, i, invFreq[j], scale);
    }
  }

  // ---------- what a rotated head is ----------

  /** Column c of a head that starts at column "at" and whose element i is paired with element i + half. */
  function Rotated(row: seq<real>, at: nat, half: nat, pcos: seq<real>, psin: seq<real>, c: int): real {
    var i := c - at;
    if 0 <= i < half <= |pcos| && half <= |psin| && 0 <= c && c + half < |row|
      then row[c] * pcos[i] - row[c + half] * psin[i]
    else if half <= i < half + half && half <= |pcos| && half <= |psin| && half <= c < |row|
      then row[c] * pcos[i - half] + row[c - half] * psin[i - half]
    else 0.0
  }

  predicate InTable(table: seq<real>, pos: nat, half: nat) {
    pos * half + half <= |table|
  }

  /** The piece of a table for one position. */
  function Piece(table: seq<real>, pos: nat, half: nat): (piece: seq<real>)
    requires InTable(table, pos, half)
    ensures |piece| == half
  {
    Arith.MulMono(0, pos, half);
    table[pos * half..pos * half + half]
  }

  function Fmsub(a: Vec, b: Vec, c: Vec): Vec {
    seq(LANES, l requires 0 <= l < LANES => a[l] * b[l] - c[l])
  }

  /** A row with one head rotated. */
  function Turned(row: seq<real>, at: nat, half: nat, pcos: seq<real>, psin: seq<real>): (r: seq<real>)
    ensures |r| == |row|
  {
    seq(|row|, c requires 0 <= c < |row| => if at <= c < at + half + half then Rotated(row, at, half, pcos, psin, c)
      else row[c])
  }

  lemma TurnedAt(row: seq<real>, at: nat, half: nat, pcos: seq<real>, psin: seq<real>, c: nat)
    requires c < |row|
    ensures Turned(row, at, half, pcos, psin)[c] ==
      if at <= c < at + half + half then Rotated(row, at, half, pcos, psin, c) else row[c]
  {
    hide Rotated;
  }

  /** Rotate one head in place, sixteen pairs at a time. */
  method RotateHead(buf: array2<real>, row: nat, at: nat, half: nat, pcos: seq<real>, psin: seq<real>)
    requires row < buf.Length0 && at + half + half <= buf.Length1 && |pcos| == |psin| == half
    modifies buf
    ensures forall r, c :: 0 <= r < buf.Length0 && 0 <= c < buf.Length1 ==>
      buf[r, c] == (if r == row && at <= c < at + half + half
        then Rotated(old(RowOf(buf, row)), at, half, pcos, psin, c) else old(buf[r, c]))
    ensures RowOf(buf, row) == Turned(old(RowOf(buf, row)), at, half, pcos, psin)
  {
    hide Load, Mul, Fmadd, Fmsub, Rotated, RowOf;
    ghost var was := RowOf(buf, row);
    var i := 0;
    while i < half
      invariant forall r, c :: 0 <= r < buf.Length0 && 0 <= c < buf.Length1 ==>
        buf[r, c] == (if r == row && InDone(c - at, half, if i < half then i else half)
          then Rotated(was, at, half, pcos, psin, c) else old(buf[r, c]))
    {
      RotateChunk(buf, row, at, half, i, pcos, psin, was);
      i := i + LANES;
    }
  }

  /** Offsets below i in either half. */
  predicate InDone(offset: int, half: nat, i: nat) {
    0 <= offset < i || half <= offset < half + i
  }

  method RotateChunk(buf: array2<real>, row: nat, at: nat, half: nat, i: nat, pcos: seq<real>, psin: seq<real>,
                     ghost was: seq<real>)
    requires row < buf.Length0 && at + half + half <= buf.Length1 && |pcos| == |psin| == half && i < half
    requires |was| == buf.Length1 && forall c :: 0 <= c < buf.Length1 && !InDone(c - at, half, i) ==>
      buf[row, c] == was[c]
    modifies buf
    ensures var next := if i + LANES < half then i + LANES else half;
      forall r, c :: 0 <= r < buf.Length0 && 0 <= c < buf.Length1 ==>
        buf[r, c] == (if r == row && InDone(c - at, half, next) && !InDone(c - at, half, i)
                      then Rotated(was, at, half, pcos, psin, c) else old(buf[r, c]))
  {
    hide Load, Mul, Fmadd, Fmsub, Rotated, RowOf;
    var remain := half - i;
    var mask := if remain >= LANES then LANES else remain;
    var cosVec, sinVec := Load(mask, pcos, i), Load(mask, psin, i);
    var vec, halfVec := Load(mask, RowOf(buf, row), at + i), Load(mask, RowOf(buf, row), at + i + half);
    var new0 := Fmsub(vec, cosVec, Mul(halfVec, sinVec));
    var new1 := Fmadd(halfVec, cosVec, Mul(vec, sinVec));
    LanesRotate(RowOf(buf, row), was, at, half, i, mask, pcos, psin, new0, new1);
    Store(buf, row, at + i, mask, new0, false);
    Store(buf, row, at + i + half, mask, new1, false);
  }

  lemma LanesRotate(now: seq<real>, was: seq<real>, at: nat, half: nat, i: nat, mask: nat, pcos: seq<real>,
                    psin: seq<real>, new0: Vec, new1: Vec)
    requires |now| == |was| && at + half + half <= |now| && |pcos| == |psin| == half && mask <= LANES
      && i + mask <= half
    requires forall c :: at + i <= c < at + i + mask ==> now[c] == was[c]
    requires forall c :: at + i + half <= c < at + i + half + mask ==> now[c] == was[c]
    requires new0
      == Fmsub(Load(mask, now, at + i), Load(mask, pcos, i), Mul(Load(mask, now, at + i + half), Load(mask, psin, i)))
    requires new1
      == Fmadd(Load(mask, now, at + i + half), Load(mask, pcos, i), Mul(Load(mask, now, at + i), Load(mask, psin, i)))
    ensures forall c :: at + i <= c < at + i + mask ==> new0[c - (at + i)] == Rotated(was, at, half, pcos, psin, c)
    ensures forall c :: at + i + half <= c < at + i + half + mask ==>
      new1[c - (at + i + half)] == Rotated(was, at, half, pcos, psin, c)
  {
  }

  // ---------- all heads of all tokens, continuous batching ----------

  /** One call: query heads from column qBase on, key heads from kBase on, in the same rows. */
  datatype Call = Call(qBase: nat, kBase: nat, dim: nat, half: nat, qHeads: nat, kHeads: nat,
                       embCos: seq<real>, embSin: seq<real>, positionIds: seq<nat>)

  function Width(n: nat, dim: nat): nat {
    n * dim
  }

  lemma WidthNext(n: nat, dim: nat)
    ensures Width(0, dim) == 0 && Width(n + 1, dim) == Width(n, dim) + dim
  {
    Arith.Distribute(dim, n, 1);
    Arith.Swap(dim, n);
    Arith.Swap(dim, n + 1);
  }

  lemma WidthMono(m: nat, n: nat, dim: nat)
    requires m <= n
    ensures Width(m, dim) <= Width(n, dim)
  {
    Arith.MulMono(m, n, dim);
  }

  ghost predicate GoodCall(c: Call, buf: array2<real>) {
    && c.dim == c.half + c.half && 0 < c.dim
    && c.qBase + Width(c.qHeads, c.dim) <= c.kBase && c.kBase + Width(c.kHeads, c.dim) <= buf.Length1
    && |c.positionIds| <= buf.Length0
    && forall r :: 0 <= r < |c.positionIds| ==>
      InTable(c.embCos, c.positionIds[r], c.half) && InTable(c.embSin, c.positionIds[r], c.half)
  }

  /** The first column of the head that column x lies in. */
  function HeadAt(base: nat, dim: nat, x: int): int
    requires 0 < dim
  {
    base + (x - base) / dim * dim
  }

  lemma HeadAtIs(base: nat, dim: nat, head: nat, x: int)
    requires 0 < dim && base + Width(head, dim) <= x < base + Width(head, dim) + dim
    ensures HeadAt(base, dim, x) == base + Width(head, dim)
  {
    Arith.DivMod(head, dim, x - base - Width(head, dim));
  }

  /** A cell of row r once the first q query heads and k key heads are rotated. */
  function CellAfter(c: Call, was: seq<real>, r: nat, q: nat, k: nat, x: nat): real
    requires 0 < c.dim && x < |was| && r < |c.positionIds|
    requires InTable(c.embCos, c.positionIds[r], c.half) && InTable(c.embSin, c.positionIds[r], c.half)
  {
    var pcos, psin := Piece(c.embCos, c.positionIds[r], c.half), Piece(c.embSin, c.positionIds[r], c.half);
    if c.qBase <= x < c.qBase + Width(q, c.dim) then Rotated(was, HeadOf(c.qBase, c.dim, x), c.half, pcos, psin, x)
    else if c.kBase <= x < c.kBase + Width(k, c.dim) then Rotated(was, HeadOf(c.kBase, c.dim, x), c.half, pcos, psin, x)
    else was[x]
  }

  function HeadOf(base: nat, dim: nat, x: nat): nat
    requires 0 < dim && base <= x
  {
    Arith.MulMono(0, (x - base) / dim, dim);
    HeadAt(base, dim, x)
  }

  function Min(a: nat, b: nat): nat {
    if a < b then a else b
  }

  /** Row r holds what it must once "heads" rounds of the head loop have reached it. */
  ghost predicate RowAfter(c: Call, buf: array2<real>, was: seq<real>, r: nat, q: nat, k: nat)
    requires GoodCall(c, buf) && r < |c.positionIds| && |was| == buf.Length1
    reads buf
  {
    forall x :: 0 <= x < buf.Length1 ==> buf[r, x] == CellAfter(c, was, r, q, k, x)
  }

  lemma RotatedSame(was: seq<real>, now: seq<real>, at: nat, half: nat, pcos: seq<real>, psin: seq<real>, x: nat)
    requires |was| == |now| && at + half + half <= |was| && at <= x < at + half + half
    requires forall y :: at <= y < at + half + half ==> was[y] == now[y]
    ensures Rotated(was, at, half, pcos, psin, x) == Rotated(now, at, half, pcos, psin, x)
  {
  }

  /** One query head of one token. */
  method RotateQuery(c: Call, buf: array2<real>, r: nat, head: nat, k: nat, ghost was: seq<real>)
    requires GoodCall(c, buf) && r < |c.positionIds| && head < c.qHeads && k <= c.kHeads && |was| == buf.Length1
    requires RowAfter(c, buf, was, r, head, k)
    modifies buf
    ensures RowAfter(c, buf, was, r, head + 1, k)
    ensures forall s, x :: 0 <= s < buf.Length0 && 0 <= x < buf.Length1 && s != r ==> buf[s, x] == old(buf[s, x])
  {
    hide Width, Piece, Rotated, HeadAt;
    var at := c.qBase + Width(head, c.dim);
    WidthNext(head, c.dim);
    WidthMono(head + 1, c.qHeads, c.dim);
    ghost var now := RowOf(buf, r);
    RotateHead(buf, r, at, c.half, Piece(c.embCos, c.positionIds[r], c.half),
      Piece(c.embSin, c.positionIds[r], c.half));
    forall x | 0 <= x < buf.Length1
      ensures buf[r, x] == CellAfter(c, was, r, head + 1, k, x)
    {
      assert now[x] == CellAfter(c, was, r, head, k, x);
      if at <= x < at + c.dim {
        HeadAtIs(c.qBase, c.dim, head, x);
        RotatedSame(was, now, at, c.half, Piece(c.embCos, c.positionIds[r], c.half),
          Piece(c.embSin, c.positionIds[r], c.half), x);
      }
    }
  }

  /** One key head of one token. */
  method RotateKey(c: Call, buf: array2<real>, r: nat, q: nat, head: nat, ghost was: seq<real>)
    requires GoodCall(c, buf) && r < |c.positionIds| && head < c.kHeads && q <= c.qHeads && |was| == buf.Length1
    requires RowAfter(c, buf, was, r, q, head)
    modifies buf
    ensures RowAfter(c, buf, was, r, q, head + 1)
    ensures forall s, x :: 0 <= s < buf.Length0 && 0 <= x < buf.Length1 && s != r ==> buf[s, x] == old(buf[s, x])
  {
    hide Width, Piece, Rotated, HeadAt;
    var at := c.kBase + Width(head, c.dim);
    WidthNext(head, c.dim);
    WidthMono(head + 1, c.kHeads, c.dim);
    WidthMono(q, c.qHeads, c.dim);
    ghost var now := RowOf(buf, r);
    RotateHead(buf, r, at, c.half, Piece(c.embCos, c.positionIds[r], c.half),
      Piece(c.embSin, c.positionIds[r], c.half));
    forall x | 0 <= x < buf.Length1
      ensures buf[r, x] == CellAfter(c, was, r, q, head + 1, x)
    {
      assert now[x] == CellAfter(c, was, r, q, head, x);
      if at <= x < at + c.dim {
        HeadAtIs(c.kBase, c.dim, head, x);
        RotatedSame(was, now, at, c.half, Piece(c.embCos, c.positionIds[r], c.half),
          Piece(c.embSin, c.positionIds[r], c.half), x);
      }
    }
  }

  /** Every query head and every key head of every token is rotated by its own position, once; nothing
      else changes. */
  method LlamaApplyRotaryPosEmbed(c: Call, buf: array2<real>)
    requires GoodCall(c, buf)
    modifies buf
    ensures forall r: nat :: r < |c.positionIds| ==> RowAfter(c, buf, old(Grid(buf))[r], r, c.qHeads, c.kHeads)
    ensures forall r, x :: |c.positionIds| <= r < buf.Length0 && 0 <= x < buf.Length1 ==> buf[r, x] == old(buf[r, x])
  {
    hide CellAfter, Grid;
    ghost var was := Grid(buf);
    NothingRotated(c, buf, was);
    var heads := if c.qHeads > c.kHeads then c.qHeads else c.kHeads;
    for head := 0 to heads
      invariant forall r: nat :: r < |c.positionIds| ==>
        RowAfter(c, buf, was[r], r, Min(head, c.qHeads), Min(head, c.kHeads))
      invariant forall r, x :: |c.positionIds| <= r < buf.Length0 && 0 <= x < buf.Length1 ==>
        buf[r, x] == old(buf[r, x])
    {
      for seqIdx := 0 to |c.positionIds|
        invariant forall r: nat :: r < seqIdx ==>
          RowAfter(c, buf, was[r], r, Min(head + 1, c.qHeads), Min(head + 1, c.kHeads))
        invariant forall r: nat :: seqIdx <= r < |c.positionIds| ==>
          RowAfter(c, buf, was[r], r, Min(head, c.qHeads), Min(head, c.kHeads))
        invariant forall r, x :: |c.positionIds| <= r < buf.Length0 && 0 <= x < buf.Length1 ==>
          buf[r, x] == old(buf[r, x])
      {
        if head < c.qHeads {
          RotateQuery(c, buf, seqIdx, head, Min(head, c.kHeads), was[seqIdx]);
        }
        if head < c.kHeads {
          RotateKey(c, buf, seqIdx, Min(head + 1, c.qHeads), head, was[seqIdx]);
        }
      }
    }
  }

  /** A head of a row written out: element i and element half + i of the head are turned by entry i of the position's
      row of the tables. */
  ghost predicate HeadTurned(c: Call, buf: array2<real>, was: seq<real>, r: nat, at: nat, i: nat)
    requires r < |c.positionIds| <= buf.Length0 && i < c.half && at + c.half + c.half <= buf.Length1 == |was|
    reads buf
  {
    var p := c.positionIds[r] * c.half + i;
    && 0 <= p < |c.embCos| && p < |c.embSin|
    && buf[r, at + i] == was[at + i] * c.embCos[p] - was[at + c.half + i] * c.embSin[p]
    && buf[r, at + c.half + i] == was[at + c.half + i] * c.embCos[p] + was[at + i] * c.embSin[p]
  }

  /** What a finished row holds, written out: query head h starts at column qBase + h * dim ... */
  lemma QueryWrittenOut(c: Call, buf: array2<real>, was: seq<real>, r: nat, head: nat, i: nat)
    requires GoodCall(c, buf) && r < |c.positionIds| && |was| == buf.Length1 && head < c.qHeads && i < c.half
    requires RowAfter(c, buf, was, r, c.qHeads, c.kHeads)
    ensures 0 <= c.qBase + head * c.dim && c.qBase + head * c.dim + c.half + c.half <= buf.Length1
    ensures HeadTurned(c, buf, was, r, c.qBase + head * c.dim, i)
  {
    hide Rotated, HeadAt, Piece, InTable, Width, CellAfter;
    QueryCellIs(c, was, r, head, i);
    QueryCellIs(c, was, r, head, c.half + i);
    TurnedCells(c, was, r, c.qBase + head * c.dim, i);
  }

  /** ... and key head h at column kBase + h * dim. */
  lemma KeyWrittenOut(c: Call, buf: array2<real>, was: seq<real>, r: nat, head: nat, i: nat)
    requires GoodCall(c, buf) && r < |c.positionIds| && |was| == buf.Length1 && head < c.kHeads && i < c.half
    requires RowAfter(c, buf, was, r, c.qHeads, c.kHeads)
    ensures 0 <= c.kBase + head * c.dim && c.kBase + head * c.dim + c.half + c.half <= buf.Length1
    ensures HeadTurned(c, buf, was, r, c.kBase + head * c.dim, i)
  {
    hide Rotated, HeadAt, Piece, InTable, Width, CellAfter;
    KeyCellIs(c, was, r, head, i);
    KeyCellIs(c, was, r, head, c.half + i);
    TurnedCells(c, was, r, c.kBase + head * c.dim, i);
  }

  lemma QueryCellIs(c: Call, was: seq<real>, r: nat, head: nat, i: nat)
    requires 0 < c.dim && r < |c.positionIds| && head < c.qHeads && i < c.dim
    requires c.qBase + Width(c.qHeads, c.dim) <= c.kBase && c.kBase + Width(c.kHeads, c.dim) <= |was|
    requires InTable(c.embCos, c.positionIds[r], c.half) && InTable(c.embSin, c.positionIds[r], c.half)
    ensures var at := c.qBase + head * c.dim;
      && c.qBase <= at <= at + i < at + c.dim <= |was|
      && CellAfter(c, was, r, c.qHeads, c.kHeads, at + i) ==
        Rotated(was, at, c.half, Piece(c.embCos, c.positionIds[r], c.half), Piece(c.embSin, c.positionIds[r], c.half),
                at + i)
  {
    hide Rotated, HeadAt, Piece, InTable, Width;
    WidthMono(0, c.kHeads, c.dim);
    WidthNext(0, c.dim);
    HeadColumns(c.qBase, c.dim, head, c.qHeads, i);
  }

  lemma KeyCellIs(c: Call, was: seq<real>, r: nat, head: nat, i: nat)
    requires 0 < c.dim && r < |c.positionIds| && head < c.kHeads && i < c.dim
    requires c.qBase + Width(c.qHeads, c.dim) <= c.kBase && c.kBase + Width(c.kHeads, c.dim) <= |was|
    requires InTable(c.embCos, c.positionIds[r], c.half) && InTable(c.embSin, c.positionIds[r], c.half)
    ensures var at := c.kBase + head * c.dim;
      && c.kBase <= at <= at + i < at + c.dim <= |was|
      && CellAfter(c, was, r, c.qHeads, c.kHeads, at + i) ==
        Rotated(was, at, c.half, Piece(c.embCos, c.positionIds[r], c.half), Piece(c.embSin, c.positionIds[r], c.half),
                at + i)
  {
    hide Rotated, HeadAt, Piece, InTable, Width;
    WidthMono(0, c.kHeads, c.dim);
    WidthNext(0, c.dim);
    HeadColumns(c.kBase, c.dim, head, c.kHeads, i);
  }

  lemma HeadColumns(base: nat, dim: nat, head: nat, heads: nat, x: nat)
    requires head < heads && x < dim
    ensures base <= base + head * dim <= base + head * dim + dim <= base + Width(heads, dim)
    ensures HeadAt(base, dim, base + head * dim + x) == base + head * dim
  {
    WidthIs(head, dim);
    WidthNext(head, dim);
    WidthMono(head + 1, heads, dim);
    WidthMono(0, head, dim);
    HeadAtIs(base, dim, head, base + Width(head, dim) + x);
  }

  lemma WidthIs(n: nat, dim: nat)
    ensures Width(n, dim) == n * dim
  {
  }

  lemma TurnedCells(c: Call, was: seq<real>, r: nat, at: nat, i: nat)
    requires r < |c.positionIds| && i < c.half && at + c.half + c.half <= |was|
    requires InTable(c.embCos, c.positionIds[r], c.half) && InTable(c.embSin, c.positionIds[r], c.half)
    ensures var p := c.positionIds[r] * c.half + i;
      var pcos, psin := Piece(c.embCos, c.positionIds[r], c.half), Piece(c.embSin, c.positionIds[r], c.half);
      && 0 <= p < |c.embCos| && p < |c.embSin|
      && Rotated(was, at, c.half, pcos, psin, at + i)
        == was[at + i] * c.embCos[p] - was[at + c.half + i] * c.embSin[p]
      && Rotated(was, at, c.half, pcos, psin, at + c.half + i)
        == was[at + c.half + i] * c.embCos[p] + was[at + i] * c.embSin[p]
  {
    Arith.MulMono(0, c.positionIds[r], c.half);
    var pcos, psin := Piece(c.embCos, c.positionIds[r], c.half), Piece(c.embSin, c.positionIds[r], c.half);
    RotatedPair(was, at, c.half, pcos, psin, i);
    assert at + (c.half + i) == at + c.half + i;
  }

  /** ... and outside the heads nothing has changed. */
  lemma RestOfRowKept(c: Call, buf: array2<real>, was: seq<real>, r: nat, x: nat)
    requires GoodCall(c, buf) && r < |c.positionIds| && |was| == buf.Length1
    requires RowAfter(c, buf, was, r, c.qHeads, c.kHeads)
    requires x < buf.Length1 && !(c.qBase <= x < c.qBase + c.qHeads * c.dim)
      && !(c.kBase <= x < c.kBase + c.kHeads * c.dim)
    ensures buf[r, x] == was[x]
  {
    hide Rotated, HeadAt, Piece;
    WidthIs(c.qHeads, c.dim);
    WidthIs(c.kHeads, c.dim);
  }

  lemma NothingRotated(c: Call, buf: array2<real>, was: Mat)
    requires GoodCall(c, buf) && was == Grid(buf)
    ensures forall r: nat :: r < |c.positionIds| ==> RowAfter(c, buf, was[r], r, 0, 0)
  {
    WidthNext(0, c.dim);
  }

  // ---------- why it works: only the distance matters ----------

  /** Product of element i of a rotated query head and the same element of a rotated key head. */
  function ProductTerm(q: seq<real>, qAt: nat, qCos: seq<real>, qSin: seq<real>, k: seq<real>, kAt: nat,
                       kCos: seq<real>, kSin: seq<real>, half: nat): int -> real {
    i => Rotated(q, qAt, half, qCos, qSin, qAt + i) * Rotated(k, kAt, half, kCos, kSin, kAt + i)
  }

  /** The score of a rotated query head against a rotated key head. */
  function HeadProduct(q: seq<real>, qAt: nat, m: nat, k: seq<real>, kAt: nat, n: nat, half: nat, embCos: seq<real>,
                       embSin: seq<real>): real
    requires InTable(embCos, m, half) && InTable(embSin, m, half) && InTable(embCos, n, half)
      && InTable(embSin, n, half)
  {
    Sum(ProductTerm(q, qAt, Piece(embCos, m, half), Piece(embSin, m, half), k, kAt, Piece(embCos, n, half),
      Piece(embSin, n, half), half), 0, half + half)
  }

  /** The score written out: the products of the turned elements i and half + i of both heads, over all pairs. */
  lemma HeadProductWrittenOut(q: seq<real>, qAt: nat, m: nat, k: seq<real>, kAt: nat, n: nat, half: nat,
                              embCos: seq<real>, embSin: seq<real>, low: int -> real, high: int -> real)
    requires InTable(embCos, m, half) && InTable(embSin, m, half) && InTable(embCos, n, half)
      && InTable(embSin, n, half)
    requires qAt + half + half <= |q| && kAt + half + half <= |k| && 0 <= m * half && 0 <= n * half
    requires m * half + half <= |embCos| && m * half + half <= |embSin|
      && n * half + half <= |embCos| && n * half + half <= |embSin|
    requires forall i :: 0 <= i < half ==>
      low(i) == (q[qAt + i] * embCos[m * half + i] - q[qAt + half + i] * embSin[m * half + i])
        * (k[kAt + i] * embCos[n * half + i] - k[kAt + half + i] * embSin[n * half + i])
    requires forall i :: 0 <= i < half ==>
      high(i) == (q[qAt + half + i] * embCos[m * half + i] + q[qAt + i] * embSin[m * half + i])
        * (k[kAt + half + i] * embCos[n * half + i] + k[kAt + i] * embSin[n * half + i])
    ensures HeadProduct(q, qAt, m, k, kAt, n, half, embCos, embSin) == Sum(low, 0, half) + Sum(high, 0, half)
  {
    hide Sum, Rotated, Piece, InTable;
    var f := ProductTerm(q, qAt, Piece(embCos, m, half), Piece(embSin, m, half), k, kAt, Piece(embCos, n, half),
                         Piece(embSin, n, half), half);
    forall i: nat | i < half
      ensures f(i) == low(i) && f(i + half) == high(i)
    {
      TurnedPair(q, qAt, m, half, embCos, embSin, i);
      TurnedPair(k, kAt, n, half, embCos, embSin, i);
    }
    SumExt(f, low, 0, half);
    SumShift(f, high, half, 0, half);
    SumSplit(f, 0, half, half + half);
  }

  lemma TurnedPair(q: seq<real>, at: nat, m: nat, half: nat, embCos: seq<real>, embSin: seq<real>, i: nat)
    requires InTable(embCos, m, half) && InTable(embSin, m, half) && i < half && at + half + half <= |q|
    ensures 0 <= m * half && m * half + half <= |embCos| && m * half + half <= |embSin|
    ensures var pcos, psin, x := Piece(embCos, m, half), Piece(embSin, m, half), m * half + i;
      && Rotated(q, at, half, pcos, psin, at + i) == q[at + i] * embCos[x] - q[at + half + i] * embSin[x]
      && Rotated(q, at, half, pcos, psin, at + (i + half)) == q[at + half + i] * embCos[x] + q[at + i] * embSin[x]
  {
    Arith.MulMono(0, m, half);
    RotatedPair(q, at, half, Piece(embCos, m, half), Piece(embSin, m, half), i);
    assert i + half == half + i;
  }

  /** What pair i contributes at distance d. */
  function DistanceTerm(q: seq<real>, qAt: nat, k: seq<real>, kAt: nat, invFreq: seq<real>, cos: real -> real,
                        sin: real -> real, d: int): int -> real {
    i =>
      var half := |invFreq|;
      if 0 <= i < half && qAt + half + i < |q| && kAt + half + i < |k| then
        AtDistance(q[qAt + i], q[qAt + half + i], k[kAt + i], k[kAt + half + i], cos(Angle(d, invFreq[i])),
          sin(Angle(d, invFreq[i])))
      else 0.0
  }

  /** Two pairs seen as plane vectors: their product along and across, turned by an angle. */
  function AtDistance(a: real, b: real, x: real, y: real, c: real, s: real): real {
    (a * x + b * y) * c + (a * y - b * x) * s
  }

  lemma PairIdentity(a: real, b: real, x: real, y: real, c1: real, s1: real, c2: real, s2: real, qLow: real,
                     qHigh: real, kLow: real, kHigh: real)
    requires qLow == a * c1 - b * s1 && qHigh == b * c1 + a * s1 && kLow == x * c2 - y * s2 && kHigh == y * c2 + x * s2
    ensures qLow * kLow + qHigh * kHigh == (a * x + b * y) * (c1 * c2 + s1 * s2) + (a * y - b * x) * (s1 * c2 - c1 * s2)
  {
    assert qLow * kLow == (a * x) * (c1 * c2) - (a * y) * (c1 * s2) - (b * x) * (s1 * c2) + (b * y) * (s1 * s2) by {
      Spread(a * c1, -(b * s1), x * c2, -(y * s2));
      Regroup4(a, c1, x, c2);
      Regroup4(a, c1, y, s2);
      Regroup4(b, s1, x, c2);
      Regroup4(b, s1, y, s2);
    }
    assert qHigh * kHigh == (b * y) * (c1 * c2) + (b * x) * (c1 * s2) + (a * y) * (s1 * c2) + (a * x) * (s1 * s2) by {
      Spread(b * c1, a * s1, y * c2, x * s2);
      Regroup4(b, c1, y, c2);
      Regroup4(b, c1, x, s2);
      Regroup4(a, s1, y, c2);
      Regroup4(a, s1, x, s2);
    }
    Spread(a * x, b * y, c1 * c2, s1 * s2);
    Spread(a * y, -(b * x), s1 * c2, -(c1 * s2));
  }

  lemma Regroup4(a: real, b: real, c: real, d: real)
    ensures (a * b) * (c * d) == (a * c) * (b * d)
  {
    assert (a * b) * (c * d) == a * (b * (c * d));
    assert b * (c * d) == c * (b * d);
    assert a * (c * (b * d)) == (a * c) * (b * d);
  }

  lemma Spread(a: real, b: real, c: real, d: real)
    ensures (a + b) * (c + d) == a * c + a * d + b * c + b * d
  {
  }

  lemma AngleDifference(cos: real -> real, sin: real -> real, alpha: real, beta: real)
    requires TrigLaws(cos, sin)
    ensures cos(alpha - beta) == cos(alpha) * cos(beta) + sin(alpha) * sin(beta)
    ensures sin(alpha - beta) == sin(alpha) * cos(beta) - cos(alpha) * sin(beta)
  {
  }

  /** Rotating a pair of elements on either side turns the two angles into their difference. */
  lemma PairOfAngles(a: real, b: real, x: real, y: real, cos: real -> real, sin: real -> real, alpha: real, beta: real,
                     scale: real, c1: real, s1: real, c2: real, s2: real, qLow: real, qHigh: real, kLow: real,
                     kHigh: real)
    requires TrigLaws(cos, sin)
    requires qLow == a * c1 - b * s1 && qHigh == b * c1 + a * s1 && kLow == x * c2 - y * s2 && kHigh == y * c2 + x * s2
    requires c1 == cos(alpha) * scale && s1 == sin(alpha) * scale && c2 == cos(beta) * scale && s2 == sin(beta) * scale
    ensures qLow * kLow + qHigh * kHigh == Squared(scale) * AtDistance(a, b, x, y, cos(alpha - beta), sin(alpha - beta))
  {
    hide TrigLaws, Squared;
    AngleDifference(cos, sin, alpha, beta);
    PairIdentity(a, b, x, y, c1, s1, c2, s2, qLow, qHigh, kLow, kHigh);
    FactorScale(cos(alpha), sin(alpha), cos(beta), sin(beta), scale, c1, s1, c2, s2, cos(alpha - beta),
      sin(alpha - beta));
    PullOut(a * x + b * y, a * y - b * x, cos(alpha - beta), sin(alpha - beta), Squared(scale),
      c1 * c2 + s1 * s2, s1 * c2 - c1 * s2);
  }

  lemma FactorScale(C1: real, S1: real, C2: real, S2: real, scale: real, c1: real, s1: real, c2: real, s2: real,
                    cd: real, sd: real)
    requires c1 == C1 * scale && s1 == S1 * scale && c2 == C2 * scale && s2 == S2 * scale
    requires cd == C1 * C2 + S1 * S2 && sd == S1 * C2 - C1 * S2
    ensures c1 * c2 + s1 * s2 == cd * Squared(scale) && s1 * c2 - c1 * s2 == sd * Squared(scale)
  {
    Regroup4(C1, scale, C2, scale);
    Regroup4(S1, scale, S2, scale);
    Regroup4(S1, scale, C2, scale);
    Regroup4(C1, scale, S2, scale);
  }

  lemma PullOut(u: real, v: real, cd: real, sd: real, t: real, cds: real, sds: real)
    requires cds == cd * t && sds == sd * t
    ensures u * cds + v * sds == t * (u * cd + v * sd)
  {
    assert u * (cd * t) == t * (u * cd);
    assert v * (sd * t) == t * (v * sd);
  }

  lemma PieceIs(table: seq<real>, invFreq: seq<real>, pos: nat, positions: nat, i: nat)
    requires pos < positions && i < |invFreq| && |table| == positions * |invFreq|
    ensures InTable(table, pos, |invFreq|)
    ensures Slot(pos, |invFreq|, i) < |table|
    ensures Piece(table, pos, |invFreq|)[i] == table[Slot(pos, |invFreq|, i)]
  {
    SlotInside(pos, |invFreq|, i, positions);
    SlotInside(pos, |invFreq|, |invFreq| - 1, positions);
    Arith.MulMono(0, pos, |invFreq|);
  }

  lemma RotatedPair(q: seq<real>, qAt: nat, half: nat, pcos: seq<real>, psin: seq<real>, i: nat)
    requires i < half == |pcos| == |psin| && qAt + half + half <= |q|
    ensures Rotated(q, qAt, half, pcos, psin, qAt + i) == q[qAt + i] * pcos[i] - q[qAt + half + i] * psin[i]
    ensures Rotated(q, qAt, half, pcos, psin, qAt + (half + i)) == q[qAt + half + i] * pcos[i] + q[qAt + i] * psin[i]
  {
    assert qAt + i + half == qAt + half + i;
  }

  lemma DistanceTermIs(q: seq<real>, qAt: nat, k: seq<real>, kAt: nat, invFreq: seq<real>, cos: real -> real,
                       sin: real -> real, d: int, i: nat)
    requires i < |invFreq| && qAt + |invFreq| + |invFreq| <= |q| && kAt + |invFreq| + |invFreq| <= |k|
    ensures DistanceTerm(q, qAt, k, kAt, invFreq, cos, sin, d)(i) ==
      AtDistance(q[qAt + i], q[qAt + |invFreq| + i], k[kAt + i], k[kAt + |invFreq| + i], cos(Angle(d, invFreq[i])),
        sin(Angle(d, invFreq[i])))
  {
    hide AtDistance;
  }

  lemma EntriesOf(embCos: seq<real>, embSin: seq<real>, invFreq: seq<real>, positions: nat, cos: real -> real,
                  sin: real -> real, scale: real, pos: nat, i: nat)
    requires TablesRight(embCos, embSin, invFreq, positions, cos, sin, scale) && pos < positions && i < |invFreq|
    ensures InTable(embCos, pos, |invFreq|) && InTable(embSin, pos, |invFreq|)
    ensures Piece(embCos, pos, |invFreq|)[i] == cos(Angle(pos, invFreq[i])) * scale
    ensures Piece(embSin, pos, |invFreq|)[i] == sin(Angle(pos, invFreq[i])) * scale
  {
    hide Angle;
    PieceIs(embCos, invFreq, pos, positions, i);
    PieceIs(embSin, invFreq, pos, positions, i);
    assert embCos[Slot(pos, |invFreq|, i)] == TableEntry(cos, pos, invFreq[i], scale);
  }

  lemma AngleDistance(m: int, n: int, freq: real)
    ensures Angle(m, freq) - Angle(n, freq) == Angle(m - n, freq)
  {
  }

  /** Elements i and i + half of the two heads together. */
  lemma PairAtDistance(q: seq<real>, qAt: nat, m: nat, k: seq<real>, kAt: nat, n: nat, invFreq: seq<real>,
                       embCos: seq<real>, embSin: seq<real>, positions: nat, cos: real -> real, sin: real -> real,
                       scale: real, i: nat)
    requires TrigLaws(cos, sin) && TablesRight(embCos, embSin, invFreq, positions, cos, sin, scale)
    requires m < positions && n < positions && i < |invFreq|
    requires qAt + |invFreq| + |invFreq| <= |q| && kAt + |invFreq| + |invFreq| <= |k|
    ensures InTable(embCos, m, |invFreq|) && InTable(embSin, m, |invFreq|) && InTable(embCos, n, |invFreq|)
      && InTable(embSin, n, |invFreq|)
    ensures var half := |invFreq|;
      var f := ProductTerm(q, qAt, Piece(embCos, m, half), Piece(embSin, m, half), k, kAt, Piece(embCos, n, half),
        Piece(embSin, n, half), half);
      Both(f, half)(i) == Squared(scale) * DistanceTerm(q, qAt, k, kAt, invFreq, cos, sin, m - n)(i)
  {
    hide TablesRight, TrigLaws, Piece, Slot, Rotated, DistanceTerm, Angle, Squared, InTable, AtDistance;
    var half, freq := |invFreq|, invFreq[i];
    EntriesOf(embCos, embSin, invFreq, positions, cos, sin, scale, m, i);
    EntriesOf(embCos, embSin, invFreq, positions, cos, sin, scale, n, i);
    AngleDistance(m, n, freq);
    var qCos, qSin, kCos, kSin :=
      Piece(embCos, m, half), Piece(embSin, m, half), Piece(embCos, n, half), Piece(embSin, n, half);
    RotatedPair(q, qAt, half, qCos, qSin, i);
    RotatedPair(k, kAt, half, kCos, kSin, i);
    PairOfAngles(q[qAt + i], q[qAt + half + i], k[kAt + i], k[kAt + half + i], cos, sin, Angle(m, freq),
      Angle(n, freq), scale,
                 qCos[i], qSin[i], kCos[i], kSin[i],
                 Rotated(q, qAt, half, qCos, qSin, qAt + i), Rotated(q, qAt, half, qCos, qSin, qAt + (half + i)),
                 Rotated(k, kAt, half, kCos, kSin, kAt + i), Rotated(k, kAt, half, kCos, kSin, kAt + (half + i)));
    DistanceTermIs(q, qAt, k, kAt, invFreq, cos, sin, m - n, i);
  }

  /** The score of a query rotated to position m against a key rotated to position n is a function of
      the two heads and of m - n alone. */
  lemma ScoreDependsOnDistance(q: seq<real>, qAt: nat, m: nat, k: seq<real>, kAt: nat, n: nat, invFreq: seq<real>,
                               embCos: seq<real>, embSin: seq<real>, positions: nat, cos: real -> real,
                               sin: real -> real, scale: real)
    requires TrigLaws(cos, sin) && TablesRight(embCos, embSin, invFreq, positions, cos, sin, scale)
    requires m < positions && n < positions && 0 < |invFreq|
    requires qAt + |invFreq| + |invFreq| <= |q| && kAt + |invFreq| + |invFreq| <= |k|
    ensures InTable(embCos, m, |invFreq|) && InTable(embSin, m, |invFreq|) && InTable(embCos, n, |invFreq|)
      && InTable(embSin, n, |invFreq|)
    ensures HeadProduct(q, qAt, m, k, kAt, n, |invFreq|, embCos, embSin)
      == Squared(scale) * Sum(DistanceTerm(q, qAt, k, kAt, invFreq, cos, sin, m - n), 0, |invFreq|)
  {
    hide TablesRight, TrigLaws, Piece, DistanceTerm, ProductTerm, Sum, Slot, Rotated, Both, Squared, InTable;
    var half := |invFreq|;
    PairAtDistance(q, qAt, m, k, kAt, n, invFreq, embCos, embSin, positions, cos, sin, scale, 0);
    var f := ProductTerm(q, qAt, Piece(embCos, m, half), Piece(embSin, m, half), k, kAt, Piece(embCos, n, half),
      Piece(embSin, n, half), half);
    var g := DistanceTerm(q, qAt, k, kAt, invFreq, cos, sin, m - n);
    forall i: nat | i < half
      ensures Both(f, half)(i) == Squared(scale) * g(i)
    {
      PairAtDistance(q, qAt, m, k, kAt, n, invFreq, embCos, embSin, positions, cos, sin, scale, i);
    }
    SumOfPairs(f, g, Squared(scale), half);
  }

  function Later(f: int -> real, half: nat): int -> real {
    i => f(i + half)
  }

  function PairSum(f: int -> real, half: nat, i: int): real {
    f(i) + f(half + i)
  }

  function Both(f: int -> real, half: nat): int -> real {
    i => PairSum(f, half, i)
  }

  function Earlier(f: int -> real): int -> real {
    i => f(i)
  }

  lemma HalvesShifted(f: int -> real, half: nat)
    ensures Sum(f, 0, half) == Sum(Earlier(f), 0, half)
    ensures Sum(f, half, half + half) == Sum(Later(f, half), 0, half)
  {
    SumExt(f, Earlier(f), 0, half);
    SumShift(f, Later(f, half), half, 0, half);
  }

  lemma SumOfHalves(f: int -> real, half: nat)
    ensures Sum(f, 0, half + half) == Sum(Both(f, half), 0, half)
  {
    hide Sum;
    SumSplit(f, 0, half, half + half);
    HalvesShifted(f, half);
    SumAdd(Earlier(f), Later(f, half), Both(f, half), 0, half);
  }

  lemma SumOfPairs(f: int -> real, g: int -> real, c: real, half: nat)
    requires forall i: nat :: i < half ==> Both(f, half)(i) == c * g(i)
    ensures Sum(f, 0, half + half) == c * Sum(g, 0, half)
  {
    hide Sum, Both;
    SumOfHalves(f, half);
    SumScale(g, Both(f, half), c, 0, half);
  }

  /** Moving query and key by the same number of positions leaves the score as it was. */
  lemma ScoreIsTranslationInvariant(q: seq<real>, qAt: nat, k: seq<real>, kAt: nat, m: nat, n: nat, m': nat, n': nat,
                                    invFreq: seq<real>, embCos: seq<real>, embSin: seq<real>, positions: nat,
                                    cos: real -> real, sin: real -> real, scale: real)
    requires TrigLaws(cos, sin) && TablesRight(embCos, embSin, invFreq, positions, cos, sin, scale)
    requires m < positions && n < positions && m' < positions && n' < positions && m - n == m' - n' && 0 < |invFreq|
    requires qAt + |invFreq| + |invFreq| <= |q| && kAt + |invFreq| + |invFreq| <= |k|
    ensures InTable(embCos, m, |invFreq|) && InTable(embSin, m, |invFreq|) && InTable(embCos, n, |invFreq|)
      && InTable(embSin, n, |invFreq|)
    ensures InTable(embCos, m', |invFreq|) && InTable(embSin, m', |invFreq|) && InTable(embCos, n', |invFreq|)
      && InTable(embSin, n', |invFreq|)
    ensures HeadProduct(q, qAt, m, k, kAt, n, |invFreq|, embCos, embSin)
      == HeadProduct(q, qAt, m', k, kAt, n', |invFreq|, embCos, embSin)
  {
    hide TrigLaws, TablesRight, HeadProduct, Sum, Squared, InTable, DistanceTerm;
    ScoreDependsOnDistance(q, qAt, m, k, kAt, n, invFreq, embCos, embSin, positions, cos, sin, scale);
    ScoreDependsOnDistance(q, qAt, m', k, kAt, n', invFreq, embCos, embSin, positions, cos, sin, scale);
  }

  function SquareTerm(q: seq<real>, qAt: nat): int -> real {
    i => if 0 <= i && qAt + i < |q| then Squared(q[qAt + i]) else 0.0
  }

  /** Rotation changes the squared length of a head by the squared table scale only. */
  lemma LengthKept(q: seq<real>, qAt: nat, m: nat, invFreq: seq<real>, embCos: seq<real>, embSin: seq<real>,
                   positions: nat, cos: real -> real, sin: real -> real, scale: real)
    requires TrigLaws(cos, sin) && TablesRight(embCos, embSin, invFreq, positions, cos, sin, scale)
    requires m < positions && 0 < |invFreq| && qAt + |invFreq| + |invFreq| <= |q|
    ensures InTable(embCos, m, |invFreq|) && InTable(embSin, m, |invFreq|)
    ensures HeadProduct(q, qAt, m, q, qAt, m, |invFreq|, embCos, embSin)
      == Squared(scale) * Sum(SquareTerm(q, qAt), 0, |invFreq| + |invFreq|)
  {
    hide TablesRight, TrigLaws, HeadProduct, Sum, DistanceTerm, SquareTerm, Both, Squared, InTable;
    var half := |invFreq|;
    ScoreDependsOnDistance(q, qAt, m, q, qAt, m, invFreq, embCos, embSin, positions, cos, sin, scale);
    var f, g := SquareTerm(q, qAt), DistanceTerm(q, qAt, q, qAt, invFreq, cos, sin, 0);
    forall i: nat | i < half
      ensures Both(f, half)(i) == 1.0 * g(i)
    {
      SquaresAtNoDistance(q, qAt, invFreq, cos, sin, i);
    }
    SumOfPairs(f, g, 1.0, half);
  }

  lemma SquaresAtNoDistance(q: seq<real>, qAt: nat, invFreq: seq<real>, cos: real -> real, sin: real -> real, i: nat)
    requires TrigLaws(cos, sin) && i < |invFreq| && qAt + |invFreq| + |invFreq| <= |q|
    ensures Both(SquareTerm(q, qAt), |invFreq|)(i) == 1.0 * DistanceTerm(q, qAt, q, qAt, invFreq, cos, sin, 0)(i)
  {
    hide DistanceTerm, TrigLaws, Angle, AtDistance, Squared, Both, SquareTerm;
    DistanceTermIs(q, qAt, q, qAt, invFreq, cos, sin, 0, i);
    NoRotation(cos, sin, invFreq[i]);
    OnlyCosine(q[qAt + i], q[qAt + |invFreq| + i], cos(Angle(0, invFreq[i])), sin(Angle(0, invFreq[i])));
    BothSquares(q, qAt, |invFreq|, i);
  }

  lemma BothSquares(q: seq<real>, qAt: nat, half: nat, i: nat)
    requires i < half && qAt + half + half <= |q|
    ensures Both(SquareTerm(q, qAt), half)(i) == Squared(q[qAt + i]) + Squared(q[qAt + half + i])
  {
    hide Squared, SquareTerm, Both;
    BothIs(SquareTerm(q, qAt), half, i);
    SquareTermIs(q, qAt, i);
    SquareTermIs(q, qAt, half + i);
    assert qAt + (half + i) == qAt + half + i;
  }

  lemma BothIs(f: int -> real, half: nat, i: nat)
    ensures Both(f, half)(i) == f(i) + f(half + i)
  {
  }

  lemma SquareTermIs(q: seq<real>, qAt: nat, i: nat)
    requires qAt + i < |q|
    ensures SquareTerm(q, qAt)(i) == Squared(q[qAt + i])
  {
    hide Squared;
  }

  lemma OnlyCosine(a: real, b: real, c: real, s: real)
    requires c == 1.0 && s == 0.0
    ensures AtDistance(a, b, a, b, c, s) == Squared(a) + Squared(b)
  {
  }

  lemma NoRotation(cos: real -> real, sin: real -> real, freq: real)
    requires TrigLaws(cos, sin)
    ensures cos(Angle(0, freq)) == 1.0 && sin(Angle(0, freq)) == 0.0
  {
    assert Angle(0, freq) == 0.0;
    assert sin(0.0 - 0.0) == sin(0.0) * cos(0.0) - cos(0.0) * sin(0.0);
  }

  // ---------- odd head sizes ----------

  /** The kernel takes half to be (dim + 1) / 2 and writes 2 * half columns from the start of each head.
      It leaves the next head alone exactly if the head size is even. */
  lemma NextHeadUntouchedIffEven(at: nat, dim: nat)
    requires 0 < dim
    ensures var half := (dim + 1) / 2;
      dim % 2 == 0 <==>
        forall x: int {:trigger InHead(x, at, half + half)} :: InHead(x, at, half + half) ==> !InHead(x, at + dim, dim)
  {
    var half := (dim + 1) / 2;
    if dim % 2 != 0 {
      assert InHead(at + dim, at, half + half) && InHead(at + dim, at + dim, dim);
    }
  }

  predicate InHead(x: int, at: nat, width: nat) {
    at <= x < at + width
  }

  /** With an odd head size, rotating a head replaces the first element of the next one. */
  lemma OddHeadSpills(row: seq<real>, at: nat, dim: nat, pcos: seq<real>, psin: seq<real>)
    requires dim % 2 == 1 && at + dim < |row| && |pcos| == |psin| == (dim + 1) / 2
    ensures var half := (dim + 1) / 2;
      Turned(row, at, half, pcos, psin)[at + dim]
        == row[at + dim] * pcos[half - 1] + row[at + half - 1] * psin[half - 1]
  {
    var half := (dim + 1) / 2;
    TurnedAt(row, at, half, pcos, psin, at + dim);
    hide Turned;
    assert at + dim - half == at + half - 1;
  }

  /** Two neighbouring heads come out the same whichever is rotated first. */
  predicate Commutes(row: seq<real>, at: nat, dim: nat, half: nat, pcos: seq<real>, psin: seq<real>) {
    Turned(Turned(row, at, half, pcos, psin), at + dim, half, pcos, psin)
    == Turned(Turned(row, at + dim, half, pcos, psin), at, half, pcos, psin)
  }

  /** Threads take the heads in any order; the order does not matter exactly if the head size is even. */
  lemma OrderIrrelevantIffEven(dim: nat)
    requires 0 < dim
    ensures var half := (dim + 1) / 2;
      dim % 2 == 0 <==>
        forall row: seq<real>, at: nat, pcos: seq<real>,
        psin: seq<real> {:trigger Commutes(row, at, dim, half, pcos, psin)} ::
        |pcos| == |psin| == half && at + dim + half + half <= |row| ==> Commutes(row, at, dim, half, pcos, psin)
  {
    hide Commutes;
    var half := (dim + 1) / 2;
    if dim % 2 == 0 {
      forall row: seq<real>, at: nat, pcos: seq<real>, psin: seq<real> | |pcos| == |psin| == half
        && at + dim + half + half <= |row|
        ensures Commutes(row, at, dim, half, pcos, psin)
      {
        EvenHeadsCommute(row, at, half, pcos, psin);
      }
    } else {
      var row, pcos, psin := OddHeadsClash(half);
      assert !Commutes(row, 0, dim, half, pcos, psin);
    }
  }

  lemma EvenHeadsCommute(row: seq<real>, at: nat, half: nat, pcos: seq<real>, psin: seq<real>)
    requires |pcos| == |psin| == half && at + half + half + half + half <= |row|
    ensures Commutes(row, at, half + half, half, pcos, psin)
  {
    hide Rotated, Turned;
    var first, second := Turned(row, at, half, pcos, psin), Turned(row, at + half + half, half, pcos, psin);
    var both, other := Turned(first, at + half + half, half, pcos, psin), Turned(second, at, half, pcos, psin);
    forall c: nat | c < |row|
      ensures both[c] == other[c]
    {
      OneHeadThenOther(row, at, at + half + half, half, pcos, psin, c);
      OneHeadThenOther(row, at + half + half, at, half, pcos, psin, c);
    }
    assert both == other;
    assert at + (half + half) == at + half + half;
  }

  lemma OneHeadThenOther(row: seq<real>, a: nat, b: nat, half: nat, pcos: seq<real>, psin: seq<real>, c: nat)
    requires |pcos| == |psin| == half && a + half + half <= |row| && b + half + half <= |row| && c < |row|
    requires a + half + half <= b || b + half + half <= a
    ensures Turned(Turned(row, a, half, pcos, psin), b, half, pcos, psin)[c] ==
      if a <= c < a + half + half then Rotated(row, a, half, pcos, psin, c)
      else if b <= c < b + half + half then Rotated(row, b, half, pcos, psin, c) else row[c]
  {
    hide Rotated, Turned;
    var first := Turned(row, a, half, pcos, psin);
    TurnedAt(first, b, half, pcos, psin, c);
    TurnedAt(row, a, half, pcos, psin, c);
    if b <= c < b + half + half {
      forall y: nat | b <= y < b + half + half
        ensures row[y] == first[y]
      {
        TurnedAt(row, a, half, pcos, psin, y);
      }
      RotatedSame(row, first, b, half, pcos, psin, c);
    }
  }

  /** A quarter turn of two heads of odd size: one element differs by the order. */
  lemma OddHeadsClash(half: nat) returns (row: seq<real>, pcos: seq<real>, psin: seq<real>)
    requires 0 < half
    ensures |pcos| == |psin| == half && |row| == half + half - 1 + half + half
    ensures !Commutes(row, 0, half + half - 1, half, pcos, psin)
  {
    row := seq(half + half - 1 + half + half, k => if k == half - 1 then 1.0 else 0.0);
    pcos, psin := seq(half, _ => 0.0), seq(half, _ => 1.0);
    var dim, c := half + half - 1, half + half - 1 + half;
    hide Turned, Rotated;
    var first, second := Turned(row, 0, half, pcos, psin), Turned(row, dim, half, pcos, psin);
    QuarterTurn(row, 0, half, pcos, psin, dim);
    QuarterTurn(first, dim, half, pcos, psin, c);
    QuarterTurn(row, dim, half, pcos, psin, c);
    TurnedAt(second, 0, half, pcos, psin, c);
    assert Turned(first, dim, half, pcos, psin)[c] == 1.0;
    assert Turned(second, 0, half, pcos, psin)[c] == 0.0;
  }

  /** A quarter turn moves the low element of a pair to the high one. */
  lemma QuarterTurn(row: seq<real>, at: nat, half: nat, pcos: seq<real>, psin: seq<real>, c: nat)
    requires |pcos| == |psin| == half && at + half <= c < at + half + half <= |row|
    requires pcos[c - at - half] == 0.0 && psin[c - at - half] == 1.0
    ensures Turned(row, at, half, pcos, psin)[c] == row[c - half]
  {
    TurnedAt(row, at, half, pcos, psin, c);
    hide Turned;
    assert c - half - at == c - at - half;
  }
}
