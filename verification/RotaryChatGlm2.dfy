/** The ChatGLM2 rotation: neighbouring elements form the pairs, only the first half of each head turns,
    and the vector kernel sorts even and odd elements apart, rotates, and weaves them together again. */
module RotaryChatGlm2 {
  import opened GemmVectors
  import opened Matrices
  import opened RotaryEmbedding
  import opened Sums
  import Arith

  // ---------- lane shuffles ----------

  /** Lane l takes element idx[l] of the 32 elements of a and b. */
  function Permute(a: Vec, idx: seq<nat>, b: Vec): Vec
    requires |idx| == LANES
  {
    seq(LANES, l requires 0 <= l < LANES => if idx[l] < LANES then a[idx[l]]
      else if idx[l] < 2 * LANES then b[idx[l] - LANES] else 0.0)
  }

  /** The index vectors, lowest lane first. */
  const EVENS: seq<nat> := [0x00, 0x02, 0x04, 0x06, 0x08, 0x0a, 0x0c, 0x0e, 0x10, 0x12, 0x14, 0x16, 0x18, 0x1a, 0x1c,
      0x1e]
  const ODDS: seq<nat> := [0x01, 0x03, 0x05, 0x07, 0x09, 0x0b, 0x0d, 0x0f, 0x11, 0x13, 0x15, 0x17, 0x19, 0x1b, 0x1d,
      0x1f]
  const LOWS: seq<nat> := [0x00, 0x10, 0x01, 0x11, 0x02, 0x12, 0x03, 0x13, 0x04, 0x14, 0x05, 0x15, 0x06, 0x16, 0x07,
      0x17]
  const HIGHS: seq<nat> := [0x08, 0x18, 0x09, 0x19, 0x0a, 0x1a, 0x0b, 0x1b, 0x0c, 0x1c, 0x0d, 0x1d, 0x0e, 0x1e, 0x0f,
      0x1f]

  lemma IndexVectors()
    ensures forall l :: 0 <= l < LANES ==> EVENS[l] == 2 * l
    ensures forall l :: 0 <= l < LANES ==> ODDS[l] == 2 * l + 1
    ensures forall l :: 0 <= l < LANES ==> LOWS[l] == l / 2 + LANES * (l % 2)
    ensures forall l :: 0 <= l < LANES ==> HIGHS[l] == LANES / 2 + l / 2 + LANES * (l % 2)
  {
  }

  /** Thirty-two consecutive elements as two vectors, sorted into even and odd ones. */
  lemma Sorted(row: seq<real>, at: nat)
    requires at + 2 * LANES <= |row|
    ensures Permute(Load(LANES, row, at), EVENS, Load(LANES, row, at + LANES))
      == seq(LANES, l requires 0 <= l < LANES => row[at + 2 * l])
    ensures Permute(Load(LANES, row, at), ODDS, Load(LANES, row, at + LANES))
      == seq(LANES, l requires 0 <= l < LANES => row[at + 2 * l + 1])
  {
    IndexVectors();
  }

  /** Weaving is the inverse of sorting: element 2l is lane l of the evens, element 2l + 1 of the odds. */
  lemma Woven(evens: Vec, odds: Vec, x: nat)
    requires x < 2 * LANES
    ensures (Permute(evens, LOWS, odds) + Permute(evens, HIGHS, odds))[x] == if x % 2 == 0 then evens[x / 2]
      else odds[x / 2]
  {
    IndexVectors();
    hide Permute;
    if x < LANES {
      PermuteAt(evens, LOWS, odds, x);
    } else {
      PermuteAt(evens, HIGHS, odds, x - LANES);
      assert x / 2 == LANES / 2 + (x - LANES) / 2 && x % 2 == (x - LANES) % 2;
    }
  }

  lemma PermuteAt(a: Vec, idx: seq<nat>, b: Vec, l: nat)
    requires |idx| == LANES && l < LANES
    ensures Permute(a, idx, b)[l] == if idx[l] < LANES then a[idx[l]] else if idx[l] < 2 * LANES then b[idx[l] - LANES]
      else 0.0
  {
  }

  // ---------- what a rotated head is ----------

  /** Column c of a head that starts at column "at" and whose elements 2t and 2t + 1 are paired; both use
      the table entry at 2t. */
  function PairRotated(row: seq<real>, at: nat, pcos: seq<real>, psin: seq<real>, c: int): real {
    var i := c - at;
    if i < 0 || c + 1 >= |row| + (i % 2) || i >= |pcos| || i >= |psin| then 0.0
    else if i % 2 == 0 then row[c] * pcos[i] - row[c + 1] * psin[i]
    else row[c - 1] * psin[i - 1] + row[c] * pcos[i - 1]
  }

  function RoundUp(n: nat, unit: nat): nat
    requires 0 < unit
  {
    (n + unit - 1) / unit * unit
  }

  /** The scalar form of the rotation: one pair after the other. */
  method RotatePairwise(buf: array2<real>, row: nat, at: nat, half: nat, pcos: seq<real>, psin: seq<real>)
    requires row < buf.Length0 && at + RoundUp(half, 2) <= buf.Length1 && RoundUp(half, 2) <= |pcos|
      && RoundUp(half, 2) <= |psin|
    modifies buf
    ensures forall r, c :: 0 <= r < buf.Length0 && 0 <= c < buf.Length1 ==>
      buf[r, c] == (if r == row && at <= c < at + RoundUp(half, 2)
        then PairRotated(old(RowOf(buf, row)), at, pcos, psin, c) else old(buf[r, c]))
  {
    hide PairRotated, RoundUp, RowOf;
    ghost var was := RowOf(buf, row);
    RoundUpIs(half);
    var i := 0;
    ghost var t := 0;
    while i < half
      invariant i == 2 * t && i <= RoundUp(half, 2)
      invariant forall r, c :: 0 <= r < buf.Length0 && 0 <= c < buf.Length1 ==>
        buf[r, c] == (if r == row && at <= c < at + i then PairRotated(was, at, pcos, psin, c) else old(buf[r, c]))
    {
      Arith.DivMod(t, 2, 0);
      RotatePair(buf, row, at, i, pcos, psin, was);
      i, t := i + 2, t + 1;
    }
  }

  method RotatePair(buf: array2<real>, row: nat, at: nat, i: nat, pcos: seq<real>, psin: seq<real>,
                    ghost was: seq<real>)
    requires row < buf.Length0 && at + i + 2 <= buf.Length1 && i + 2 <= |pcos| && i + 2 <= |psin| && i % 2 == 0
    requires |was| == buf.Length1 && buf[row, at + i] == was[at + i] && buf[row, at + i + 1] == was[at + i + 1]
    modifies buf
    ensures forall r, c :: 0 <= r < buf.Length0 && 0 <= c < buf.Length1 ==>
      buf[r, c] == (if r == row && at + i <= c < at + i + 2 then PairRotated(was, at, pcos, psin, c)
        else old(buf[r, c]))
  {
    hide PairRotated;
    var t1, t2 := buf[row, at + i], buf[row, at + i + 1];
    PairAt(was, at, pcos, psin, i, t1, t2);
    buf[row, at + i] := t1 * pcos[i] - t2 * psin[i];
    buf[row, at + i + 1] := t2 * pcos[i] + t1 * psin[i];
  }

  lemma PairAt(row: seq<real>, at: nat, pcos: seq<real>, psin: seq<real>, i: nat, t1: real, t2: real)
    requires at + i + 2 <= |row| && i + 2 <= |pcos| && i + 2 <= |psin| && i % 2 == 0 && t1 == row[at + i]
      && t2 == row[at + i + 1]
    ensures PairRotated(row, at, pcos, psin, at + i) == t1 * pcos[i] - t2 * psin[i]
    ensures PairRotated(row, at, pcos, psin, at + i + 1) == t2 * pcos[i] + t1 * psin[i]
  {
  }

  lemma RoundUpIs(n: nat)
    ensures RoundUp(n, 2) == n + n % 2
    ensures RoundUp(n, 32) == if n % 32 == 0 then n else n - n % 32 + 32
  {
    RoundUpParts(n / 2, n % 2, 2);
    RoundUpParts(n / 32, n % 32, 32);
  }

  lemma RoundUpParts(q: nat, r: nat, unit: nat)
    requires r < unit
    ensures RoundUp(q * unit + r, unit) == if r == 0 then q * unit else q * unit + unit
  {
    var x := q * unit + r + unit - 1;
    assert (q + 1) * unit == q * unit + unit by {
      Arith.Distribute(unit, q, 1);
      Arith.Swap(unit, q);
      Arith.Swap(unit, q + 1);
    }
    if r == 0 {
      Arith.DivMod(q, unit, unit - 1);
      assert x / unit == q;
    } else {
      Arith.DivMod(q + 1, unit, r - 1);
      assert x / unit == q + 1;
    }
  }

  lemma BlockCount(half: nat)
    ensures RoundUp(half, 32) == 32 * ((half + 31) / 32) && RoundUp(half, 32) % 2 == 0
    ensures half <= RoundUp(half, 32) < half + 32
  {
    RoundUpIs(half);
    EvenStart((half + 31) / 32);
  }

  lemma EvenStart(b: nat)
    ensures (32 * b) % 2 == 0
  {
    Arith.DivMod(16 * b, 2, 0);
  }

  /** The vector form, thirty-two elements at a time, without a tail mask. */
  method RotateVectorised(buf: array2<real>, row: nat, at: nat, half: nat, pcos: seq<real>, psin: seq<real>)
    requires row < buf.Length0 && at + RoundUp(half, 32) <= buf.Length1 && RoundUp(half, 32) <= |pcos|
      && RoundUp(half, 32) <= |psin|
    modifies buf
    ensures forall r, c :: 0 <= r < buf.Length0 && 0 <= c < buf.Length1 ==>
      buf[r, c] == (if r == row && at <= c < at + RoundUp(half, 32)
        then PairRotated(old(RowOf(buf, row)), at, pcos, psin, c) else old(buf[r, c]))
  {
    hide PairRotated, RowOf, RoundUp;
    ghost var was := RowOf(buf, row);
    BlockCount(half);
    ghost var blocks := (half + 31) / 32;
    var i := 0;
    ghost var b := 0;
    while i < half
      invariant i == 32 * b && b <= blocks
      invariant forall r, c :: 0 <= r < buf.Length0 && 0 <= c < buf.Length1 ==>
        buf[r, c] == (if r == row && at <= c < at + i then PairRotated(was, at, pcos, psin, c) else old(buf[r, c]))
    {
      EvenStart(b);
      RotateBlock(buf, row, at, i, pcos, psin, was);
      i, b := i + 32, b + 1;
    }
  }

  method RotateBlock(buf: array2<real>, row: nat, at: nat, i: nat, pcos: seq<real>, psin: seq<real>,
                     ghost was: seq<real>)
    requires row < buf.Length0 && at + i + 32 <= buf.Length1 && i + 32 <= |pcos| && i + 32 <= |psin| && i % 2 == 0
    requires |was| == buf.Length1 && forall c :: at + i <= c < buf.Length1 ==> buf[row, c] == was[c]
    modifies buf
    ensures forall r, c :: 0 <= r < buf.Length0 && 0 <= c < buf.Length1 ==>
      buf[r, c] == (if r == row && at + i <= c < at + i + 32 then PairRotated(was, at, pcos, psin, c)
        else old(buf[r, c]))
  {
    hide Load, Mul, Fmadd, Fmsub, PairRotated, RowOf, Permute;
    IndexVectors();
    ghost var now := RowOf(buf, row);
    var cosVec := Permute(Load(LANES, pcos, i), EVENS, Load(LANES, pcos, i + LANES));
    var sinVec := Permute(Load(LANES, psin, i), EVENS, Load(LANES, psin, i + LANES));
    var tmp0, tmp1 := Load(LANES, RowOf(buf, row), at + i), Load(LANES, RowOf(buf, row), at + i + LANES);
    var vec0, vec1 := Permute(tmp0, EVENS, tmp1), Permute(tmp0, ODDS, tmp1);
    var new0 := Fmsub(vec0, cosVec, Mul(vec1, sinVec));
    var new1 := Fmadd(vec0, sinVec, Mul(vec1, cosVec));
    var out0, out1 := Permute(new0, LOWS, new1), Permute(new0, HIGHS, new1);
    BlockRotates(now, was, at, i, pcos, psin, new0, new1, out0, out1);
    Store(buf, row, at + i, LANES, out0, false);
    Store(buf, row, at + i + LANES, LANES, out1, false);
  }

  lemma BlockRotates(now: seq<real>, was: seq<real>, at: nat, i: nat, pcos: seq<real>, psin: seq<real>, new0: Vec,
                     new1: Vec, out0: Vec, out1: Vec)
    requires |now| == |was| && at + i + 32 <= |now| && i + 32 <= |pcos| && i + 32 <= |psin| && i % 2 == 0
    requires forall c :: at + i <= c < at + i + 32 ==> now[c] == was[c]
    requires (var cosVec := Permute(Load(LANES, pcos, i), EVENS, Load(LANES, pcos, i + LANES));
              var sinVec := Permute(Load(LANES, psin, i), EVENS, Load(LANES, psin, i + LANES));
              var vec0 := Permute(Load(LANES, now, at + i), EVENS, Load(LANES, now, at + i + LANES));
              var vec1 := Permute(Load(LANES, now, at + i), ODDS, Load(LANES, now, at + i + LANES));
              new0 == Fmsub(vec0, cosVec, Mul(vec1, sinVec)) && new1 == Fmadd(vec0, sinVec, Mul(vec1, cosVec))
              && out0 == Permute(new0, LOWS, new1) && out1 == Permute(new0, HIGHS, new1))
    ensures forall c :: at + i <= c < at + i + LANES ==> out0[c - (at + i)] == PairRotated(was, at, pcos, psin, c)
    ensures forall c :: at + i + LANES <= c < at + i + LANES + LANES ==>
      out1[c - (at + i + LANES)] == PairRotated(was, at, pcos, psin, c)
  {
    hide Load, Permute, PairRotated;
    Sorted(pcos, i);
    Sorted(psin, i);
    Sorted(now, at + i);
    forall c | at + i <= c < at + i + LANES + LANES
      ensures (out0 + out1)[c - (at + i)] == PairRotated(was, at, pcos, psin, c)
    {
      var x := c - (at + i);
      Woven(new0, new1, x);
      PairIs(was, at, pcos, psin, i, x / 2, x % 2);
    }
    forall c | at + i <= c < at + i + LANES
      ensures out0[c - (at + i)] == PairRotated(was, at, pcos, psin, c)
    {
      assert (out0 + out1)[c - (at + i)] == out0[c - (at + i)];
    }
    forall c | at + i + LANES <= c < at + i + LANES + LANES
      ensures out1[c - (at + i + LANES)] == PairRotated(was, at, pcos, psin, c)
    {
      assert (out0 + out1)[c - (at + i)] == out1[c - (at + i + LANES)];
    }
  }

  lemma PairIs(row: seq<real>, at: nat, pcos: seq<real>, psin: seq<real>, i: nat, t: nat, odd: nat)
    requires at + i + 32 <= |row| && i + 32 <= |pcos| && i + 32 <= |psin| && i % 2 == 0 && t < LANES && odd < 2
    ensures var c := at + i + 2 * t;
      PairRotated(row, at, pcos, psin, c + odd) ==
        (if odd == 0 then row[c] * pcos[i + 2 * t] - row[c + 1] * psin[i + 2 * t]
          else row[c] * psin[i + 2 * t] + row[c + 1] * pcos[i + 2 * t])
  {
  }

  /** The vector kernel turns exactly the first half of the head if half is a multiple of 32; the two
      forms turn the same columns also when half is one less. */
  lemma VectorWidthIff(half: nat)
    ensures RoundUp(half, 32) == half <==> half % 32 == 0
    ensures RoundUp(half, 32) == RoundUp(half, 2) <==> half % 32 == 0 || half % 32 == 31
  {
    RoundUpIs(half);
    hide RoundUp;
    EvenOrOdd(half);
  }

  lemma EvenOrOdd(n: nat)
    ensures n % 2 == (n % 32) % 2
  {
    var q, r := n / 32, n % 32;
    assert n == 32 * q + r;
    assert n == (16 * q + r / 2) * 2 + r % 2;
    Arith.DivMod(16 * q + r / 2, 2, r % 2);
  }

  // ---------- all heads of all tokens ----------

  /** One call: the query heads and, right behind them, the key heads; the tables hold dim entries per position. */
  datatype GlmCall = GlmCall(base: nat, half: nat, qHeads: nat, kHeads: nat, embCos: seq<real>, embSin: seq<real>,
                             positionIds: seq<nat>)

  function Dim(c: GlmCall): nat {
    c.half * 2
  }

  /** How many columns of a head the vector kernel turns. */
  function Turns(c: GlmCall): (n: nat)
    ensures n % 2 == 0
  {
    BlockCount(c.half);
    RoundUp(c.half, 32)
  }

  /** Whole blocks of thirty-two stay inside the head exactly from sixteen pairs on. */
  lemma GlmHeadsApartIff(half: nat)
    requires 0 < half
    ensures RoundUp(half, 32) <= half * 2 <==> 16 <= half
  {
    RoundUpIs(half);
    hide RoundUp;
    if half < 32 {
      assert half % 32 == half;
    } else {
      assert half % 32 <= 31;
    }
  }

  ghost predicate GoodGlmCall(c: GlmCall, buf: array2<real>) {
    && 16 <= c.half
    && c.base + Width(c.qHeads + c.kHeads, Dim(c)) <= buf.Length1
    && |c.positionIds| <= buf.Length0
    && forall r :: 0 <= r < |c.positionIds| ==>
      InTable(c.embCos, c.positionIds[r], Dim(c)) && InTable(c.embSin, c.positionIds[r], Dim(c))
  }

  /** A cell of row r once the first n heads are rotated. */
  function GlmCellAfter(c: GlmCall, was: seq<real>, r: nat, n: nat, x: nat): real
    requires 0 < c.half && x < |was| && r < |c.positionIds|
    requires InTable(c.embCos, c.positionIds[r], Dim(c)) && InTable(c.embSin, c.positionIds[r], Dim(c))
  {
    if c.base <= x < c.base + Width(n, Dim(c)) then
      var at := HeadOf(c.base, Dim(c), x);
      if x < at + Turns(c)
        then PairRotated(was, at, Piece(c.embCos, c.positionIds[r], Dim(c)), Piece(c.embSin, c.positionIds[r], Dim(c)),
        x) else was[x]
    else was[x]
  }

  ghost predicate GlmRowAfter(c: GlmCall, buf: array2<real>, was: seq<real>, r: nat, n: nat)
    requires GoodGlmCall(c, buf) && r < |c.positionIds| && |was| == buf.Length1
    reads buf
  {
    forall x :: 0 <= x < buf.Length1 ==> buf[r, x] == GlmCellAfter(c, was, r, n, x)
  }

  lemma PairRotatedSame(was: seq<real>, now: seq<real>, at: nat, half: nat, pcos: seq<real>, psin: seq<real>, x: nat)
    requires |was| == |now| && at + half <= |was| && at <= x < at + half && half % 2 == 0 && half <= |pcos|
      && half <= |psin|
    requires forall y :: at <= y < at + half ==> was[y] == now[y]
    ensures PairRotated(was, at, pcos, psin, x) == PairRotated(now, at, pcos, psin, x)
  {
  }

  method RotateGlmHead(c: GlmCall, buf: array2<real>, r: nat, head: nat, ghost was: seq<real>)
    requires GoodGlmCall(c, buf) && r < |c.positionIds| && head < c.qHeads + c.kHeads && |was| == buf.Length1
    requires GlmRowAfter(c, buf, was, r, head)
    modifies buf
    ensures GlmRowAfter(c, buf, was, r, head + 1)
    ensures forall s, x :: 0 <= s < buf.Length0 && 0 <= x < buf.Length1 && s != r ==> buf[s, x] == old(buf[s, x])
  {
    hide Width, Piece, PairRotated, HeadAt, RoundUp, InTable, GlmCellAfter, HeadOf;
    GlmHeadsApartIff(c.half);
    var at := c.base + Width(head, Dim(c));
    WidthNext(head, Dim(c));
    WidthMono(head + 1, c.qHeads + c.kHeads, Dim(c));
    ghost var now := RowOf(buf, r);
    var pcos, psin := Piece(c.embCos, c.positionIds[r], Dim(c)), Piece(c.embSin, c.positionIds[r], Dim(c));
    RotateVectorised(buf, r, at, c.half, pcos, psin);
    forall x: nat | x < buf.Length1
      ensures buf[r, x] == GlmCellAfter(c, was, r, head + 1, x)
    {
      GlmCellStep(c, was, now, r, head, at, x);
    }
  }

  /** A cell one head later. */
  lemma GlmCellStep(c: GlmCall, was: seq<real>, now: seq<real>, r: nat, head: nat, at: nat, x: nat)
    requires 16 <= c.half && |was| == |now| && x < |was| && r < |c.positionIds|
    requires InTable(c.embCos, c.positionIds[r], Dim(c)) && InTable(c.embSin, c.positionIds[r], Dim(c))
    requires at == c.base + Width(head, Dim(c)) && at + Dim(c) <= |was|
    requires forall y: nat :: y < |was| ==> now[y] == GlmCellAfter(c, was, r, head, y)
    ensures GlmCellAfter(c, was, r, head + 1, x) ==
      if at <= x < at + Turns(c)
        then PairRotated(now, at, Piece(c.embCos, c.positionIds[r], Dim(c)), Piece(c.embSin, c.positionIds[r], Dim(c)),
        x) else now[x]
  {
    hide Width, Piece, PairRotated, HeadAt, InTable, RoundUp;
    GlmHeadsApartIff(c.half);
    WidthNext(head, Dim(c));
    assert now[x] == GlmCellAfter(c, was, r, head, x);
    if at <= x < at + Dim(c) {
      HeadAtIs(c.base, Dim(c), head, x);
      if x < at + Turns(c) {
        PairRotatedSame(was, now, at, Turns(c), Piece(c.embCos, c.positionIds[r], Dim(c)),
          Piece(c.embSin, c.positionIds[r], Dim(c)), x);
      }
    }
  }

  /** The first columns of every query and key head of every token, half a head rounded up to whole blocks,
      are rotated pairwise by the token's position, once; the others and everything else stay. */
  method ChatGlm2ApplyRotaryPosEmbed(c: GlmCall, buf: array2<real>)
    requires GoodGlmCall(c, buf)
    modifies buf
    ensures forall r: nat :: r < |c.positionIds| ==> GlmRowAfter(c, buf, old(Grid(buf))[r], r, c.qHeads + c.kHeads)
    ensures forall r, x :: |c.positionIds| <= r < buf.Length0 && 0 <= x < buf.Length1 ==> buf[r, x] == old(buf[r, x])
  {
    hide GlmCellAfter, Grid, Width, InTable;
    ghost var was := Grid(buf);
    NoGlmHeadRotated(c, buf, was);
    for head := 0 to c.qHeads + c.kHeads
      invariant forall r: nat :: r < |c.positionIds| ==> GlmRowAfter(c, buf, was[r], r, head)
      invariant forall r, x :: |c.positionIds| <= r < buf.Length0 && 0 <= x < buf.Length1 ==>
        buf[r, x] == old(buf[r, x])
    {
      for seqIdx := 0 to |c.positionIds|
        invariant forall r: nat :: r < seqIdx ==> GlmRowAfter(c, buf, was[r], r, head + 1)
        invariant forall r: nat :: seqIdx <= r < |c.positionIds| ==> GlmRowAfter(c, buf, was[r], r, head)
        invariant forall r, x :: |c.positionIds| <= r < buf.Length0 && 0 <= x < buf.Length1 ==>
          buf[r, x] == old(buf[r, x])
      {
        RotateGlmHead(c, buf, seqIdx, head, was[seqIdx]);
      }
    }
  }

  /** A head of a finished row written out: of its dim = 2 * half columns the first ceil(half / 32) * 32 are turned in
      neighbouring pairs, by the even entries of the position's row of the tables; the others stay. */
  lemma GlmRowWrittenOut(c: GlmCall, buf: array2<real>, was: seq<real>, r: nat, head: nat, i: nat)
    requires GoodGlmCall(c, buf) && r < |c.positionIds| && |was| == buf.Length1
    requires GlmRowAfter(c, buf, was, r, c.qHeads + c.kHeads)
    requires head < c.qHeads + c.kHeads && i < c.half * 2 && i % 2 == 0
    ensures 0 <= c.base + head * (c.half * 2) && c.base + head * (c.half * 2) + i + 1 < buf.Length1
    ensures var at, p := c.base + head * (c.half * 2) + i, c.positionIds[r] * (c.half * 2) + i;
      if i < (c.half + 31) / 32 * 32 then
        && 0 <= p < |c.embCos| && p < |c.embSin|
        && buf[r, at] == was[at] * c.embCos[p] - was[at + 1] * c.embSin[p]
        && buf[r, at + 1] == was[at] * c.embSin[p] + was[at + 1] * c.embCos[p]
      else buf[r, at] == was[at] && buf[r, at + 1] == was[at + 1]
  {
    hide PairRotated, HeadAt, Piece, InTable, Width, GlmCellAfter, RoundUp;
    BlockCount(c.half);
    EvenAndNext(c.half, i);
    var at := c.base + head * Dim(c);
    GlmCellIs(c, was, r, c.qHeads + c.kHeads, head, at, i);
    GlmCellIs(c, was, r, c.qHeads + c.kHeads, head, at, i + 1);
    if i < Turns(c) {
      GlmTurnedCells(c, was, r, at, i);
    }
  }

  lemma GlmCellIs(c: GlmCall, was: seq<real>, r: nat, heads: nat, head: nat, at: int, i: nat)
    requires 0 < c.half && r < |c.positionIds| && head < heads && i < Dim(c) && at == c.base + head * Dim(c)
    requires c.base + Width(heads, Dim(c)) <= |was|
    requires InTable(c.embCos, c.positionIds[r], Dim(c)) && InTable(c.embSin, c.positionIds[r], Dim(c))
    ensures c.base <= at && at + i < |was|
    ensures GlmCellAfter(c, was, r, heads, at + i) ==
      if i < Turns(c)
        then PairRotated(was, at, Piece(c.embCos, c.positionIds[r], Dim(c)), Piece(c.embSin, c.positionIds[r], Dim(c)),
                         at + i)
        else was[at + i]
  {
    hide PairRotated, HeadAt, Piece, InTable, Width, RoundUp;
    HeadColumns(c.base, Dim(c), head, heads, i);
  }

  lemma EvenAndNext(half: nat, i: nat)
    requires i % 2 == 0
    ensures i < half * 2 ==> i + 1 < half * 2
    ensures i < RoundUp(half, 32) ==> i + 1 < RoundUp(half, 32)
  {
    BlockCount(half);
  }

  lemma GlmTurnedCells(c: GlmCall, was: seq<real>, r: nat, at: nat, i: nat)
    requires r < |c.positionIds| && i + 1 < Dim(c) && i % 2 == 0 && at + i + 1 < |was|
    requires InTable(c.embCos, c.positionIds[r], Dim(c)) && InTable(c.embSin, c.positionIds[r], Dim(c))
    ensures var p := c.positionIds[r] * (c.half * 2) + i;
      var pcos, psin := Piece(c.embCos, c.positionIds[r], Dim(c)), Piece(c.embSin, c.positionIds[r], Dim(c));
      && 0 <= p < |c.embCos| && p < |c.embSin|
      && PairRotated(was, at, pcos, psin, at + i) == was[at + i] * c.embCos[p] - was[at + i + 1] * c.embSin[p]
      && PairRotated(was, at, pcos, psin, at + i + 1) == was[at + i] * c.embSin[p] + was[at + i + 1] * c.embCos[p]
  {
    Arith.MulMono(0, c.positionIds[r], Dim(c));
    PairAt(was, at, Piece(c.embCos, c.positionIds[r], Dim(c)), Piece(c.embSin, c.positionIds[r], Dim(c)), i,
      was[at + i],
      was[at + i + 1]);
  }

  lemma NoGlmHeadRotated(c: GlmCall, buf: array2<real>, was: Mat)
    requires GoodGlmCall(c, buf) && was == Grid(buf)
    ensures forall r: nat :: r < |c.positionIds| ==> GlmRowAfter(c, buf, was[r], r, 0)
  {
    WidthNext(0, Dim(c));
  }

  // ---------- only the distance matters here too ----------

  /** Pair t of a query head rotated to position m against pair t of a key head rotated to position n:
      only m - n enters, whatever frequency the pair has. */
  lemma PairScoreDependsOnDistance(q: seq<real>, qAt: nat, m: int, k: seq<real>, kAt: nat, n: int, half: nat,
                                   freq: real, t: nat, qCos: seq<real>, qSin: seq<real>, kCos: seq<real>,
                                   kSin: seq<real>, cos: real -> real, sin: real -> real)
    requires TrigLaws(cos, sin) && 2 * t + 1 < half && qAt + half <= |q| && kAt + half <= |k|
    requires half <= |qCos| && half <= |qSin| && half <= |kCos| && half <= |kSin|
    requires qCos[2 * t] == cos(Angle(m, freq)) && qSin[2 * t] == sin(Angle(m, freq))
    requires kCos[2 * t] == cos(Angle(n, freq)) && kSin[2 * t] == sin(Angle(n, freq))
    ensures PairRotated(q, qAt, qCos, qSin, qAt + 2 * t) * PairRotated(k, kAt, kCos, kSin, kAt + 2 * t)
      + PairRotated(q, qAt, qCos, qSin, qAt + 2 * t + 1) * PairRotated(k, kAt, kCos, kSin, kAt + 2 * t + 1)
      == AtDistance(q[qAt + 2 * t], q[qAt + 2 * t + 1], k[kAt + 2 * t], k[kAt + 2 * t + 1], cos(Angle(m - n, freq)),
        sin(Angle(m - n, freq)))
  {
    hide TrigLaws, PairRotated, AtDistance, Angle;
    var i := 2 * t;
    PairAt(q, qAt, qCos, qSin, i, q[qAt + i], q[qAt + i + 1]);
    PairAt(k, kAt, kCos, kSin, i, k[kAt + i], k[kAt + i + 1]);
    AngleDistance(m, n, freq);
    PairOfAngles(q[qAt + i], q[qAt + i + 1], k[kAt + i], k[kAt + i + 1], cos, sin, Angle(m, freq), Angle(n, freq), 1.0,
                 qCos[i], qSin[i], kCos[i], kSin[i],
                 PairRotated(q, qAt, qCos, qSin, qAt + i), PairRotated(q, qAt, qCos, qSin, qAt + i + 1),
                 PairRotated(k, kAt, kCos, kSin, kAt + i), PairRotated(k, kAt, kCos, kSin, kAt + i + 1));
    assert Squared(1.0) == 1.0;
  }

  // ---------- the tables ----------

  /** The frequencies of a head: the inverse frequencies, twice over. */
  function Doubled(invFreq: seq<real>): (f: seq<real>)
    ensures |f| == |invFreq| * 2
  {
    invFreq + invFreq
  }

  /** The tables hold a full head of entries per position, both halves alike. */
  ghost predicate GlmTablesRight(embCos: seq<real>, embSin: seq<real>, invFreq: seq<real>, positions: nat,
                                 cos: real -> real, sin: real -> real) {
    TablesRight(embCos, embSin, Doubled(invFreq), positions, cos, sin, 1.0)
  }

  /** glm2CalEmb: every value goes into both halves of its row. */
  method Glm2CalEmb(invFreq: seq<real>, positions: nat, cos: real -> real, sin: real -> real)
    returns (embCos: array<real>, embSin: array<real>)
    ensures fresh(embCos) && fresh(embSin)
    ensures GlmTablesRight(embCos[..], embSin[..], invFreq, positions, cos, sin)
  {
    hide Slot, TableEntry;
    var dim := |invFreq| * 2;
    Arith.MulMono(0, positions, dim);
    embCos, embSin := new real[positions * dim], new real[positions * dim];
    for i := 0 to positions
      invariant forall p: nat, j: nat :: p < i && j < dim ==>
        EntryRight(embCos[..], embSin[..], Doubled(invFreq), p, j, cos, sin)
    {
      FillGlmRow(embCos, embSin, invFreq, positions, i, cos, sin);
    }
    AllEntriesRight(embCos[..], embSin[..], invFreq, positions, cos, sin);
  }

  /** The tables written out: both halves of row i hold cosine and sine of i times each inverse frequency. */
  lemma GlmTablesWrittenOut(embCos: seq<real>, embSin: seq<real>, invFreq: seq<real>, positions: nat,
                            cos: real -> real, sin: real -> real, i: nat, j: nat, half: nat, angle: real)
    requires GlmTablesRight(embCos, embSin, invFreq, positions, cos, sin) && i < positions && j < |invFreq| && half < 2
    requires angle == i as real * invFreq[j]
    ensures var at := i * (|invFreq| * 2) + (half * |invFreq| + j);
      0 <= at < |embCos| == |embSin| && embCos[at] == cos(angle) && embSin[at] == sin(angle)
  {
    var freqs, x := Doubled(invFreq), half * |invFreq| + j;
    assert x == if half == 0 then j else |invFreq| + j;
    assert freqs[x] == invFreq[j] && i * |freqs| == i * (|invFreq| * 2);
    assert Slot(i, |freqs|, x) == i * |freqs| + x;
    assert Angle(i, freqs[x]) == angle;
    hide Slot, Angle, Doubled;
    assert embCos[Slot(i, |freqs|, x)] == TableEntry(cos, i, freqs[x], 1.0);
    assert embSin[Slot(i, |freqs|, x)] == TableEntry(sin, i, freqs[x], 1.0);
  }

  ghost predicate EntryRight(embCos: seq<real>, embSin: seq<real>, freqs: seq<real>, p: nat, j: nat, cos: real -> real,
                             sin: real -> real)
    requires j < |freqs|
  {
    && Slot(p, |freqs|, j) < |embCos| && Slot(p, |freqs|, j) < |embSin|
    && embCos[Slot(p, |freqs|, j)] == TableEntry(cos, p, freqs[j], 1.0)
      && embSin[Slot(p, |freqs|, j)] == TableEntry(sin, p, freqs[j], 1.0)
  }

  lemma AllEntriesRight(embCos: seq<real>, embSin: seq<real>, invFreq: seq<real>, positions: nat, cos: real -> real,
                        sin: real -> real)
    requires |embCos| == |embSin| == positions * (|invFreq| * 2)
    requires forall p: nat, j: nat :: p < positions && j < |invFreq| * 2 ==>
      EntryRight(embCos, embSin, Doubled(invFreq), p, j, cos, sin)
    ensures GlmTablesRight(embCos, embSin, invFreq, positions, cos, sin)
  {
    hide Slot, TableEntry, Doubled;
    var freqs := Doubled(invFreq);
    assert positions * |freqs| == positions * (|invFreq| * 2);
    forall p: nat, j: nat | p < positions && j < |freqs|
      ensures Slot(p, |freqs|, j) < |embCos| && embCos[Slot(p, |freqs|, j)] == TableEntry(cos, p, freqs[j], 1.0)
      ensures embSin[Slot(p, |freqs|, j)] == TableEntry(sin, p, freqs[j], 1.0)
    {
      assert EntryRight(embCos, embSin, Doubled(invFreq), p, j, cos, sin);
    }
  }

  method FillGlmRow(embCos: array<real>, embSin: array<real>, invFreq: seq<real>, positions: nat, i: nat,
                    cos: real -> real, sin: real -> real)
    requires embCos != embSin && embCos.Length == embSin.Length == positions * (|invFreq| * 2) && i < positions
    modifies embCos, embSin
    ensures forall j: nat :: j < |invFreq| * 2 ==> EntryRight(embCos[..], embSin[..], Doubled(invFreq), i, j, cos, sin)
    ensures forall p: nat, j: nat ::
      p != i && j < |invFreq| * 2 && old(EntryRight(embCos[..], embSin[..], Doubled(invFreq), p, j, cos, sin)) ==>
      EntryRight(embCos[..], embSin[..], Doubled(invFreq), p, j, cos, sin)
  {
    hide Slot, TableEntry;
    var n, dim := |invFreq|, |invFreq| * 2;
    for j := 0 to n
      invariant forall l: nat :: l < dim && (l < j || n <= l < n + j) ==>
        EntryRight(embCos[..], embSin[..], Doubled(invFreq), i, l, cos, sin)
      invariant forall p: nat, l: nat ::
        p != i && l < dim && old(EntryRight(embCos[..], embSin[..], Doubled(invFreq), p, l, cos, sin)) ==>
        EntryRight(embCos[..], embSin[..], Doubled(invFreq), p, l, cos, sin)
    {
      PutEntry(embCos, embSin, invFreq, positions, i, j, invFreq[j], cos, sin);
      PutEntry(embCos, embSin, invFreq, positions, i, j + n, invFreq[j], cos, sin);
    }
  }

  method PutEntry(embCos: array<real>, embSin: array<real>, invFreq: seq<real>, positions: nat, i: nat, j: nat,
                  freq: real, cos: real -> real, sin: real -> real)
    requires embCos != embSin && embCos.Length == embSin.Length == positions * (|invFreq| * 2) && i < positions
    requires j < |invFreq| * 2 && freq == Doubled(invFreq)[j]
    modifies embCos, embSin
    ensures EntryRight(embCos[..], embSin[..], Doubled(invFreq), i, j, cos, sin)
    ensures forall p: nat, l: nat ::
      l < |invFreq| * 2 && (p, l) != (i, j)
      && old(EntryRight(embCos[..], embSin[..], Doubled(invFreq), p, l, cos, sin)) ==>
      EntryRight(embCos[..], embSin[..], Doubled(invFreq), p, l, cos, sin)
  {
    hide Slot, TableEntry, Doubled;
    var dim := |invFreq| * 2;
    SlotInside(i, dim, j, positions);
    forall p: nat, l: nat | l < dim && (p, l) != (i, j)
      ensures Slot(p, dim, l) != Slot(i, dim, j)
    {
      SlotsApart(p, l, i, j, dim);
    }
    embCos[Slot(i, dim, j)] := TableEntry(cos, i, freq, 1.0);
    embSin[Slot(i, dim, j)] := TableEntry(sin, i, freq, 1.0);
  }

  lemma GlmEntries(embCos: seq<real>, embSin: seq<real>, invFreq: seq<real>, positions: nat, cos: real -> real,
                   sin: real -> real, pos: nat, j: nat)
    requires GlmTablesRight(embCos, embSin, invFreq, positions, cos, sin) && pos < positions && j < |invFreq| * 2
    ensures InTable(embCos, pos, |invFreq| * 2) && InTable(embSin, pos, |invFreq| * 2)
    ensures Piece(embCos, pos, |invFreq| * 2)[j] == cos(Angle(pos, Doubled(invFreq)[j]))
    ensures Piece(embSin, pos, |invFreq| * 2)[j] == sin(Angle(pos, Doubled(invFreq)[j]))
  {
    hide TablesRight, Doubled, InTable, Piece, Angle;
    EntriesOf(embCos, embSin, Doubled(invFreq), positions, cos, sin, 1.0, pos, j);
  }

  /** Both elements of pair t, rotated query times rotated key. */
  function PairScore(q: seq<real>, qAt: nat, qCos: seq<real>, qSin: seq<real>, k: seq<real>, kAt: nat, kCos: seq<real>,
                     kSin: seq<real>, t: int): real {
    PairRotated(q, qAt, qCos, qSin, qAt + 2 * t) * PairRotated(k, kAt, kCos, kSin, kAt + 2 * t)
    + PairRotated(q, qAt, qCos, qSin, qAt + 2 * t + 1) * PairRotated(k, kAt, kCos, kSin, kAt + 2 * t + 1)
  }

  function PairScores(q: seq<real>, qAt: nat, qCos: seq<real>, qSin: seq<real>, k: seq<real>, kAt: nat,
                      kCos: seq<real>, kSin: seq<real>): int -> real {
    t => PairScore(q, qAt, qCos, qSin, k, kAt, kCos, kSin, t)
  }

  function PairAtDistance(q: seq<real>, qAt: nat, k: seq<real>, kAt: nat, freqs: seq<real>, cos: real -> real,
                          sin: real -> real, d: int, t: int): real {
    if 0 <= t && 2 * t + 1 < |freqs| && qAt + 2 * t + 1 < |q| && kAt + 2 * t + 1 < |k| then
      AtDistance(q[qAt + 2 * t], q[qAt + 2 * t + 1], k[kAt + 2 * t], k[kAt + 2 * t + 1], cos(Angle(d, freqs[2 * t])),
        sin(Angle(d, freqs[2 * t])))
    else 0.0
  }

  function PairsAtDistance(q: seq<real>, qAt: nat, k: seq<real>, kAt: nat, freqs: seq<real>, cos: real -> real,
                           sin: real -> real, d: int): int -> real {
    t => PairAtDistance(q, qAt, k, kAt, freqs, cos, sin, d, t)
  }

  /** The turned pairs of a query head at position m and of a key head at position n, however many are
      turned: their product is a function of the two heads and of m - n alone. */
  lemma GlmScoreDependsOnDistance(q: seq<real>, qAt: nat, m: nat, k: seq<real>, kAt: nat, n: nat, invFreq: seq<real>,
                                  embCos: seq<real>, embSin: seq<real>, positions: nat, cos: real -> real,
                                  sin: real -> real, pairs: nat)
    requires TrigLaws(cos, sin) && GlmTablesRight(embCos, embSin, invFreq, positions, cos, sin) && m < positions
      && n < positions
    requires 0 < pairs && 2 * pairs <= |invFreq| * 2 && qAt + |invFreq| * 2 <= |q| && kAt + |invFreq| * 2 <= |k|
    ensures InTable(embCos, m, |invFreq| * 2) && InTable(embSin, m, |invFreq| * 2)
    ensures InTable(embCos, n, |invFreq| * 2) && InTable(embSin, n, |invFreq| * 2)
    ensures Sum(PairScores(q, qAt, Piece(embCos, m, |invFreq| * 2), Piece(embSin, m, |invFreq| * 2),
                           k, kAt, Piece(embCos, n, |invFreq| * 2), Piece(embSin, n, |invFreq| * 2)), 0, pairs)
      == Sum(PairsAtDistance(q, qAt, k, kAt, Doubled(invFreq), cos, sin, m - n), 0, pairs)
  {
    hide TrigLaws, GlmTablesRight, Sum, InTable, Piece, PairRotated, AtDistance, Angle, Doubled;
    GlmEntries(embCos, embSin, invFreq, positions, cos, sin, m, 0);
    GlmEntries(embCos, embSin, invFreq, positions, cos, sin, n, 0);
    var dim, freqs := |invFreq| * 2, Doubled(invFreq);
    var qCos, qSin, kCos, kSin :=
      Piece(embCos, m, dim), Piece(embSin, m, dim), Piece(embCos, n, dim), Piece(embSin, n, dim);
    forall t: nat | t < pairs
      ensures PairScore(q, qAt, qCos, qSin, k, kAt, kCos, kSin, t)
        == PairAtDistance(q, qAt, k, kAt, freqs, cos, sin, m - n, t)
    {
      GlmEntries(embCos, embSin, invFreq, positions, cos, sin, m, 2 * t);
      GlmEntries(embCos, embSin, invFreq, positions, cos, sin, n, 2 * t);
      PairScoreDependsOnDistance(q, qAt, m, k, kAt, n, dim, freqs[2 * t], t, qCos, qSin, kCos, kSin, cos, sin);
    }
    SumExt(PairScores(q, qAt, qCos, qSin, k, kAt, kCos, kSin), PairsAtDistance(q, qAt, k, kAt, freqs, cos, sin, m - n),
      0, pairs);
  }
}
