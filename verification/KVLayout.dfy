/** The two address layouts of the KV cache tensor, and why distinct vectors never share an element. */
module KVLayout {
  import Arith

  datatype Shape = Shape(maxSeqLen: nat, batchSize: nat, headNum: nat, headSize: nat) {
    function Size(): nat {
      maxSeqLen * batchSize * headNum * headSize
    }

    function ScaleCount(): nat {
      maxSeqLen * batchSize * headNum
    }
  }

  /** One (token position, batch, head) vector of the tensor. */
  datatype Vec = Vec(seqIdx: nat, batchIdx: nat, headIdx: nat)

  predicate InShape(sh: Shape, v: Vec) {
    v.seqIdx < sh.maxSeqLen && v.batchIdx < sh.batchSize && v.headIdx < sh.headNum
  }

  /** getSequence: the offset of a vector, [batch, head, seq, size] when kvTrans, else [seq, batch, head, size]. */
  function SequenceAddr(kvTrans: bool, sh: Shape, v: Vec): int {
    if kvTrans then
      v.batchIdx * sh.headNum * sh.maxSeqLen * sh.headSize + v.headIdx * sh.maxSeqLen * sh.headSize
        + v.seqIdx * sh.headSize
    else
      v.seqIdx * sh.batchSize * sh.headNum * sh.headSize + v.batchIdx * sh.headNum * sh.headSize
        + v.headIdx * sh.headSize
  }

  /** The slot of a vector's scale factor, always [batch, head, seq]. */
  function ScaleSlot(sh: Shape, v: Vec): nat {
    v.batchIdx * sh.headNum * sh.maxSeqLen + v.headIdx * sh.maxSeqLen + v.seqIdx
  }

  /** getHead: where a head starts ... */
  function HeadAddr(kvTrans: bool, sh: Shape, b: nat, h: nat): nat {
    if kvTrans then b * sh.headNum * sh.maxSeqLen * sh.headSize + h * sh.maxSeqLen * sh.headSize
    else b * sh.headNum * sh.headSize + h * sh.headSize
  }

  /** ... and how far apart its rows are. */
  function HeadStride(kvTrans: bool, sh: Shape): nat {
    if kvTrans then sh.headSize else sh.batchSize * sh.headNum * sh.headSize
  }

  // ---------- mixed-radix numbers ----------

  function Rank3(a: nat, b: nat, c: nat, nb: nat, nc: nat): nat {
    (a * nb + b) * nc + c
  }

  lemma Rank3Unique(a: nat, b: nat, c: nat, a': nat, b': nat, c': nat, nb: nat, nc: nat)
    requires b < nb && b' < nb && c < nc && c' < nc
    requires Rank3(a, b, c, nb, nc) == Rank3(a', b', c', nb, nc)
    ensures a == a' && b == b' && c == c'
  {
    Arith.CellUnique(a * nb + b, c, a' * nb + b', c', nc);
    Arith.CellUnique(a, b, a', b', nb);
  }

  lemma Rank3InRange(a: nat, b: nat, c: nat, na: nat, nb: nat, nc: nat)
    requires a < na && b < nb && c < nc
    ensures Rank3(a, b, c, nb, nc) < na * nb * nc
  {
    Arith.CellInRange(a, b, na, nb);
    Arith.CellInRange(a * nb + b, c, na * nb, nc);
  }

  lemma Rank3Onto(x: nat, na: nat, nb: nat, nc: nat) returns (a: nat, b: nat, c: nat)
    requires x < na * nb * nc
    ensures a < na && b < nb && c < nc && Rank3(a, b, c, nb, nc) == x
  {
    Arith.Factors(na * nb, nc);
    Arith.Factors(na, nb);
    Arith.DivBounds(x, nc, na * nb);
    Arith.DivBounds(x / nc, nb, na);
    a, b, c := x / nc / nb, x / nc % nb, x % nc;
  }

  /** The number of a vector in address order. */
  function VecRank(kvTrans: bool, sh: Shape, v: Vec): nat {
    if kvTrans then Rank3(v.batchIdx, v.headIdx, v.seqIdx, sh.headNum, sh.maxSeqLen)
    else Rank3(v.seqIdx, v.batchIdx, v.headIdx, sh.batchSize, sh.headNum)
  }

  lemma Product3(a: nat, b: nat, c: nat, d: nat, nb: nat, nc: nat)
    ensures a * nb * nc * d + b * nc * d + c * d == Rank3(a, b, c, nb, nc) * d
    ensures a * nb * nc + b * nc + c == Rank3(a, b, c, nb, nc)
  {
    assert (a * nb + b) * nc == a * nb * nc + b * nc;
    assert ((a * nb + b) * nc + c) * d == (a * nb * nc + b * nc) * d + c * d;
    assert (a * nb * nc + b * nc) * d == a * nb * nc * d + b * nc * d;
  }

  lemma AddrIsRank(kvTrans: bool, sh: Shape, v: Vec)
    ensures SequenceAddr(kvTrans, sh, v) == VecRank(kvTrans, sh, v) * sh.headSize
  {
    if kvTrans {
      Product3(v.batchIdx, v.headIdx, v.seqIdx, sh.headSize, sh.headNum, sh.maxSeqLen);
    } else {
      Product3(v.seqIdx, v.batchIdx, v.headIdx, sh.headSize, sh.batchSize, sh.headNum);
    }
  }

  lemma Reassociate(s: nat, b: nat, h: nat)
    ensures b * h * s == s * b * h
  {
    assert b * h * s == s * (b * h);
  }

  /** Both layouts number the vectors of a shape 0, 1, ..., without gap. */
  lemma RankInRange(kvTrans: bool, sh: Shape, v: Vec)
    requires InShape(sh, v)
    ensures VecRank(kvTrans, sh, v) < sh.ScaleCount()
  {
    Reassociate(sh.maxSeqLen, sh.batchSize, sh.headNum);
    if kvTrans {
      Rank3InRange(v.batchIdx, v.headIdx, v.seqIdx, sh.batchSize, sh.headNum, sh.maxSeqLen);
    } else {
      Rank3InRange(v.seqIdx, v.batchIdx, v.headIdx, sh.maxSeqLen, sh.batchSize, sh.headNum);
    }
  }

  lemma RankUnique(kvTrans: bool, sh: Shape, v: Vec, w: Vec)
    requires InShape(sh, v) && InShape(sh, w)
    requires VecRank(kvTrans, sh, v) == VecRank(kvTrans, sh, w)
    ensures v == w
  {
    if kvTrans {
      Rank3Unique(v.batchIdx, v.headIdx, v.seqIdx, w.batchIdx, w.headIdx, w.seqIdx, sh.headNum, sh.maxSeqLen);
    } else {
      Rank3Unique(v.seqIdx, v.batchIdx, v.headIdx, w.seqIdx, w.batchIdx, w.headIdx, sh.batchSize, sh.headNum);
    }
  }

  lemma RankOnto(kvTrans: bool, sh: Shape, x: nat) returns (v: Vec)
    requires x < sh.ScaleCount()
    ensures InShape(sh, v) && VecRank(kvTrans, sh, v) == x
  {
    Reassociate(sh.maxSeqLen, sh.batchSize, sh.headNum);
    if kvTrans {
      var b, h, s := Rank3Onto(x, sh.batchSize, sh.headNum, sh.maxSeqLen);
      v := Vec(s, b, h);
    } else {
      var s, b, h := Rank3Onto(x, sh.maxSeqLen, sh.batchSize, sh.headNum);
      v := Vec(s, b, h);
    }
  }

  /** Distinct vectors own disjoint runs of headSize elements, all inside the allocated size. */
  lemma VectorsDisjoint(kvTrans: bool, sh: Shape, v: Vec, w: Vec)
    requires InShape(sh, v) && InShape(sh, w)
    ensures 0 <= SequenceAddr(kvTrans, sh, v) <= SequenceAddr(kvTrans, sh, v) + sh.headSize <= sh.Size()
    ensures v != w ==>
      || SequenceAddr(kvTrans, sh, v) + sh.headSize <= SequenceAddr(kvTrans, sh, w)
      || SequenceAddr(kvTrans, sh, w) + sh.headSize <= SequenceAddr(kvTrans, sh, v)
  {
    hide SequenceAddr, VecRank, InShape;
    AddrIsRank(kvTrans, sh, v);
    AddrIsRank(kvTrans, sh, w);
    RankInRange(kvTrans, sh, v);
    RunsApart(VecRank(kvTrans, sh, v), VecRank(kvTrans, sh, w), sh.ScaleCount(), sh.headSize);
    if v != w && VecRank(kvTrans, sh, v) == VecRank(kvTrans, sh, w) {
      RankUnique(kvTrans, sh, v, w);
    }
  }

  lemma RunsApart(p: nat, q: nat, n: nat, d: nat)
    requires p < n
    ensures 0 <= p * d <= p * d + d <= n * d
    ensures p < q ==> p * d + d <= q * d
    ensures q < p ==> q * d + d <= p * d
  {
    Arith.MulMono(p + 1, n, d);
    Arith.MulMono(0, p, d);
    if p < q {
      Arith.MulMono(p + 1, q, d);
    } else if q < p {
      Arith.MulMono(q + 1, p, d);
    }
  }

  /** Every element of the tensor belongs to a vector (to one only, by VectorsDisjoint). */
  lemma EveryElementIsOwned(kvTrans: bool, sh: Shape, x: nat) returns (v: Vec, e: nat)
    requires x < sh.Size()
    ensures InShape(sh, v) && e < sh.headSize && SequenceAddr(kvTrans, sh, v) + e == x
  {
    Arith.Factors(sh.ScaleCount(), sh.headSize);
    Arith.DivBounds(x, sh.headSize, sh.ScaleCount());
    v := RankOnto(kvTrans, sh, x / sh.headSize);
    e := x % sh.headSize;
    AddrIsRank(kvTrans, sh, v);
  }

  /** Walking a head row by row meets exactly the vectors getSequence names. */
  lemma HeadWalk(kvTrans: bool, sh: Shape, v: Vec)
    ensures HeadAddr(kvTrans, sh, v.batchIdx, v.headIdx) + v.seqIdx * HeadStride(kvTrans, sh)
      == SequenceAddr(kvTrans, sh, v)
  {
    if !kvTrans {
      var p := sh.batchSize * sh.headNum;
      assert v.seqIdx * (p * sh.headSize) == v.seqIdx * p * sh.headSize;
      assert v.seqIdx * p == v.seqIdx * sh.batchSize * sh.headNum;
    }
  }

  /** Scale slots: one per vector, in range, none shared. */
  lemma ScaleSlotsDistinct(sh: Shape, v: Vec, w: Vec)
    requires InShape(sh, v) && InShape(sh, w)
    ensures ScaleSlot(sh, v) < sh.ScaleCount()
    ensures ScaleSlot(sh, v) == ScaleSlot(sh, w) ==> v == w
  {
    Product3(v.batchIdx, v.headIdx, v.seqIdx, 1, sh.headNum, sh.maxSeqLen);
    Product3(w.batchIdx, w.headIdx, w.seqIdx, 1, sh.headNum, sh.maxSeqLen);
    RankInRange(true, sh, v);
    if ScaleSlot(sh, v) == ScaleSlot(sh, w) {
      RankUnique(true, sh, v, w);
    }
  }

  /** Broadcasting a row copies the headNum scale factors from the slot of head 0 onwards.  Those are
      the row's own scale factors exactly when there is one head or one token position. */
  lemma ScaleRunIsTheRow(sh: Shape, seqIdx: nat, batchIdx: nat)
    requires seqIdx < sh.maxSeqLen && batchIdx < sh.batchSize && 0 < sh.headNum
    ensures (forall h: nat :: h < sh.headNum ==>
      ScaleSlot(sh, Vec(seqIdx, batchIdx, h)) == ScaleSlot(sh, Vec(seqIdx, batchIdx, 0)) + h)
      <==> sh.headNum == 1 || sh.maxSeqLen == 1
  {
    if sh.headNum > 1 && sh.maxSeqLen > 1 {
      assert ScaleSlot(sh, Vec(seqIdx, batchIdx, 1)) == ScaleSlot(sh, Vec(seqIdx, batchIdx, 0)) + sh.maxSeqLen;
    }
  }

  /** Row b of a token position, all heads together, is row seq * batchSize + b of a matrix of
      headNum * headSize columns; this is the address expandOneSequence and reorder work with. */
  lemma RowAddr(sh: Shape, seqIdx: nat, batchIdx: nat)
    ensures SequenceAddr(false, sh, Vec(seqIdx, batchIdx, 0))
      == (seqIdx * sh.batchSize + batchIdx) * (sh.headNum * sh.headSize)
    ensures sh.Size() == (sh.maxSeqLen * sh.batchSize) * (sh.headNum * sh.headSize)
  {
    var cols := sh.headNum * sh.headSize;
    assert seqIdx * sh.batchSize * sh.headNum * sh.headSize == (seqIdx * sh.batchSize) * cols;
    assert batchIdx * sh.headNum * sh.headSize == batchIdx * cols;
    assert (seqIdx * sh.batchSize + batchIdx) * cols == (seqIdx * sh.batchSize) * cols + batchIdx * cols;
    assert sh.maxSeqLen * sh.batchSize * sh.headNum * sh.headSize == (sh.maxSeqLen * sh.batchSize) * cols;
  }

  /** Where the neighbours of a vector are: the layout with kvTrans has tokens next to each other, then heads,
      then samples; the other one heads, then samples, then tokens; the scale factors always the first order. */
  lemma Neighbours(sh: Shape, s: nat, b: nat, h: nat)
    ensures SequenceAddr(true, sh, Vec(0, 0, 0)) == 0 && SequenceAddr(false, sh, Vec(0, 0, 0)) == 0
    ensures var slot := ScaleSlot(sh, Vec(s, b, h));
      && ScaleSlot(sh, Vec(0, 0, 0)) == 0 && ScaleSlot(sh, Vec(s + 1, b, h)) == slot + 1
      && ScaleSlot(sh, Vec(s, b, h + 1)) == slot + sh.maxSeqLen
      && ScaleSlot(sh, Vec(s, b + 1, h)) == slot + sh.headNum * sh.maxSeqLen
    ensures var at := SequenceAddr(true, sh, Vec(s, b, h));
      && SequenceAddr(true, sh, Vec(s + 1, b, h)) == at + sh.headSize
      && SequenceAddr(true, sh, Vec(s, b, h + 1)) == at + sh.maxSeqLen * sh.headSize
      && SequenceAddr(true, sh, Vec(s, b + 1, h)) == at + sh.headNum * (sh.maxSeqLen * sh.headSize)
    ensures var at := SequenceAddr(false, sh, Vec(s, b, h));
      && SequenceAddr(false, sh, Vec(s, b, h + 1)) == at + sh.headSize
      && SequenceAddr(false, sh, Vec(s, b + 1, h)) == at + sh.headNum * sh.headSize
      && SequenceAddr(false, sh, Vec(s + 1, b, h)) == at + sh.batchSize * (sh.headNum * sh.headSize)
  {
    Multiple(s, sh.headSize);
    Multiple2(h, sh.maxSeqLen, sh.headSize);
    Multiple3(b, sh.headNum, sh.maxSeqLen, sh.headSize);
    Multiple(h, sh.headSize);
    Multiple2(b, sh.headNum, sh.headSize);
    Multiple3(s, sh.batchSize, sh.headNum, sh.headSize);
    Multiple(h, sh.maxSeqLen);
    Multiple2(b, sh.headNum, sh.maxSeqLen);
  }

  lemma Multiple(k: nat, x: nat)
    ensures (k + 1) * x == k * x + x && 0 * x == 0
  {
  }

  lemma Multiple2(k: nat, x: nat, y: nat)
    ensures (k + 1) * x * y == k * x * y + x * y && 0 * x * y == 0
  {
  }

  lemma Multiple3(k: nat, x: nat, y: nat, z: nat)
    ensures (k + 1) * x * y * z == k * x * y * z + x * (y * z) && 0 * x * y * z == 0
  {
    Multiple2(k, x, y);
    assert (k * x * y + x * y) * z == k * x * y * z + x * y * z;
  }
}
