/** Cross attention with one task per (batch, head): the first head of a group stores the new keys and
    values into the shared cache, the other heads of the group never look at those rows and use the
    raw keys and values instead, in two products.  There is no synchronisation between tasks.  One step
    is one access to a shared row; tasks take steps in any interleaving. */
module CrossAttention {
  import opened HeadGroups
  import opened Sums
  import Sharded = ShardedAttention
  import SelfAttention
  import Arith

  type Row = seq<real>

  /** Row s of a kv head of a sample: of the cache, or of the new tokens. */
  datatype Slot = Slot(b: nat, kv: nat, s: nat)

  type Cache = Slot -> Row

  datatype Head = Head(b: nat, i: nat)

  /** One call: what it reads and what the caches hold when it starts.  "store" is the conversion a row
      goes through on its way into the cache. */
  datatype Call = Call(past: seq<nat>, input: seq<nat>, qHeadNum: nat, kvHeadNum: nat, headSize: nat,
                       query: (Head, nat) -> Row, key: Slot -> Row, value: Slot -> Row, oldK: Cache, oldV: Cache,
                       store: Row -> Row, scale: real, slope: nat -> real, exp: real -> real)

  predicate Sized(c: Call) {
    |c.past| == |c.input| && Grouped(c.qHeadNum, c.kvHeadNum)
  }

  /** The exponential is one, and every row has the head size. */
  ghost predicate Regular(c: Call) {
    && Sharded.ExpLaws(c.exp)
    && (forall h, r :: |c.query(h, r)| == c.headSize)
    && (forall slot :: |c.key(slot)| == |c.value(slot)| == |c.oldK(slot)| == |c.oldV(slot)| == c.headSize)
    && (forall row :: |c.store(row)| == |row|)
  }

  ghost predicate Good(c: Call) {
    Sized(c) && Regular(c)
  }

  function GroupNum(c: Call): (g: nat)
    requires Grouped(c.qHeadNum, c.kvHeadNum)
    ensures 0 < g && g * c.kvHeadNum == c.qHeadNum
  {
    GroupSize(c.qHeadNum, c.kvHeadNum)
  }

  predicate InCall(c: Call, h: Head) {
    h.b < |c.past| && h.i < c.qHeadNum
  }

  function Kv(c: Call, i: nat): (kv: nat)
    requires Sized(c) && i < c.qHeadNum
    ensures kv < c.kvHeadNum && kv == i / GroupNum(c)
  {
    KvHeadOf(c.qHeadNum, c.kvHeadNum, i)
  }

  /** The head stores the new rows of its group. */
  predicate Copies(c: Call, i: nat)
    requires Sized(c)
  {
    i % GroupNum(c) == 0
  }

  /** The head that stores for a kv head; there is exactly one. */
  function Copier(c: Call, b: nat, kv: nat): (h: Head)
    requires Sized(c) && kv < c.kvHeadNum
    ensures h.b == b && h.i < c.qHeadNum
  {
    Arith.CellInRange(kv, 0, c.kvHeadNum, GroupNum(c));
    Arith.Swap(GroupNum(c), c.kvHeadNum);
    Head(b, kv * GroupNum(c))
  }

  lemma CopierIsUnique(c: Call, b: nat, i: nat, kv: nat)
    requires Sized(c) && i < c.qHeadNum && kv < c.kvHeadNum
    ensures Copies(c, i) && Kv(c, i) == kv <==> Head(b, i) == Copier(c, b, kv)
  {
    var g := GroupNum(c);
    Arith.DivMod(kv, g, 0);
    Arith.Swap(g, i / g);
    assert i == g * (i / g) + i % g;
  }

  // ---------- what the caches must hold in the end ----------

  predicate IsNew(c: Call, slot: Slot)
    requires Sized(c)
  {
    slot.b < |c.past| && slot.kv < c.kvHeadNum && c.past[slot.b] <= slot.s < c.past[slot.b] + c.input[slot.b]
  }

  /** The same row among the new tokens. */
  function Raw(c: Call, slot: Slot): Slot
    requires Sized(c) && IsNew(c, slot)
  {
    Slot(slot.b, slot.kv, slot.s - c.past[slot.b])
  }

  function FinalK(c: Call, slot: Slot): Row
    requires Sized(c)
  {
    if IsNew(c, slot) then c.store(c.key(Raw(c, slot))) else c.oldK(slot)
  }

  function FinalV(c: Call, slot: Slot): Row
    requires Sized(c)
  {
    if IsNew(c, slot) then c.store(c.value(Raw(c, slot))) else c.oldV(slot)
  }

  function KeyLen(c: Call, h: Head): nat
    requires Sized(c) && InCall(c, h)
  {
    c.past[h.b] + c.input[h.b]
  }

  function SlotOf(c: Call, h: Head, j: nat): Slot
    requires Sized(c) && InCall(c, h)
  {
    Slot(h.b, Kv(c, h.i), j)
  }

  /** The key a head works with at position j: the cached row, or the raw one if the head does not copy. */
  function SeenKey(c: Call, h: Head, j: nat): Row
    requires Sized(c) && InCall(c, h) && j < KeyLen(c, h)
  {
    if j < c.past[h.b] || Copies(c, h.i) then FinalK(c, SlotOf(c, h, j)) else c.key(Raw(c, SlotOf(c, h, j)))
  }

  function SeenValue(c: Call, h: Head, j: nat): Row
    requires Sized(c) && InCall(c, h) && j < KeyLen(c, h)
  {
    if j < c.past[h.b] || Copies(c, h.i) then FinalV(c, SlotOf(c, h, j)) else c.value(Raw(c, SlotOf(c, h, j)))
  }

  // ---------- the tasks ----------

  /** Store new keys, score all keys, softmax, store new values, mix all values. */
  datatype Pc = StoreK(n: nat) | Score(n: nat) | Soft | StoreV(n: nat) | Mix(n: nat) | Done

  /** A task's private buffers: score columns, one per key; weight rows and output rows, one per query row. */
  datatype Local = Local(pc: Pc, scores: seq<Row>, weights: seq<Row>, acc: seq<Row>)

  datatype State = State(k: Cache, v: Cache, locals: Head -> Local)

  function KeyColumn(c: Call, h: Head, row: Row): Row
    requires InCall(c, h) && |c.past| == |c.input|
  {
    seq(c.input[h.b], r requires 0 <= r < c.input[h.b] => Sum(Sharded.DotTerm(c.query(h, r), row), 0, c.headSize))
  }

  /** Scaled and biased score of row r, read from the score columns. */
  function ReadScore(c: Call, h: Head, scores: seq<Row>, r: nat): int -> real {
    j => if 0 <= j < |scores| && r < |scores[j]| then scores[j][r] * c.scale + SelfAttention.Bias(c.slope(h.i), j)
      else 0.0
  }

  /** Softmax of each row over the keys up to its own position, zero beyond. */
  function WeightRows(c: Call, h: Head, scores: seq<Row>): (w: seq<Row>)
    requires Good(c) && InCall(c, h)
    ensures |w| == c.input[h.b] && forall r :: 0 <= r < |w| ==> |w[r]| == KeyLen(c, h)
  {
    seq(c.input[h.b], r requires 0 <= r < c.input[h.b] =>
      seq(KeyLen(c, h), j requires 0 <= j < KeyLen(c, h) =>
        if j < c.past[h.b] + r + 1 then SelfAttention.Weight(c.exp, ReadScore(c, h, scores, r), c.past[h.b] + r + 1, j)
          else 0.0))
  }

  function ZeroRows(c: Call, h: Head): seq<Row>
    requires |c.past| == |c.input| && InCall(c, h)
  {
    seq(c.input[h.b], _ => seq(c.headSize, _ => 0.0))
  }

  /** What key j adds to column d of an output row. */
  function Contribution(w: Row, j: nat, row: Row, d: nat): real {
    if j < |w| && d < |row| then w[j] * row[d] else 0.0
  }

  /** acc[r] += weights[r][j] * row, for every query row r. */
  function AddRow(acc: seq<Row>, weights: seq<Row>, j: nat, row: Row): (next: seq<Row>) {
    seq(|acc|, r requires 0 <= r < |acc| =>
      seq(|acc[r]|, d requires 0 <= d < |acc[r]| =>
        acc[r][d] + (if r < |weights| then Contribution(weights[r], j, row, d) else 0.0)))
  }

  function Put(m: Cache, slot: Slot, row: Row): Cache {
    x => if x == slot then row else m(x)
  }

  function Set(st: State, h: Head, l: Local): State {
    st.(locals := x => if x == h then l else st.locals(x))
  }

  /** One turn of head h's task. */
  function Step(c: Call, st: State, h: Head): State
    requires Good(c) && InCall(c, h)
  {
    var l := st.locals(h);
    match l.pc
    case StoreK(n) =>
      if n >= c.input[h.b] then Set(st, h, l.(pc := Score(0)))
      else
        var row := c.store(c.key(Slot(h.b, Kv(c, h.i), n)));
        Set(st, h, l.(pc := StoreK(n + 1))).(k := Put(st.k, SlotOf(c, h, c.past[h.b] + n), row))
    case Score(n) =>
      if n >= KeyLen(c, h) then Set(st, h, l.(pc := Soft))
      else
        var row := if n < c.past[h.b] || Copies(c, h.i) then st.k(SlotOf(c, h, n)) else c.key(Raw(c, SlotOf(c, h, n)));
        Set(st, h, l.(pc := Score(n + 1), scores := l.scores + [KeyColumn(c, h, row)]))
    case Soft =>
      Set(st, h, l.(pc := if Copies(c, h.i) then StoreV(0) else Mix(0),
                  weights := WeightRows(c, h, l.scores), acc := ZeroRows(c, h)))
    case StoreV(n) =>
      if n >= c.input[h.b] then Set(st, h, l.(pc := Mix(0)))
      else
        var row := c.store(c.value(Slot(h.b, Kv(c, h.i), n)));
        Set(st, h, l.(pc := StoreV(n + 1))).(v := Put(st.v, SlotOf(c, h, c.past[h.b] + n), row))
    case Mix(n) =>
      if n >= KeyLen(c, h) then Set(st, h, l.(pc := Done))
      else
        var row := if n < c.past[h.b] || Copies(c, h.i) then st.v(SlotOf(c, h, n))
          else c.value(Raw(c, SlotOf(c, h, n)));
        Set(st, h, l.(pc := Mix(n + 1), acc := AddRow(l.acc, l.weights, n, row)))
    case Done => st
  }

  function Start(c: Call): State
    requires Sized(c)
  {
    State(c.oldK, c.oldV, (h: Head) => Local(if Copies(c, h.i) then StoreK(0) else Score(0), [], [], []))
  }

  function After(c: Call, turns: seq<Head>): State
    requires Good(c) && forall k :: 0 <= k < |turns| ==> InCall(c, turns[k])
  {
    if turns == [] then Start(c) else Step(c, After(c, turns[..|turns| - 1]), turns[|turns| - 1])
  }

  // ---------- the invariant ----------

  function AllScores(c: Call, h: Head): seq<Row>
    requires Sized(c) && InCall(c, h)
  {
    seq(KeyLen(c, h), j requires 0 <= j < KeyLen(c, h) => KeyColumn(c, h, SeenKey(c, h, j)))
  }

  function MixTerm(c: Call, h: Head, w: Row, d: nat): int -> real
    requires Sized(c) && InCall(c, h)
  {
    j => if 0 <= j < KeyLen(c, h) then Contribution(w, j, SeenValue(c, h, j), d) else 0.0
  }

  /** The output rows once the first n values are in. */
  function Mixed(c: Call, h: Head, n: nat): (m: seq<Row>)
    requires Good(c) && InCall(c, h)
    ensures |m| == c.input[h.b] && forall r :: 0 <= r < |m| ==> |m[r]| == c.headSize
  {
    var w := WeightRows(c, h, AllScores(c, h));
    seq(c.input[h.b], r requires 0 <= r < c.input[h.b] =>
      seq(c.headSize, d requires 0 <= d < c.headSize => Sum(MixTerm(c, h, w[r], d), 0, n)))
  }

  ghost predicate LocalOk(c: Call, h: Head, l: Local)
    requires Good(c) && InCall(c, h)
  {
    match l.pc
    case StoreK(n) => Copies(c, h.i) && n <= c.input[h.b] && l.scores == []
    case Score(n) => n <= KeyLen(c, h) && l.scores == AllScores(c, h)[..n]
    case Soft => l.scores == AllScores(c, h)
    case StoreV(n) =>
      Copies(c, h.i) && n <= c.input[h.b] && l.weights == WeightRows(c, h, AllScores(c, h)) && l.acc == Mixed(c, h, 0)
    case Mix(n) => n <= KeyLen(c, h) && l.weights == WeightRows(c, h, AllScores(c, h)) && l.acc == Mixed(c, h, n)
    case Done => l.acc == Mixed(c, h, KeyLen(c, h))
  }

  /** How many new keys, and how many new values, a copying task has stored. */
  function KeysIn(pc: Pc, input: nat): nat {
    if pc.StoreK? then pc.n else input
  }

  function ValuesIn(pc: Pc, input: nat): nat {
    match pc
    case StoreV(n) => n
    case Mix(_) => input
    case Done => input
    case _ => 0
  }

  ghost predicate KeySlotOk(c: Call, st: State, slot: Slot)
    requires Sized(c)
  {
    st.k(slot) ==
      if IsNew(c, slot) && slot.s - c.past[slot.b] < KeysIn(st.locals(Copier(c, slot.b, slot.kv)).pc, c.input[slot.b])
      then FinalK(c, slot) else c.oldK(slot)
  }

  ghost predicate ValueSlotOk(c: Call, st: State, slot: Slot)
    requires Sized(c)
  {
    st.v(slot) ==
      if IsNew(c, slot) && slot.s - c.past[slot.b] < ValuesIn(st.locals(Copier(c, slot.b, slot.kv)).pc, c.input[slot.b])
      then FinalV(c, slot) else c.oldV(slot)
  }

  ghost predicate Inv(c: Call, st: State)
    requires Good(c)
  {
    && (forall h :: InCall(c, h) ==> LocalOk(c, h, st.locals(h)))
    && (forall slot :: KeySlotOk(c, st, slot))
    && (forall slot :: ValueSlotOk(c, st, slot))
  }

  lemma StartInv(c: Call)
    requires Good(c)
    ensures Inv(c, Start(c))
  {
    hide FinalK, FinalV, IsNew, Mixed, WeightRows, Copier, Regular;
    forall h | InCall(c, h)
      ensures LocalOk(c, h, Start(c).locals(h))
    {
      assert AllScores(c, h)[..0] == [];
    }
    forall slot: Slot
      ensures KeySlotOk(c, Start(c), slot)
    {
      StartSlot(c, slot);
    }
    forall slot: Slot
      ensures ValueSlotOk(c, Start(c), slot)
    {
      StartSlot(c, slot);
    }
  }

  lemma StartSlot(c: Call, slot: Slot)
    requires Good(c)
    ensures KeySlotOk(c, Start(c), slot) && ValueSlotOk(c, Start(c), slot)
  {
    if IsNew(c, slot) {
      CopierCopies(c, slot.b, slot.kv);
    }
    hide Regular, FinalK, FinalV, Copies, Copier;
  }

  lemma CopierCopies(c: Call, b: nat, kv: nat)
    requires Sized(c) && kv < c.kvHeadNum
    ensures Copies(c, Copier(c, b, kv).i) && Kv(c, Copier(c, b, kv).i) == kv
  {
    CopierIsUnique(c, b, Copier(c, b, kv).i, kv);
  }

  // ---------- one turn keeps the caches as they should be ----------

  lemma TurnElsewhere(c: Call, st: State, h: Head, x: Head)
    requires Good(c) && InCall(c, h) && x != h
    ensures Step(c, st, h).locals(x) == st.locals(x)
  {
  }

  lemma KeySlotKept(c: Call, st: State, h: Head, slot: Slot)
    requires Good(c) && InCall(c, h) && LocalOk(c, h, st.locals(h)) && KeySlotOk(c, st, slot)
    ensures KeySlotOk(c, Step(c, st, h), slot)
  {
    hide Copies, Copier, Kv, WeightRows, AllScores, Mixed, Regular, KeyColumn, ZeroRows, AddRow;
    var pc := st.locals(h).pc;
    if IsNew(c, slot) {
      CopierIsUnique(c, h.b, h.i, slot.kv);
      if Copier(c, slot.b, slot.kv) != h {
        TurnElsewhere(c, st, h, Copier(c, slot.b, slot.kv));
      }
    }
  }

  lemma ValueSlotKept(c: Call, st: State, h: Head, slot: Slot)
    requires Good(c) && InCall(c, h) && LocalOk(c, h, st.locals(h)) && ValueSlotOk(c, st, slot)
    ensures ValueSlotOk(c, Step(c, st, h), slot)
  {
    hide Copies, Copier, Kv, WeightRows, AllScores, Mixed, Regular, KeyColumn, ZeroRows, AddRow;
    if IsNew(c, slot) {
      CopierIsUnique(c, h.b, h.i, slot.kv);
      if Copier(c, slot.b, slot.kv) != h {
        TurnElsewhere(c, st, h, Copier(c, slot.b, slot.kv));
      }
    }
  }

  // ---------- one turn keeps a task's buffers right ----------

  /** The row a task reads for its scores is the row it is meant to see. */
  lemma ReadsRightKey(c: Call, st: State, h: Head, n: nat)
    requires Good(c) && InCall(c, h) && Inv(c, st) && n < KeyLen(c, h) && st.locals(h).pc.Score?
    ensures n < c.past[h.b] || Copies(c, h.i) ==> st.k(SlotOf(c, h, n)) == SeenKey(c, h, n)
  {
    hide Regular, LocalOk, Copier, Copies, Kv;
    assert KeySlotOk(c, st, SlotOf(c, h, n));
    CopierIsUnique(c, h.b, h.i, Kv(c, h.i));
  }

  lemma ReadsRightValue(c: Call, st: State, h: Head, n: nat)
    requires Good(c) && InCall(c, h) && Inv(c, st) && n < KeyLen(c, h) && st.locals(h).pc.Mix?
    ensures n < c.past[h.b] || Copies(c, h.i) ==> st.v(SlotOf(c, h, n)) == SeenValue(c, h, n)
  {
    hide Regular, LocalOk, Copier, Copies, Kv;
    assert ValueSlotOk(c, st, SlotOf(c, h, n));
    CopierIsUnique(c, h.b, h.i, Kv(c, h.i));
  }

  lemma ScoreStep(c: Call, h: Head, n: nat, row: Row)
    requires Sized(c) && InCall(c, h) && n < KeyLen(c, h) && row == SeenKey(c, h, n)
    ensures AllScores(c, h)[..n] + [KeyColumn(c, h, row)] == AllScores(c, h)[..n + 1]
  {
    hide KeyColumn, SeenKey;
  }

  lemma MixNothing(c: Call, h: Head)
    requires Good(c) && InCall(c, h)
    ensures ZeroRows(c, h) == Mixed(c, h, 0)
  {
    hide Regular, WeightRows, MixTerm;
    forall r | 0 <= r < c.input[h.b]
      ensures ZeroRows(c, h)[r] == Mixed(c, h, 0)[r]
    {
    }
  }

  lemma MixStep(c: Call, h: Head, n: nat, row: Row)
    requires Good(c) && InCall(c, h) && n < KeyLen(c, h) && row == SeenValue(c, h, n)
    ensures AddRow(Mixed(c, h, n), WeightRows(c, h, AllScores(c, h)), n, row) == Mixed(c, h, n + 1)
  {
    hide Regular, WeightRows, SeenValue, AllScores, Contribution, MixTerm, Sum;
    var w := WeightRows(c, h, AllScores(c, h));
    var sum := AddRow(Mixed(c, h, n), w, n, row);
    forall r | 0 <= r < c.input[h.b]
      ensures sum[r] == Mixed(c, h, n + 1)[r]
    {
      forall d | 0 <= d < c.headSize
        ensures sum[r][d] == Mixed(c, h, n + 1)[r][d]
      {
        MixCell(c, h, n, w[r], d);
      }
    }
  }

  lemma MixCell(c: Call, h: Head, n: nat, w: Row, d: nat)
    requires Sized(c) && InCall(c, h) && n < KeyLen(c, h)
    ensures Sum(MixTerm(c, h, w, d), 0, n + 1)
      == Sum(MixTerm(c, h, w, d), 0, n) + Contribution(w, n, SeenValue(c, h, n), d)
  {
    hide Contribution, SeenValue;
  }

  lemma InvLocal(c: Call, st: State, h: Head)
    requires Good(c) && InCall(c, h) && Inv(c, st)
    ensures LocalOk(c, h, st.locals(h))
  {
  }

  lemma LocalKept(c: Call, st: State, h: Head)
    requires Good(c) && InCall(c, h) && Inv(c, st)
    ensures LocalOk(c, h, Step(c, st, h).locals(h))
  {
    hide Regular, WeightRows, SeenValue, AllScores, SeenKey, Mixed, Inv, Copies, Kv, KeyColumn, AddRow, ZeroRows, Raw;
    InvLocal(c, st, h);
    var l := st.locals(h);
    match l.pc
    case StoreK(n) => assert AllScores(c, h)[..0] == [];
    case Score(n) =>
      if n < KeyLen(c, h) {
        ReadsRightKey(c, st, h, n);
        SeenRaw(c, h, n);
        ScoreStep(c, h, n, SeenKey(c, h, n));
      } else {
        AllScoresLength(c, h);
      }
    case Soft => MixNothing(c, h);
    case StoreV(n) =>
    case Mix(n) =>
      if n < KeyLen(c, h) {
        ReadsRightValue(c, st, h, n);
        SeenRaw(c, h, n);
        MixStep(c, h, n, SeenValue(c, h, n));
      }
    case Done =>
  }

  lemma SeenRaw(c: Call, h: Head, n: nat)
    requires Sized(c) && InCall(c, h) && n < KeyLen(c, h)
    ensures !(n < c.past[h.b] || Copies(c, h.i)) ==>
      c.key(Raw(c, SlotOf(c, h, n))) == SeenKey(c, h, n) && c.value(Raw(c, SlotOf(c, h, n))) == SeenValue(c, h, n)
  {
  }

  lemma AllScoresLength(c: Call, h: Head)
    requires Sized(c) && InCall(c, h)
    ensures AllScores(c, h)[..KeyLen(c, h)] == AllScores(c, h)
  {
  }

  lemma StepInv(c: Call, st: State, h: Head)
    requires Good(c) && InCall(c, h) && Inv(c, st)
    ensures Inv(c, Step(c, st, h))
  {
    hide Regular, Step, KeySlotOk, ValueSlotOk, LocalOk;
    forall x | InCall(c, x)
      ensures LocalOk(c, x, Step(c, st, h).locals(x))
    {
      if x == h {
        LocalKept(c, st, h);
      } else {
        TurnElsewhere(c, st, h, x);
      }
    }
    forall slot: Slot
      ensures KeySlotOk(c, Step(c, st, h), slot)
    {
      KeySlotKept(c, st, h, slot);
    }
    forall slot: Slot
      ensures ValueSlotOk(c, Step(c, st, h), slot)
    {
      ValueSlotKept(c, st, h, slot);
    }
  }

  lemma {:induction false} AfterInv(c: Call, turns: seq<Head>)
    requires Good(c) && forall k :: 0 <= k < |turns| ==> InCall(c, turns[k])
    ensures Inv(c, After(c, turns))
  {
    hide Regular, Step, Inv;
    if turns == [] {
      StartInv(c);
    } else {
      AfterInv(c, turns[..|turns| - 1]);
      StepInv(c, After(c, turns[..|turns| - 1]), turns[|turns| - 1]);
    }
  }

  // ---------- what a finished task has computed ----------

  /** Scaled and biased score of key j for row r, over the keys the head sees. */
  function HeadScore(c: Call, h: Head, r: nat): int -> real
    requires Sized(c) && InCall(c, h)
  {
    j => if 0 <= j < KeyLen(c, h) then Sum(Sharded.DotTerm(c.query(h, r), SeenKey(c, h, j)), 0, c.headSize) * c.scale
                                       + SelfAttention.Bias(c.slope(h.i), j) else 0.0
  }

  function HeadValue(c: Call, h: Head, d: nat): int -> real
    requires Sized(c) && InCall(c, h)
  {
    j => if 0 <= j < KeyLen(c, h) && d < |SeenValue(c, h, j)| then SeenValue(c, h, j)[d] else 0.0
  }

  lemma AttentionExt(exp: real -> real, z: int -> real, z': int -> real, v: int -> real, n: nat)
    requires Sharded.ExpLaws(exp) && 0 < n && forall j :: 0 <= j < n ==> z(j) == z'(j)
    ensures Sharded.Attention(exp, z, v, n) == Sharded.Attention(exp, z', v, n)
  {
    hide Sharded.ExpLaws;
    SumExt(Sharded.ExpTerm(exp, z, 0.0), Sharded.ExpTerm(exp, z', 0.0), 0, n);
    SumExt(Sharded.ExpDotTerm(exp, z, v, 0.0), Sharded.ExpDotTerm(exp, z', v, 0.0), 0, n);
  }

  lemma ReadIsHeadScore(c: Call, h: Head, r: nat, j: nat)
    requires Sized(c) && InCall(c, h) && r < c.input[h.b] && j < KeyLen(c, h)
    ensures ReadScore(c, h, AllScores(c, h), r)(j) == HeadScore(c, h, r)(j)
  {
    hide SeenKey, SelfAttention.Bias, Sum;
  }

  lemma MixedCell(c: Call, h: Head, n: nat, r: nat, d: nat)
    requires Good(c) && InCall(c, h) && r < c.input[h.b] && d < c.headSize
    ensures Mixed(c, h, n)[r][d] == Sum(MixTerm(c, h, WeightRows(c, h, AllScores(c, h))[r], d), 0, n)
  {
    hide Regular, WeightRows, AllScores, MixTerm, Sum;
  }

  lemma WeightCell(c: Call, h: Head, scores: seq<Row>, r: nat, j: nat)
    requires Good(c) && InCall(c, h) && r < c.input[h.b] && j < KeyLen(c, h)
    ensures var n := c.past[h.b] + r + 1;
      WeightRows(c, h, scores)[r][j]
        == (if j < n then SelfAttention.Weight(c.exp, ReadScore(c, h, scores, r), n, j) else 0.0)
  {
    hide Regular, SelfAttention.Weight, ReadScore;
  }

  lemma MixTermIs(c: Call, h: Head, r: nat, d: nat, j: nat)
    requires Good(c) && InCall(c, h) && r < c.input[h.b] && d < c.headSize && j < KeyLen(c, h)
    ensures var n := c.past[h.b] + r + 1;
      MixTerm(c, h, WeightRows(c, h, AllScores(c, h))[r], d)(j) ==
        (if j < n then SelfAttention.Weight(c.exp, ReadScore(c, h, AllScores(c, h), r), n, j) * HeadValue(c, h, d)(j)
          else 0.0)
  {
    hide Regular, SelfAttention.Weight, ReadScore, SeenValue, AllScores, WeightRows;
    SeenValueLength(c, h, j);
    WeightCell(c, h, AllScores(c, h), r, j);
  }

  /** Score columns, row softmax, zero-fill and the two products come to attention of each row over
      the keys up to its own position. */
  lemma MixedIsAttention(c: Call, h: Head, r: nat, d: nat)
    requires Good(c) && InCall(c, h) && r < c.input[h.b] && d < c.headSize
    ensures Mixed(c, h, KeyLen(c, h))[r][d]
      == Sharded.Attention(c.exp, HeadScore(c, h, r), HeadValue(c, h, d), c.past[h.b] + r + 1)
  {
    hide Regular, ReadScore, AllScores, HeadScore, HeadValue, WeightRows, MixTerm, Mixed, Sum, SelfAttention.Weight,
      Sharded.Attention, Sharded.ExpLaws;
    var n, len := c.past[h.b] + r + 1, KeyLen(c, h);
    var z, v := ReadScore(c, h, AllScores(c, h), r), HeadValue(c, h, d);
    var f := MixTerm(c, h, WeightRows(c, h, AllScores(c, h))[r], d);
    HasExpLaws(c);
    forall j: nat | j < n
      ensures f(j) == SelfAttention.Weight(c.exp, z, n, j) * v(j) && z(j) == HeadScore(c, h, r)(j)
    {
      MixTermIs(c, h, r, d, j);
      ReadIsHeadScore(c, h, r, j);
    }
    forall j: nat | n <= j < len
      ensures f(j) == 0.0
    {
      MixTermIs(c, h, r, d, j);
    }
    MixedCell(c, h, len, r, d);
    SumSplit(f, 0, n, len);
    SumZero(f, n, len);
    SelfAttention.WeightedSum(c.exp, z, v, f, n);
    AttentionExt(c.exp, z, HeadScore(c, h, r), v, n);
  }

  lemma HasExpLaws(c: Call)
    requires Good(c)
    ensures Sharded.ExpLaws(c.exp)
  {
  }

  lemma SeenValueLength(c: Call, h: Head, n: nat)
    requires Good(c) && InCall(c, h) && n < KeyLen(c, h)
    ensures |SeenValue(c, h, n)| == c.headSize
  {
  }

  // ---------- every schedule ----------

  /** Once the tasks are done, whatever the interleaving was: the caches hold the old rows and, from the
      past length on, the stored new ones; every head has attention over the rows it sees. */
  lemma EveryScheduleAgrees(c: Call, turns: seq<Head>, slot: Slot, h: Head, r: nat, d: nat)
    requires Good(c) && forall k :: 0 <= k < |turns| ==> InCall(c, turns[k])
    requires forall x :: InCall(c, x) ==> After(c, turns).locals(x).pc.Done?
    requires InCall(c, h) && r < c.input[h.b] && d < c.headSize
    ensures After(c, turns).k(slot) == FinalK(c, slot) && After(c, turns).v(slot) == FinalV(c, slot)
    ensures |After(c, turns).locals(h).acc| == c.input[h.b] && |After(c, turns).locals(h).acc[r]| == c.headSize
    ensures After(c, turns).locals(h).acc[r][d] ==
      Sharded.Attention(c.exp, HeadScore(c, h, r), HeadValue(c, h, d), c.past[h.b] + r + 1)
  {
    hide Regular, After, Sharded.Attention, Mixed, Copier, Raw, HeadScore, HeadValue, WeightRows, AllScores;
    AfterInv(c, turns);
    var st := After(c, turns);
    assert KeySlotOk(c, st, slot) && ValueSlotOk(c, st, slot);
    if IsNew(c, slot) {
      assert InCall(c, Copier(c, slot.b, slot.kv));
    }
    assert LocalOk(c, h, st.locals(h));
    MixedIsAttention(c, h, r, d);
  }

  // ---------- the same written out over the call's arguments ----------

  /** Whatever the interleaving was, the n-th new token's rows end up behind the past ones, each in its own sample and
      kv head. */
  lemma NewRowsAreStored(c: Call, turns: seq<Head>, b: nat, kv: nat, n: nat)
    requires Good(c) && forall k :: 0 <= k < |turns| ==> InCall(c, turns[k])
    requires forall x :: InCall(c, x) ==> After(c, turns).locals(x).pc.Done?
    requires b < |c.past| && kv < c.kvHeadNum && n < c.input[b]
    ensures After(c, turns).k(Slot(b, kv, c.past[b] + n)) == c.store(c.key(Slot(b, kv, n)))
    ensures After(c, turns).v(Slot(b, kv, c.past[b] + n)) == c.store(c.value(Slot(b, kv, n)))
  {
    hide Regular, After, Copier, InCall;
    FinalRows(c, turns, Slot(b, kv, c.past[b] + n));
  }

  /** ... and no other row of the caches has changed. */
  lemma OtherRowsAreKept(c: Call, turns: seq<Head>, slot: Slot)
    requires Good(c) && forall k :: 0 <= k < |turns| ==> InCall(c, turns[k])
    requires forall x :: InCall(c, x) ==> After(c, turns).locals(x).pc.Done?
    requires slot.b < |c.past| && slot.kv < c.kvHeadNum ==>
      slot.s < c.past[slot.b] || c.past[slot.b] + c.input[slot.b] <= slot.s
    ensures After(c, turns).k(slot) == c.oldK(slot) && After(c, turns).v(slot) == c.oldV(slot)
  {
    hide Regular, After, Copier, InCall;
    FinalRows(c, turns, slot);
  }

  lemma FinalRows(c: Call, turns: seq<Head>, slot: Slot)
    requires Good(c) && forall k :: 0 <= k < |turns| ==> InCall(c, turns[k])
    requires forall x :: InCall(c, x) ==> After(c, turns).locals(x).pc.Done?
    ensures After(c, turns).k(slot) == FinalK(c, slot) && After(c, turns).v(slot) == FinalV(c, slot)
  {
    hide Regular, After, LocalOk, Copier;
    AfterInv(c, turns);
    var st := After(c, turns);
    assert KeySlotOk(c, st, slot) && ValueSlotOk(c, st, slot);
    if IsNew(c, slot) {
      var copier := Copier(c, slot.b, slot.kv);
      assert InCall(c, copier) && st.locals(copier).pc.Done?;
    }
  }

  /** The key and value rows head h attends to, by position: the past rows of its kv head i / (qHeadNum / kvHeadNum),
      then the new ones; the first head of a group reads those from the cache, the others as they came in. */
  ghost predicate RowsOf(c: Call, h: Head, keys: int -> Row, values: int -> Row)
    requires 0 < c.kvHeadNum <= c.qHeadNum && |c.past| == |c.input| && h.b < |c.past|
  {
    Arith.QuotientPositive(c.qHeadNum, c.kvHeadNum);
    var group, past := c.qHeadNum / c.kvHeadNum, c.past[h.b];
    var kv := h.i / group;
    && (forall j: nat :: j < past ==> keys(j) == c.oldK(Slot(h.b, kv, j)) && values(j) == c.oldV(Slot(h.b, kv, j)))
    && (forall n: nat :: n < c.input[h.b] && h.i % group == 0 ==>
          && keys(past + n) == c.store(c.key(Slot(h.b, kv, n)))
          && values(past + n) == c.store(c.value(Slot(h.b, kv, n))))
    && (forall n: nat :: n < c.input[h.b] && h.i % group != 0 ==>
          keys(past + n) == c.key(Slot(h.b, kv, n)) && values(past + n) == c.value(Slot(h.b, kv, n)))
  }

  /** Attention of row r of head h over those rows, in column d: dots(j) lists the products of the query with key j,
      num and den the weighted values and the weights. */
  ghost predicate WrittenOut(c: Call, h: Head, r: nat, d: nat, keys: int -> Row, values: int -> Row,
                             dots: int -> (int -> real), score: int -> real, num: int -> real, den: int -> real)
    requires |c.past| == |c.input| && h.b < |c.past| && d < c.headSize && |c.query(h, r)| == c.headSize
  {
    forall j: nat :: j <= c.past[h.b] + r && |keys(j)| == |values(j)| == c.headSize ==>
      && (forall e: nat :: e < c.headSize ==> dots(j)(e) == c.query(h, r)[e] * keys(j)[e])
      && score(j) == Sum(dots(j), 0, c.headSize) * c.scale + c.slope(h.i) * j as real
      && den(j) == c.exp(score(j)) && num(j) == c.exp(score(j)) * values(j)[d]
  }

  lemma SeenRows(c: Call, h: Head, keys: int -> Row, values: int -> Row, j: nat)
    requires Sized(c) && InCall(c, h) && j < KeyLen(c, h)
    requires 0 < c.kvHeadNum <= c.qHeadNum && RowsOf(c, h, keys, values)
    ensures keys(j) == SeenKey(c, h, j) && values(j) == SeenValue(c, h, j)
  {
    var n := j - c.past[h.b];
    assert GroupNum(c) == c.qHeadNum / c.kvHeadNum;
    if n >= 0 {
      assert keys(c.past[h.b] + n) == keys(j) && values(c.past[h.b] + n) == values(j);
    }
  }

  lemma SeenTerm(c: Call, h: Head, r: nat, d: nat, keys: int -> Row, values: int -> Row, dots: int -> (int -> real),
                 score: int -> real, num: int -> real, den: int -> real, j: nat)
    requires Good(c) && InCall(c, h) && r < c.input[h.b] && d < c.headSize && j <= c.past[h.b] + r
    requires 0 < c.kvHeadNum <= c.qHeadNum && RowsOf(c, h, keys, values)
    requires |c.query(h, r)| == c.headSize && WrittenOut(c, h, r, d, keys, values, dots, score, num, den)
    ensures den(j) == c.exp(HeadScore(c, h, r)(j)) && num(j) == den(j) * HeadValue(c, h, d)(j)
  {
    hide RowsOf, Sum, SeenKey, SeenValue, Sharded.ExpLaws;
    SeenRows(c, h, keys, values, j);
    assert |keys(j)| == |values(j)| == c.headSize by {
      SeenLengths(c, h, j);
    }
    SumExt(dots(j), Sharded.DotTerm(c.query(h, r), keys(j)), 0, c.headSize);
    assert score(j) == HeadScore(c, h, r)(j);
  }

  lemma SeenLengths(c: Call, h: Head, n: nat)
    requires Good(c) && InCall(c, h) && n < KeyLen(c, h)
    ensures |SeenKey(c, h, n)| == |SeenValue(c, h, n)| == c.headSize
  {
  }

  /** The output of every head, whatever the interleaving was: a weighted sum of the value rows over the sum of the
      weights, for each row over the keys up to its own position. */
  lemma OutputWrittenOut(c: Call, turns: seq<Head>, h: Head, r: nat, d: nat, keys: int -> Row, values: int -> Row,
                         dots: int -> (int -> real), score: int -> real, num: int -> real, den: int -> real)
    requires Good(c) && InCall(c, h) && forall k :: 0 <= k < |turns| ==> InCall(c, turns[k])
    requires After(c, turns).locals(h).pc.Done? && r < c.input[h.b] && d < c.headSize
    requires 0 < c.kvHeadNum <= c.qHeadNum && RowsOf(c, h, keys, values)
    requires |c.query(h, r)| == c.headSize && WrittenOut(c, h, r, d, keys, values, dots, score, num, den)
    ensures r < |After(c, turns).locals(h).acc| && d < |After(c, turns).locals(h).acc[r]|
    ensures Sum(den, 0, c.past[h.b] + r + 1) > 0.0
    ensures After(c, turns).locals(h).acc[r][d]
      == Sum(num, 0, c.past[h.b] + r + 1) / Sum(den, 0, c.past[h.b] + r + 1)
  {
    hide Regular, After, Sharded.Attention, Mixed, HeadScore, HeadValue, Sum, RowsOf, WrittenOut, Sharded.ExpLaws;
    FinishedTaskRight(c, turns, h);
    MixedIsAttention(c, h, r, d);
    HasExpLaws(c);
    var z, v := HeadScore(c, h, r), HeadValue(c, h, d);
    forall j | 0 <= j < c.past[h.b] + r + 1
      ensures den(j) == c.exp(z(j)) && num(j) == c.exp(z(j)) * v(j)
    {
      SeenTerm(c, h, r, d, keys, values, dots, score, num, den, j);
    }
    Sharded.AttentionRatio(c.exp, z, v, c.past[h.b] + r + 1, num, den);
  }

  /** A finished task is right before the others finish. */
  lemma FinishedTaskRight(c: Call, turns: seq<Head>, h: Head)
    requires Good(c) && InCall(c, h) && forall k :: 0 <= k < |turns| ==> InCall(c, turns[k])
    requires After(c, turns).locals(h).pc.Done?
    ensures After(c, turns).locals(h).acc == Mixed(c, h, KeyLen(c, h))
  {
    hide Regular, After, Mixed, Inv, WeightRows, AllScores;
    AfterInv(c, turns);
    InvLocal(c, After(c, turns), h);
  }

  /** What a head sees at position j is what the finished cache holds there, except where the head does
      not copy and the conversion into the cache changes the row. */
  lemma SeesTheCache(c: Call, h: Head, j: nat)
    requires Sized(c) && InCall(c, h) && j < KeyLen(c, h)
    ensures SeenKey(c, h, j) == FinalK(c, SlotOf(c, h, j)) <==>
      j < c.past[h.b] || Copies(c, h.i) || c.store(c.key(Raw(c, SlotOf(c, h, j)))) == c.key(Raw(c, SlotOf(c, h, j)))
    ensures SeenValue(c, h, j) == FinalV(c, SlotOf(c, h, j)) <==>
      j < c.past[h.b] || Copies(c, h.i) || c.store(c.value(Raw(c, SlotOf(c, h, j)))) == c.value(Raw(c, SlotOf(c, h, j)))
  {
  }

  // ---------- what a turn touches ----------

  /** Only the copying head of a group writes, and only the group's new rows. */
  lemma WritesOwnNewRows(c: Call, st: State, h: Head, slot: Slot)
    requires Good(c) && InCall(c, h) && LocalOk(c, h, st.locals(h))
    requires Step(c, st, h).k(slot) != st.k(slot) || Step(c, st, h).v(slot) != st.v(slot)
    ensures IsNew(c, slot) && h == Copier(c, slot.b, slot.kv)
  {
    hide Regular, WeightRows, AllScores, Mixed, KeyColumn, AddRow, ZeroRows, Copies, Kv, Copier;
    assert slot.b == h.b && slot.kv == Kv(c, h.i);
    CopierIsUnique(c, h.b, h.i, slot.kv);
  }

  /** A head that does not copy is blind to the new rows: its turn is the same whatever they hold. */
  lemma BlindToNewRows(c: Call, st: State, st': State, h: Head)
    requires Good(c) && InCall(c, h) && !Copies(c, h.i) && LocalOk(c, h, st.locals(h))
    requires st.locals(h) == st'.locals(h)
    requires forall slot :: !IsNew(c, slot) ==> st.k(slot) == st'.k(slot) && st.v(slot) == st'.v(slot)
    ensures Step(c, st, h).locals(h) == Step(c, st', h).locals(h)
  {
    hide Regular, WeightRows, AllScores, Mixed, KeyColumn, AddRow, ZeroRows, Copies, Kv;
  }

  // ---------- no task waits for another ----------

  /** Turns a task still needs. */
  function Left(c: Call, h: Head, pc: Pc): int
    requires Sized(c) && InCall(c, h)
  {
    var input, len := c.input[h.b], KeyLen(c, h);
    match pc
    case StoreK(n) => (input - n) + 2 * len + input + 5
    case Score(n) => (len - n) + len + (if Copies(c, h.i) then input + 4 else 3)
    case Soft => len + (if Copies(c, h.i) then input + 3 else 2)
    case StoreV(n) => (input - n) + len + 2
    case Mix(n) => (len - n) + 1
    case Done => 0
  }

  lemma EveryTurnCounts(c: Call, st: State, h: Head, x: Head)
    requires Good(c) && InCall(c, h) && InCall(c, x) && LocalOk(c, x, st.locals(x))
    ensures 0 <= Left(c, x, st.locals(x).pc)
    ensures Left(c, x, st.locals(x).pc) == 0 <==> st.locals(x).pc.Done?
    ensures Left(c, x, Step(c, st, h).locals(x).pc) ==
      Left(c, x, st.locals(x).pc) - (if x == h && !st.locals(x).pc.Done? then 1 else 0)
  {
    hide Regular, WeightRows, AllScores, Mixed, KeyColumn, AddRow, ZeroRows, Copies, Kv;
  }

  function TurnsOf(turns: seq<Head>, h: Head): nat {
    if turns == [] then 0 else TurnsOf(turns[..|turns| - 1], h) + if turns[|turns| - 1] == h then 1 else 0
  }

  function TurnsNeeded(c: Call, h: Head): int
    requires Sized(c) && InCall(c, h)
  {
    Left(c, h, Start(c).locals(h).pc)
  }

  /** A task is done exactly when it has had its fixed number of turns; the turns of others do not count. */
  lemma {:induction false} DoneAfterOwnTurns(c: Call, turns: seq<Head>, h: Head)
    requires Good(c) && InCall(c, h) && forall k :: 0 <= k < |turns| ==> InCall(c, turns[k])
    ensures After(c, turns).locals(h).pc.Done? <==> TurnsOf(turns, h) >= TurnsNeeded(c, h)
    ensures Left(c, h, After(c, turns).locals(h).pc) ==
      (if TurnsOf(turns, h) >= TurnsNeeded(c, h) then 0 else TurnsNeeded(c, h) - TurnsOf(turns, h))
  {
    hide Regular, Step, LocalOk, Left, Start;
    AfterInv(c, turns);
    if turns == [] {
      EveryTurnCounts(c, Start(c), h, h);
    } else {
      var before := turns[..|turns| - 1];
      DoneAfterOwnTurns(c, before, h);
      AfterInv(c, before);
      EveryTurnCounts(c, After(c, before), turns[|turns| - 1], h);
      EveryTurnCounts(c, After(c, turns), h, h);
    }
  }
}
