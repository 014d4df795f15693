/** Prompt self-attention with its threads interleaved: they share one score buffer, one table of memos
    and packed pairs, and the output, and any thread may make the next access.  A step packs one matrix,
    fills one scratch row, or stores one output row. */
module SelfAttentionThreads {
  import opened SelfAttention
  import opened ShardedAttention
  import opened TaskDecode
  import opened Matrices
  import opened Sums
  import Arith

  /** Where a thread is in its task. */
  datatype Pc =
    | Idle
    | PackK(t: Task)
    | Scores(t: Task, r: nat)
    | PackV(t: Task)
    | Output(t: Task, r: nat)

  /** Everything the threads share.  Rows tid * 32 ... tid * 32 + 31 of the scores, and entry tid of the
      memos and of the packed pairs, are meant for thread tid. */
  datatype System = System(packInfo: seq<(int, int)>, packedB: seq<Mat>, packedV: seq<Mat>, scores: Mat, out: Mat,
                           pcs: seq<Pc>, taken: set<Task>, done: set<Task>)

  datatype Event = Take(tid: nat, t: Task) | Run(tid: nat)

  /** The call and the function it approximates. */
  datatype Call = Call(inp: Inputs, exp: real -> real, threadNum: nat) {
    ghost predicate Valid() {
      ExpLaws(exp) && Good(inp)
    }

    ghost predicate Fitting(s: System) {
      && |s.packInfo| == |s.packedB| == |s.packedV| == |s.pcs| == threadNum
      && |s.scores| == threadNum * M_BLOCK_SIZE && Good(inp) && Fits(s.out, inp)
    }

    ghost predicate Proper(e: Event) {
      e.tid < threadNum && (e.Take? ==> GoodTask(inp, e.t))
    }
  }

  function RowCount(inp: Inputs, t: Task): (n: nat)
    requires GoodTask(inp, t)
    ensures 0 < n <= M_BLOCK_SIZE && t.b < |inp.tokenSizes| && t.i < inp.qHeadNum
    ensures t.mb * M_BLOCK_SIZE + n <= inp.tokenSizes[t.b]
  {
    BlockNotEmpty(inp, t);
    EndSeq(inp.tokenSizes[t.b], t.mb) - t.mb * M_BLOCK_SIZE
  }

  /** The kv head of a task. */
  function TaskKv(inp: Inputs, t: Task): (kv: nat)
    requires Good(inp) && GoodTask(inp, t)
    ensures t.b < |inp.tokenSizes| && t.i < inp.qHeadNum && kv < inp.kvHeadNum && kv == KvHead(inp, t.i)
  {
    BlockNotEmpty(inp, t);
    KvHead(inp, t.i)
  }

  function ScratchRow(tid: nat, r: nat): nat {
    tid * M_BLOCK_SIZE + r
  }

  /** Scratch rows of different threads, and of different rows of one thread, are different rows. */
  lemma ScratchApart(tid: nat, r: nat, tid': nat, r': nat, threadNum: nat)
    requires tid < threadNum && r < M_BLOCK_SIZE && r' < M_BLOCK_SIZE
    ensures ScratchRow(tid, r) < threadNum * M_BLOCK_SIZE
    ensures ScratchRow(tid, r) == ScratchRow(tid', r') ==> tid == tid' && r == r'
  {
    Arith.CellInRange(tid, r, threadNum, M_BLOCK_SIZE);
    if ScratchRow(tid, r) == ScratchRow(tid', r') {
      Arith.CellUnique(tid, r, tid', r', M_BLOCK_SIZE);
    }
  }

  /** Row r of the scratch block of a thread. */
  function ScratchOf(c: Call, s: System, tid: nat, r: nat): seq<real>
    requires c.Fitting(s) && tid < c.threadNum && r < M_BLOCK_SIZE
  {
    ScratchApart(tid, r, tid, r, c.threadNum);
    s.scores[ScratchRow(tid, r)]
  }

  /** Packed keys and values of a thread are two neighbouring regions of one buffer; no two regions overlap. */
  lemma PackedApart(tid: nat, tid': nat, kPackSize: nat, vPackSize: nat, threadNum: nat)
    requires tid < threadNum
    ensures tid * (kPackSize + vPackSize) + kPackSize + vPackSize <= threadNum * (kPackSize + vPackSize)
    ensures tid < tid' ==> tid * (kPackSize + vPackSize) + kPackSize + vPackSize <= tid' * (kPackSize + vPackSize)
  {
    var size := kPackSize + vPackSize;
    Arith.NextMultiple(tid, size);
    Arith.MulMono(tid + 1, threadNum, size);
    if tid < tid' {
      Arith.MulMono(tid + 1, tid', size);
    }
  }

  // ---------- what a step stores ----------

  /** The softmax of the first scores, then zeros, computed from whatever the thread has packed. */
  function SoftmaxOf(exp: real -> real, z: int -> real, elements: nat, tokens: nat): (w: seq<real>)
    requires ExpLaws(exp) && 0 < elements <= tokens
    ensures |w| == tokens && SoftmaxRow(w, exp, z, elements, tokens)
  {
    seq(tokens, j requires 0 <= j < tokens => if j < elements then Weight(exp, z, elements, j) else 0.0)
  }

  function NewScores(c: Call, t: Task, r: nat, packedB: Mat): (w: seq<real>)
    requires c.Valid() && GoodTask(c.inp, t) && r < RowCount(c.inp, t)
    ensures |w| == c.inp.tokenSizes[t.b]
  {
    var position := t.mb * M_BLOCK_SIZE + r;
    SoftmaxOf(c.exp, RowScore(Queries(c.inp, t.b, t.i)[position], packedB, c.inp.scale, Slope(c.inp, t.i)), position
      + 1,
              c.inp.tokenSizes[t.b])
  }

  /** The product of a scratch row and the packed values. */
  function NewOutput(c: Call, w: seq<real>, packedV: Mat): (row: seq<real>)
    ensures |row| == c.inp.headSize
  {
    seq(c.inp.headSize, d requires 0 <= d < c.inp.headSize => Sum(WeightedTerm(w, packedV, d), 0, |packedV|))
  }

  /** out with a run of one row replaced */
  function PutRun(out: Mat, row: nat, col: nat, run: seq<real>): (m: Mat)
    requires row < |out| && col + |run| <= |out[row]|
    ensures |m| == |out| && forall x :: 0 <= x < |out| ==> |m[x]| == |out[x]|
    ensures forall d :: 0 <= d < |run| ==> m[row][col + d] == run[d]
    ensures forall x, y :: 0 <= x < |out| && 0 <= y < |out[x]| && !(x == row && col <= y < col + |run|) ==>
      m[x][y] == out[x][y]
  {
    out[row := seq(|out[row]|, y requires 0 <= y < |out[row]| => if col <= y < col + |run| then run[y - col]
      else out[row][y])]
  }

  // ---------- steps ----------

  function PackKeysStep(c: Call, s: System, tid: nat, t: Task): System
    requires c.Valid() && c.Fitting(s) && tid < c.threadNum && GoodTask(c.inp, t)
  {
    var kv := TaskKv(c.inp, t);
    s.(packedB := if s.packInfo[tid] != (t.b, kv) then s.packedB[tid := Keys(c.inp, t.b, kv)] else s.packedB,
       pcs := s.pcs[tid := Scores(t, 0)])
  }

  function PackValuesStep(c: Call, s: System, tid: nat, t: Task): System
    requires c.Valid() && c.Fitting(s) && tid < c.threadNum && GoodTask(c.inp, t)
  {
    var kv := TaskKv(c.inp, t);
    var pack := s.packInfo[tid] != (t.b, kv);
    s.(packedV := if pack then s.packedV[tid := Values(c.inp, t.b, kv)] else s.packedV,
       packInfo := if pack then s.packInfo[tid := (t.b as int, kv as int)] else s.packInfo,
       pcs := s.pcs[tid := Output(t, 0)])
  }

  function ScoreStep(c: Call, s: System, tid: nat, t: Task, r: nat): System
    requires c.Valid() && c.Fitting(s) && tid < c.threadNum && GoodTask(c.inp, t)
  {
    if r >= RowCount(c.inp, t) then s.(pcs := s.pcs[tid := PackV(t)])
    else
      ScratchApart(tid, r, tid, r, c.threadNum);
      s.(scores := s.scores[ScratchRow(tid, r) := NewScores(c, t, r, s.packedB[tid])], pcs :=
        s.pcs[tid := Scores(t, r + 1)])
  }

  function OutputStep(c: Call, s: System, tid: nat, t: Task, r: nat): System
    requires c.Valid() && c.Fitting(s) && tid < c.threadNum && GoodTask(c.inp, t)
  {
    if r >= RowCount(c.inp, t) then s.(pcs := s.pcs[tid := Idle], done := s.done + {t})
    else
      var token := t.mb * M_BLOCK_SIZE + r;
      RowFits(c.inp, t.b, t.i, token);
      s.(out := PutRun(s.out, OutRow(c.inp, t.b, token), OutCol(c.inp, t.i, 0),
                       NewOutput(c, ScratchOf(c, s, tid, r), s.packedV[tid])),
         pcs := s.pcs[tid := Output(t, r + 1)])
  }

  /** The threads' tasks are tasks of the call. */
  ghost predicate Sane(c: Call, s: System) {
    && c.Fitting(s)
    && forall tid :: 0 <= tid < c.threadNum && !s.pcs[tid].Idle? ==> GoodTask(c.inp, s.pcs[tid].t)
  }

  /** The next access of a thread; an idle thread has none. */
  function Step(c: Call, s: System, tid: nat): System
    requires c.Valid() && Sane(c, s) && tid < c.threadNum
  {
    match s.pcs[tid]
    case Idle => s
    case PackK(t) => PackKeysStep(c, s, tid, t)
    case Scores(t, r) => ScoreStep(c, s, tid, t, r)
    case PackV(t) => PackValuesStep(c, s, tid, t)
    case Output(t, r) => OutputStep(c, s, tid, t, r)
  }

  /** A task is handed out once, to a thread that is idle. */
  function Apply(c: Call, s: System, e: Event): System
    requires c.Valid() && Sane(c, s) && c.Proper(e)
  {
    match e
    case Take(tid, t) =>
      if s.pcs[tid].Idle? && t !in s.taken then s.(pcs := s.pcs[tid := PackK(t)], taken := s.taken + {t}) else s
    case Run(tid) => Step(c, s, tid)
  }

  // ---------- the invariant ----------

  ghost predicate MemoOk(c: Call, s: System, tid: nat)
    requires c.Fitting(s) && tid < c.threadNum
  {
    var (b, kv) := s.packInfo[tid];
    b == -1 ||
    (&& 0 <= b < |c.inp.tokenSizes| && 0 <= kv < c.inp.kvHeadNum
     && s.packedB[tid] == Keys(c.inp, b, kv) && s.packedV[tid] == Values(c.inp, b, kv))
  }

  /** The keys of a task are packed; if the memo names its pair already, so are the values. */
  ghost predicate KeysReady(c: Call, s: System, tid: nat, t: Task)
    requires c.Fitting(s) && tid < c.threadNum && GoodTask(c.inp, t)
  {
    var kv := TaskKv(c.inp, t);
    && s.packedB[tid] == Keys(c.inp, t.b, kv)
    && (s.packInfo[tid] == (t.b as int, kv as int) ==> s.packedV[tid] == Values(c.inp, t.b, kv))
  }

  ghost predicate ValuesReady(c: Call, s: System, tid: nat, t: Task)
    requires c.Fitting(s) && tid < c.threadNum && GoodTask(c.inp, t)
  {
    MemoOk(c, s, tid) && s.packedV[tid] == Values(c.inp, t.b, TaskKv(c.inp, t))
  }

  /** The first n scratch rows of a thread hold the softmax of its block's rows. */
  ghost predicate RowsScored(c: Call, s: System, tid: nat, t: Task, n: nat)
    requires c.Valid() && c.Fitting(s) && tid < c.threadNum && GoodTask(c.inp, t) && n <= RowCount(c.inp, t)
  {
    forall r: nat :: r < n ==> RowScored(c, ScratchOf(c, s, tid, r), t, r)
  }

  ghost predicate RowScored(c: Call, w: seq<real>, t: Task, r: nat)
    requires c.Valid() && GoodTask(c.inp, t) && r < RowCount(c.inp, t)
  {
    && |w| == c.inp.tokenSizes[t.b]
    && SoftmaxRow(w, c.exp, BlockScore(c.inp, t, r), t.mb * M_BLOCK_SIZE + r + 1, c.inp.tokenSizes[t.b])
  }

  ghost predicate ThreadOk(c: Call, s: System, tid: nat)
    requires c.Valid() && c.Fitting(s) && tid < c.threadNum
  {
    match s.pcs[tid]
    case Idle => MemoOk(c, s, tid)
    case PackK(t) => GoodTask(c.inp, t) && MemoOk(c, s, tid)
    case Scores(t, r) =>
      GoodTask(c.inp, t) && r <= RowCount(c.inp, t) && KeysReady(c, s, tid, t) && RowsScored(c, s, tid, t, r)
    case PackV(t) => GoodTask(c.inp, t) && KeysReady(c, s, tid, t) && RowsScored(c, s, tid, t, RowCount(c.inp, t))
    case Output(t, r) =>
      && GoodTask(c.inp, t) && r <= RowCount(c.inp, t) && ValuesReady(c, s, tid, t)
      && RowsScored(c, s, tid, t, RowCount(c.inp, t)) && RowsRight(s.out, c.inp, c.exp, t, r)
  }

  /** Tasks in progress are taken, not done, and belong to one thread each. */
  ghost predicate TasksOk(c: Call, s: System)
    requires c.Valid() && c.Fitting(s)
  {
    && s.done <= s.taken
    && (forall t :: t in s.taken ==> GoodTask(c.inp, t))
    && (forall tid :: 0 <= tid < c.threadNum && !s.pcs[tid].Idle? ==>
      s.pcs[tid].t in s.taken && s.pcs[tid].t !in s.done)
    && (forall a, b :: 0 <= a < b < c.threadNum && !s.pcs[a].Idle? && !s.pcs[b].Idle? ==> s.pcs[a].t != s.pcs[b].t)
    && (forall t :: t in s.taken && t !in s.done ==> InProgress(s, t))
  }

  ghost predicate InProgress(s: System, t: Task) {
    exists tid :: 0 <= tid < |s.pcs| && !s.pcs[tid].Idle? && s.pcs[tid].t == t
  }

  ghost predicate DoneOk(c: Call, s: System)
    requires c.Valid() && c.Fitting(s)
  {
    forall t :: t in s.done ==> GoodTask(c.inp, t) && BlockRight(s.out, c.inp, c.exp, t)
  }

  ghost predicate Inv(c: Call, s: System) {
    && c.Valid() && Sane(c, s) && TasksOk(c, s) && DoneOk(c, s)
    && forall tid :: 0 <= tid < c.threadNum ==> ThreadOk(c, s, tid)
  }

  // ---------- every step keeps it ----------

  /** Same memo, same packed pair, same scratch rows and counter, and what it has stored still right. */
  ghost predicate SameThread(c: Call, s: System, s': System, u: nat)
    requires c.Fitting(s) && c.Fitting(s') && u < c.threadNum
  {
    && s'.packInfo[u] == s.packInfo[u] && s'.packedB[u] == s.packedB[u] && s'.packedV[u] == s.packedV[u]
      && s'.pcs[u] == s.pcs[u]
    && forall r: nat :: r < M_BLOCK_SIZE ==> ScratchOf(c, s', u, r) == ScratchOf(c, s, u, r)
  }

  lemma ScratchSame(c: Call, s: System, s': System, u: nat)
    requires c.Fitting(s) && c.Fitting(s') && u < c.threadNum && s'.scores == s.scores
    ensures forall r: nat :: r < M_BLOCK_SIZE ==> ScratchOf(c, s', u, r) == ScratchOf(c, s, u, r)
  {
    hide Good, Fits;
  }

  lemma ThreadKept(c: Call, s: System, s': System, u: nat)
    requires c.Valid() && c.Fitting(s) && c.Fitting(s') && u < c.threadNum && ThreadOk(c, s, u)
      && SameThread(c, s, s', u)
    requires s.pcs[u].Output? ==> RowsRight(s'.out, c.inp, c.exp, s.pcs[u].t, s.pcs[u].r)
    ensures ThreadOk(c, s', u)
  {
    hide ScratchOf, RowScored, RowsRight, GoodTask, Fits, ExpLaws, Good, Keys, Values, TaskKv, RowCount;
    match s.pcs[u]
    case Idle =>
    case PackK(t) =>
    case Scores(t, r) => RowsKept(c, s, s', u, t, r);
    case PackV(t) => RowsKept(c, s, s', u, t, RowCount(c.inp, t));
    case Output(t, r) => RowsKept(c, s, s', u, t, RowCount(c.inp, t));
  }

  lemma RowsKept(c: Call, s: System, s': System, u: nat, t: Task, n: nat)
    requires c.Valid() && c.Fitting(s) && c.Fitting(s') && u < c.threadNum && GoodTask(c.inp, t)
      && n <= RowCount(c.inp, t)
    requires RowsScored(c, s, u, t, n) && forall r: nat :: r < M_BLOCK_SIZE ==>
      ScratchOf(c, s', u, r) == ScratchOf(c, s, u, r)
    ensures RowsScored(c, s', u, t, n)
  {
    hide ScratchOf, RowScored, GoodTask, ExpLaws, Good;
  }

  /** A thread going on with its task leaves the books as they are. */
  lemma TasksKept(c: Call, s: System, s': System, tid: nat, pc: Pc)
    requires c.Valid() && c.Fitting(s) && c.Fitting(s') && tid < c.threadNum && TasksOk(c, s)
    requires s'.taken == s.taken && s'.done == s.done && s'.pcs == s.pcs[tid := pc]
    requires !s.pcs[tid].Idle? && !pc.Idle? && pc.t == s.pcs[tid].t
    ensures TasksOk(c, s')
  {
    hide GoodTask, ExpLaws, Good, Fits;
    forall t | t in s.taken && t !in s.done
      ensures InProgress(s', t)
    {
      assert InProgress(s, t);
      var u :| 0 <= u < |s.pcs| && !s.pcs[u].Idle? && s.pcs[u].t == t;
      assert !s'.pcs[u].Idle? && s'.pcs[u].t == t;
    }
  }

  lemma PackKeysKeeps(c: Call, s: System, tid: nat, t: Task)
    requires Inv(c, s) && tid < c.threadNum && s.pcs[tid] == PackK(t)
    ensures Inv(c, PackKeysStep(c, s, tid, t))
  {
    hide ScratchOf, RowScored, RowsRight, BlockRight, GoodTask, ExpLaws, Good, Fits, Keys, Values, TaskKv, RowCount,
      TasksOk;
    var s' := PackKeysStep(c, s, tid, t);
    assert ThreadOk(c, s, tid);
    TasksKept(c, s, s', tid, Scores(t, 0));
    assert ThreadOk(c, s', tid);
    forall u | 0 <= u < c.threadNum && u != tid
      ensures ThreadOk(c, s', u)
    {
      assert ThreadOk(c, s, u);
      ScratchSame(c, s, s', u);
      ThreadKept(c, s, s', u);
    }
  }

  lemma PackValuesKeeps(c: Call, s: System, tid: nat, t: Task)
    requires Inv(c, s) && tid < c.threadNum && s.pcs[tid] == PackV(t)
    ensures Inv(c, PackValuesStep(c, s, tid, t))
  {
    hide ScratchOf, RowScored, BlockRight, GoodTask, ExpLaws, Good, Fits, Keys, Values, TaskKv, RowCount, TasksOk;
    var s' := PackValuesStep(c, s, tid, t);
    assert ThreadOk(c, s, tid);
    TasksKept(c, s, s', tid, Output(t, 0));
    ScratchSame(c, s, s', tid);
    RowsKept(c, s, s', tid, t, RowCount(c.inp, t));
    assert ThreadOk(c, s', tid);
    forall u | 0 <= u < c.threadNum && u != tid
      ensures ThreadOk(c, s', u)
    {
      assert ThreadOk(c, s, u);
      ScratchSame(c, s, s', u);
      ThreadKept(c, s, s', u);
    }
  }

  /** What a score step stores is the softmax of the row, because the right keys are packed. */
  lemma NewScoresRight(c: Call, s: System, tid: nat, t: Task, r: nat)
    requires c.Valid() && c.Fitting(s) && tid < c.threadNum && GoodTask(c.inp, t) && r < RowCount(c.inp, t)
      && KeysReady(c, s, tid, t)
    ensures RowScored(c, NewScores(c, t, r, s.packedB[tid]), t, r)
  {
    hide ExpLaws, Good, GoodTask, SoftmaxRow, RowScore, Fits, Queries, Keys, Slope;
  }

  lemma ScoreKeeps(c: Call, s: System, tid: nat, t: Task, r: nat)
    requires Inv(c, s) && tid < c.threadNum && s.pcs[tid] == Scores(t, r)
    ensures Inv(c, ScoreStep(c, s, tid, t, r))
  {
    hide RowScored, RowsRight, BlockRight, GoodTask, ExpLaws, Good, Fits, Keys, Values, TaskKv, RowCount, TasksOk,
      NewScores, ScratchRow;
    var s' := ScoreStep(c, s, tid, t, r);
    assert ThreadOk(c, s, tid);
    if r >= RowCount(c.inp, t) {
      TasksKept(c, s, s', tid, PackV(t));
      ScratchSame(c, s, s', tid);
      RowsKept(c, s, s', tid, t, RowCount(c.inp, t));
    } else {
      ScratchApart(tid, r, tid, r, c.threadNum);
      TasksKept(c, s, s', tid, Scores(t, r + 1));
      NewScoresRight(c, s, tid, t, r);
      OneMoreScored(c, s, s', tid, t, r);
    }
    assert ThreadOk(c, s', tid);
    forall u | 0 <= u < c.threadNum && u != tid
      ensures ThreadOk(c, s', u)
    {
      assert ThreadOk(c, s, u);
      forall k: nat | k < M_BLOCK_SIZE
        ensures ScratchOf(c, s', u, k) == ScratchOf(c, s, u, k)
      {
        if r < RowCount(c.inp, t) {
          ScratchApart(u, k, tid, r, c.threadNum);
        }
      }
      ThreadKept(c, s, s', u);
    }
  }

  lemma OneMoreScored(c: Call, s: System, s': System, tid: nat, t: Task, r: nat)
    requires c.Valid() && c.Fitting(s) && c.Fitting(s') && tid < c.threadNum && GoodTask(c.inp, t)
      && r < RowCount(c.inp, t)
    requires RowsScored(c, s, tid, t, r) && RowScored(c, NewScores(c, t, r, s.packedB[tid]), t, r)
    requires ScratchRow(tid, r) < |s.scores|
      && s'.scores == s.scores[ScratchRow(tid, r) := NewScores(c, t, r, s.packedB[tid])]
    ensures RowsScored(c, s', tid, t, r + 1)
  {
    hide RowScored, GoodTask, ExpLaws, Good, Fits, RowCount, NewScores, ScratchRow;
    forall k: nat | k < r + 1
      ensures RowScored(c, ScratchOf(c, s', tid, k), t, k)
    {
      ScratchApart(tid, k, tid, r, c.threadNum);
      if k < r {
        assert RowScored(c, ScratchOf(c, s, tid, k), t, k);
      }
    }
  }

  /** What an output step stores is the row of causal attention, because scores and values are right. */
  lemma NewOutputRight(c: Call, s: System, tid: nat, t: Task, r: nat)
    requires c.Valid() && c.Fitting(s) && tid < c.threadNum && GoodTask(c.inp, t) && r < RowCount(c.inp, t)
    requires ValuesReady(c, s, tid, t) && RowsScored(c, s, tid, t, RowCount(c.inp, t))
    ensures forall d: nat :: d < c.inp.headSize ==>
      NewOutput(c, ScratchOf(c, s, tid, r), s.packedV[tid])[d]
        == Expected(c.inp, c.exp, t.b, t.i, t.mb * M_BLOCK_SIZE + r, d)
  {
    hide ExpLaws, Good, GoodTask, SoftmaxRow, RowScore, Queries, Keys, Slope, Fits, ScratchOf, Attention, Column,
      MemoOk, Sum;
    var w, V := ScratchOf(c, s, tid, r), s.packedV[tid];
    assert RowScored(c, w, t, r);
    ValuesFit(c.inp, t);
    forall d: nat | d < c.inp.headSize
      ensures NewOutput(c, w, V)[d] == Expected(c.inp, c.exp, t.b, t.i, t.mb * M_BLOCK_SIZE + r, d)
    {
      WeightedIsAttention(w, V, c.exp, BlockScore(c.inp, t, r), t.mb * M_BLOCK_SIZE + r + 1, d);
    }
  }

  /** Storing the row of a task makes it right and touches no other task's rows. */
  lemma RowStoredRight(c: Call, s: System, s': System, tid: nat, t: Task, r: nat)
    requires c.Valid() && c.Fitting(s) && tid < c.threadNum && GoodTask(c.inp, t) && r < RowCount(c.inp, t)
    requires ValuesReady(c, s, tid, t) && RowsScored(c, s, tid, t, RowCount(c.inp, t))
      && RowsRight(s.out, c.inp, c.exp, t, r)
    requires s' == OutputStep(c, s, tid, t, r)
    ensures Fits(s'.out, c.inp) && RowsRight(s'.out, c.inp, c.exp, t, r + 1)
    ensures OnlyRow(s.out, s'.out, c.inp, t.b, t.i, t.mb * M_BLOCK_SIZE + r)
  {
    hide ExpLaws, Good, GoodTask, OutRow, OutCol, Expected, Total, ScratchOf, NewOutput, RowsScored, ValuesReady,
      RowCount;
    hide PutRun, OnlyRow, RowRight, RowsRight;
    var token := t.mb * M_BLOCK_SIZE + r;
    NewOutputRight(c, s, tid, t, r);
    RowFits(c.inp, t.b, t.i, token);
    var run := NewOutput(c, ScratchOf(c, s, tid, r), s.packedV[tid]);
    RunStored(s.out, s'.out, c.inp, t.b, t.i, token, run);
    RowStored(s.out, s'.out, c.inp, c.exp, t.b, t.i, token, run);
    RowsGrow(s.out, s'.out, c, t, r);
  }

  lemma RunStored(was: Mat, out: Mat, inp: Inputs, b: nat, i: nat, r: nat, run: seq<real>)
    requires Good(inp) && Fits(was, inp) && b < |inp.tokenSizes| && i < inp.qHeadNum && |run| == inp.headSize
    requires OutRow(inp, b, r) < |was| && OutCol(inp, i, 0) + inp.headSize <= inp.qHeadNum * inp.headSize
    requires out == PutRun(was, OutRow(inp, b, r), OutCol(inp, i, 0), run)
    ensures Rect(out, |was|, inp.qHeadNum * inp.headSize)
    ensures forall d :: 0 <= d < inp.headSize ==> out[OutRow(inp, b, r)][OutCol(inp, i, 0) + d] == run[d]
    ensures forall row, c ::
      0 <= row < |was| && 0 <= c < inp.qHeadNum * inp.headSize && !InRow(inp, b, i, r, row, c) ==>
      out[row][c] == was[row][c]
  {
    hide Good, OutRow, OutCol, Total, PutRun;
  }

  lemma RowsGrow(was: Mat, out: Mat, c: Call, t: Task, r: nat)
    requires c.Valid() && Fits(was, c.inp) && Fits(out, c.inp) && GoodTask(c.inp, t) && r < RowCount(c.inp, t)
    requires RowsRight(was, c.inp, c.exp, t, r) && RowRight(out, c.inp, c.exp, t.b, t.i, t.mb * M_BLOCK_SIZE + r)
    requires OnlyRow(was, out, c.inp, t.b, t.i, t.mb * M_BLOCK_SIZE + r)
    ensures RowsRight(out, c.inp, c.exp, t, r + 1)
  {
    hide ExpLaws, Good, GoodTask, RowRight, OnlyRow, Fits;
    EarlierRowsKept(was, out, c.inp, c.exp, t, r);
  }

  lemma DoneKept(c: Call, s: System, s': System, t: Task, r: nat)
    requires c.Valid() && c.Fitting(s) && c.Fitting(s') && DoneOk(c, s) && s'.done == s.done && t !in s.done
    requires GoodTask(c.inp, t) && r < RowCount(c.inp, t)
    requires OnlyRow(s.out, s'.out, c.inp, t.b, t.i, t.mb * M_BLOCK_SIZE + r)
    ensures DoneOk(c, s')
  {
    hide ExpLaws, Good, GoodTask, RowsRight, OnlyRow, Fits;
    forall u | u in s.done
      ensures GoodTask(c.inp, u) && BlockRight(s'.out, c.inp, c.exp, u)
    {
      OtherRowsKept(s.out, s'.out, c.inp, c.exp, t, r, u, RowCount(c.inp, u));
    }
  }

  lemma OutputKeeps(c: Call, s: System, tid: nat, t: Task, r: nat)
    requires Inv(c, s) && tid < c.threadNum && s.pcs[tid] == Output(t, r) && r < RowCount(c.inp, t)
    ensures Inv(c, OutputStep(c, s, tid, t, r))
  {
    hide RowScored, RowsRight, BlockRight, GoodTask, ExpLaws, Good, Fits, Keys, Values, TaskKv, RowCount, NewOutput,
      ScratchOf, OnlyRow;
    var s' := OutputStep(c, s, tid, t, r);
    assert ThreadOk(c, s, tid);
    RowStoredRight(c, s, s', tid, t, r);
    TasksKept(c, s, s', tid, Output(t, r + 1));
    DoneKept(c, s, s', t, r);
    hide OutputStep;
    ScratchSame(c, s, s', tid);
    RowsKept(c, s, s', tid, t, RowCount(c.inp, t));
    forall u | 0 <= u < c.threadNum && u != tid
      ensures ThreadOk(c, s', u)
    {
      assert ThreadOk(c, s, u);
      ScratchSame(c, s, s', u);
      if s.pcs[u].Output? {
        OtherRowsKept(s.out, s'.out, c.inp, c.exp, t, r, s.pcs[u].t, s.pcs[u].r);
      }
      ThreadKept(c, s, s', u);
    }
    assert ThreadOk(c, s', tid);
  }

  /** A task whose last row is stored is done. */
  lemma FinishKeeps(c: Call, s: System, tid: nat, t: Task, r: nat)
    requires Inv(c, s) && tid < c.threadNum && s.pcs[tid] == Output(t, r) && r >= RowCount(c.inp, t)
    ensures Inv(c, OutputStep(c, s, tid, t, r))
  {
    hide RowScored, RowsRight, GoodTask, ExpLaws, Good, Fits, Keys, Values, TaskKv, RowCount, ScratchOf, MemoOk,
      TasksOk, InProgress;
    var s' := OutputStep(c, s, tid, t, r);
    assert ThreadOk(c, s, tid);
    AllRowsRight(s.out, c, t, r);
    FinishedTasks(c, s, s', tid);
    forall u | 0 <= u < c.threadNum
      ensures ThreadOk(c, s', u)
    {
      assert ThreadOk(c, s, u);
      ScratchSame(c, s, s', u);
      if u != tid {
        ThreadKept(c, s, s', u);
      } else {
        assert MemoOk(c, s', u) by { MemoKept(c, s, s', u); }
      }
    }
  }

  lemma AllRowsRight(out: Mat, c: Call, t: Task, r: nat)
    requires c.Valid() && Fits(out, c.inp) && GoodTask(c.inp, t) && r == RowCount(c.inp, t)
      && RowsRight(out, c.inp, c.exp, t, r)
    ensures BlockRight(out, c.inp, c.exp, t)
  {
    hide ExpLaws, Good, GoodTask, Fits, RowsRight;
  }

  lemma MemoKept(c: Call, s: System, s': System, u: nat)
    requires c.Fitting(s) && c.Fitting(s') && u < c.threadNum && MemoOk(c, s, u)
    requires s'.packInfo[u] == s.packInfo[u] && s'.packedB[u] == s.packedB[u] && s'.packedV[u] == s.packedV[u]
    ensures MemoOk(c, s', u)
  {
    hide Good, Fits, Keys, Values;
  }

  lemma FinishedTasks(c: Call, s: System, s': System, tid: nat)
    requires c.Valid() && c.Fitting(s) && c.Fitting(s') && tid < c.threadNum && TasksOk(c, s) && !s.pcs[tid].Idle?
    requires s'.taken == s.taken && s'.done == s.done + {s.pcs[tid].t} && s'.pcs == s.pcs[tid := Idle]
    ensures TasksOk(c, s')
  {
    hide GoodTask, ExpLaws, Good, Fits;
    forall t | t in s'.taken && t !in s'.done
      ensures InProgress(s', t)
    {
      assert InProgress(s, t);
      var u :| 0 <= u < |s.pcs| && !s.pcs[u].Idle? && s.pcs[u].t == t;
      assert !s'.pcs[u].Idle? && s'.pcs[u].t == t;
    }
  }

  lemma TakeKeeps(c: Call, s: System, tid: nat, t: Task)
    requires Inv(c, s) && c.Proper(Take(tid, t)) && s.pcs[tid].Idle? && t !in s.taken
    ensures Inv(c, Apply(c, s, Take(tid, t)))
  {
    hide RowScored, RowsRight, BlockRight, GoodTask, ExpLaws, Good, Fits, Keys, Values, TaskKv, RowCount, ScratchOf,
      MemoOk, InProgress;
    var s' := Apply(c, s, Take(tid, t));
    TakenTasks(c, s, s', tid, t);
    forall u | 0 <= u < c.threadNum
      ensures ThreadOk(c, s', u)
    {
      assert ThreadOk(c, s, u);
      ScratchSame(c, s, s', u);
      if u != tid {
        ThreadKept(c, s, s', u);
      } else {
        MemoKept(c, s, s', u);
      }
    }
  }

  lemma TakenTasks(c: Call, s: System, s': System, tid: nat, t: Task)
    requires c.Valid() && c.Fitting(s) && c.Fitting(s') && tid < c.threadNum && TasksOk(c, s) && s.pcs[tid].Idle?
    requires GoodTask(c.inp, t) && t !in s.taken
    requires s'.taken == s.taken + {t} && s'.done == s.done && s'.pcs == s.pcs[tid := PackK(t)]
    ensures TasksOk(c, s')
  {
    hide GoodTask, ExpLaws, Good, Fits;
    forall x | x in s'.taken && x !in s'.done
      ensures InProgress(s', x)
    {
      if x == t {
        assert !s'.pcs[tid].Idle? && s'.pcs[tid].t == x;
      } else {
        assert InProgress(s, x);
        var u :| 0 <= u < |s.pcs| && !s.pcs[u].Idle? && s.pcs[u].t == x;
        assert !s'.pcs[u].Idle? && s'.pcs[u].t == x;
      }
    }
  }

  /** Every access of every thread keeps the invariant. */
  lemma StepInv(c: Call, s: System, e: Event)
    requires Inv(c, s) && c.Proper(e)
    ensures Inv(c, Apply(c, s, e))
  {
    hide Inv, Sane, PackKeysStep, PackValuesStep, ScoreStep, OutputStep, ThreadOk, RowCount;
    InvIsSane(c, s);
    var tid := e.tid;
    if e.Take? {
      if s.pcs[tid].Idle? && e.t !in s.taken {
        TakeKeeps(c, s, tid, e.t);
      }
    } else {
      match s.pcs[tid]
      case Idle =>
      case PackK(t) => PackKeysKeeps(c, s, tid, t);
      case Scores(t, r) => ScoreKeeps(c, s, tid, t, r);
      case PackV(t) => PackValuesKeeps(c, s, tid, t);
      case Output(t, r) =>
        if r < RowCount(c.inp, t) {
          OutputKeeps(c, s, tid, t, r);
        } else {
          FinishKeeps(c, s, tid, t, r);
        }
    }
  }

  lemma InvIsSane(c: Call, s: System)
    requires Inv(c, s)
    ensures c.Valid() && Sane(c, s) && |s.pcs| == c.threadNum
    ensures forall tid :: 0 <= tid < c.threadNum && !s.pcs[tid].Idle? ==> GoodTask(c.inp, s.pcs[tid].t)
  {
  }

  // ---------- whole runs ----------

  /** Before the first event: all threads idle, no memo, nothing taken; buffers hold anything. */
  ghost predicate Start(c: Call, s: System) {
    && c.Valid() && c.Fitting(s) && s.taken == {} && s.done == {}
    && (forall tid :: 0 <= tid < c.threadNum ==> s.pcs[tid].Idle? && s.packInfo[tid].0 == -1)
  }

  /** The state after any interleaving. */
  function After(c: Call, s: System, events: seq<Event>): (s': System)
    requires Start(c, s) && forall k :: 0 <= k < |events| ==> c.Proper(events[k])
    ensures Inv(c, s')
  {
    hide Start, Inv, Apply, c.Proper;
    if events == [] then
      StartInv(c, s);
      s
    else
      var n := |events| - 1;
      var before := After(c, s, events[..n]);
      InvIsSane(c, before);
      StepInv(c, before, events[n]);
      Apply(c, before, events[n])
  }

  lemma StartInv(c: Call, s: System)
    requires Start(c, s)
    ensures Inv(c, s)
  {
    hide ExpLaws, Good, Fits, GoodTask;
  }

  /** Under every interleaving of all accesses of all threads, from any contents of the buffers: the rows of
      a task that is done are causal attention, whatever the other threads are in the middle of. */
  lemma EveryInterleavingRight(c: Call, s: System, events: seq<Event>, b: nat, i: nat, r: nat, d: nat)
    requires Start(c, s) && forall k :: 0 <= k < |events| ==> c.Proper(events[k])
    requires b < |c.inp.tokenSizes| && i < c.inp.qHeadNum && r < c.inp.tokenSizes[b] && d < c.inp.headSize
    ensures GoodTask(c.inp, Task(b, i, r / M_BLOCK_SIZE)) && Fits(After(c, s, events).out, c.inp)
    ensures Task(b, i, r / M_BLOCK_SIZE) in After(c, s, events).done ==>
      Cell(After(c, s, events).out, c.inp, b, i, r, d) == Expected(c.inp, c.exp, b, i, r, d)
  {
    var out, t := After(c, s, events).out, Task(b, i, r / M_BLOCK_SIZE);
    hide After, ExpLaws, Good, Cell, Expected, Total, ThreadOk, TasksOk;
    if t in After(c, s, events).done {
      assert BlockRight(out, c.inp, c.exp, t);
      assert RowRight(out, c.inp, c.exp, b, i, r);
    }
  }

  /** The same with the cell and the attention it holds written out over the stacked matrices. */
  lemma EveryInterleavingWrittenOut(c: Call, s: System, events: seq<Event>, b: nat, i: nat, r: nat, d: nat,
                                    dots: int -> (int -> real), score: int -> real, num: int -> real,
                                    den: int -> real)
    requires Start(c, s) && forall k :: 0 <= k < |events| ==> c.Proper(events[k])
    requires b < |c.inp.tokenSizes| && i < c.inp.qHeadNum && r < c.inp.tokenSizes[b] && d < c.inp.headSize
    requires 0 < c.inp.kvHeadNum <= c.inp.qHeadNum
      && WrittenOut(c.inp, c.exp, b, i, r, d, dots, score, num, den)
    requires Task(b, i, r / M_BLOCK_SIZE) in After(c, s, events).done
    ensures var out, first := After(c, s, events).out, Total(c.inp.tokenSizes, b);
      && first + r < |out| && 0 <= i * c.inp.headSize + d < |out[first + r]| && Sum(den, 0, r + 1) > 0.0
      && out[first + r][i * c.inp.headSize + d] == Sum(num, 0, r + 1) / Sum(den, 0, r + 1)
  {
    hide After, ExpLaws, Good, Cell, Expected, Total, WrittenOut, Fits, Start, GoodTask, Inv, c.Proper, c.Valid;
    StartIsGood(c, s);
    EveryInterleavingRight(c, s, events, b, i, r, d);
    var inp, exp, out := c.inp, c.exp, After(c, s, events).out;
    RightCellWrittenOut(out, inp, exp, b, i, r, d, dots, score, num, den);
  }

  lemma StartIsGood(c: Call, s: System)
    requires Start(c, s)
    ensures ExpLaws(c.exp) && Good(c.inp)
  {
    hide ExpLaws, Good;
  }

  /** Nobody waits for anybody: while a task is not done, some thread can make a step, or take it. */
  lemma NeverStuck(c: Call, s: System, t: Task) returns (e: Event)
    requires Inv(c, s) && 0 < c.threadNum && GoodTask(c.inp, t) && t !in s.done
    ensures Sane(c, s) && c.Proper(e) && Apply(c, s, e).pcs[e.tid] != s.pcs[e.tid]
  {
    hide ExpLaws, Good, Fits, GoodTask, ThreadOk, DoneOk, KvHead, Keys, Values, NewScores, NewOutput;
    if t in s.taken {
      assert InProgress(s, t);
      var tid: nat :| tid < |s.pcs| && !s.pcs[tid].Idle? && s.pcs[tid].t == t;
      e := Run(tid);
    } else if s.pcs[0].Idle? {
      e := Take(0, t);
    } else {
      e := Run(0);
    }
  }
}
