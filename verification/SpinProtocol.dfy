/** The leader/worker protocol of the sharded attention kernel: one thread per (batch, head, shard),
    no barrier, a leader that spins on its shards' flags and then reuses the flag slots for the revise
    factors.  One step is one access to a shared slot; any thread may take the next step.

    All heads share one array of slots.  A head is first looked at by itself, then the whole kernel is
    shown to be its heads side by side. */
module SpinProtocol {
  import ShardedAttention
  import Arith

  /** What a worker computes for itself: maximum, sum and output row of its shard. */
  datatype Stats = Stats(mx: real, sum: real, out: seq<real>)

  /** The shared slot of one shard: its entry of splitInfo and its output row in the scratch buffer. */
  datatype Slot = Slot(mx: real, sum: real, out: seq<real>, flag: real)

  /** Program counters: the four stores every task makes, then the three loops of a leader. */
  datatype Pc =
    | PutMax | PutSum | PutOut | PutFlag
    | Wait(idx: nat, realMax: real)
    | Rev(idx: nat, realMax: real, realSum: real)
    | Acc(idx: nat, realMax: real, realSum: real, acc: seq<real>)
    | Done

  function Zeros(n: nat): (z: seq<real>)
    ensures |z| == n
  {
    seq(n, _ => 0.0)
  }

  /** acc + row * factor, element by element */
  function AddScaled(acc: seq<real>, row: seq<real>, factor: real): (r: seq<real>)
    ensures |r| == |acc|
  {
    seq(|acc|, d requires 0 <= d < |acc| => if d < |row| then acc[d] + row[d] * factor else acc[d])
  }

  /** The weight of one shard in the output. */
  function Factor(revFactor: real, splitSum: real, realSum: real): real {
    if realSum == 0.0 then 0.0 else revFactor * (splitSum / realSum)
  }

  /** Which of its head's n slots shard s's thread touches next. */
  function Target(pc: Pc, s: nat, n: nat): nat {
    if (pc.Wait? || pc.Rev? || pc.Acc?) && pc.idx < n then pc.idx else s
  }

  /** One access: where the thread goes on, and what the slot it touched holds afterwards.  A leader that
      finds a flag still 0 stays where it is. */
  function Access(pc: Pc, slot: Slot, stat: Stats, exp: real -> real, leads: bool, n: nat): (Pc, Slot) {
    match pc
    case PutMax => (PutSum, slot.(mx := stat.mx))
    case PutSum => (PutOut, slot.(sum := stat.sum))
    case PutOut => (PutFlag, slot.(out := stat.out))
    case PutFlag => (if leads then Wait(1, slot.mx) else Done, slot.(flag := 1.0))
    case Wait(idx, realMax) =>
      if idx >= n then (Rev(0, realMax, 0.0), slot)
      else if slot.flag == 0.0 then (pc, slot)
      else (Wait(idx + 1, if slot.mx > realMax then slot.mx else realMax), slot)
    case Rev(idx, realMax, realSum) =>
      if idx >= n then (Acc(0, realMax, realSum, Zeros(|stat.out|)), slot)
      else
        var revFactor := exp(slot.mx - realMax);
        (Rev(idx + 1, realMax, realSum + slot.sum * revFactor), slot.(flag := revFactor))
    case Acc(idx, realMax, realSum, acc) =>
      if idx >= n then (Done, slot)
      else (Acc(idx + 1, realMax, realSum, AddScaled(acc, slot.out, Factor(slot.flag, slot.sum, realSum))), slot)
    case Done => (Done, slot)
  }

  /** The output row after an access: a leader at the end of its last loop stores it. */
  function Stored(pc: Pc, n: nat, row: seq<real>): seq<real> {
    if pc.Acc? && pc.idx >= n then pc.acc else row
  }

  // ---------- one head ----------

  /** A slot and a program counter per shard, and the row the leader stores.  Shard 0 leads. */
  datatype HeadState = HeadState(slots: seq<Slot>, pcs: seq<Pc>, result: seq<real>)

  predicate Shaped(h: HeadState, stats: seq<Stats>) {
    |h.slots| == |h.pcs| == |stats| > 0
  }

  function Step(h: HeadState, stats: seq<Stats>, exp: real -> real, s: nat): (h': HeadState)
    requires Shaped(h, stats) && s < |stats|
    ensures Shaped(h', stats)
  {
    var n, pc := |stats|, h.pcs[s];
    var at := Target(pc, s, n);
    var (pc', slot) := Access(pc, h.slots[at], stats[s], exp, s == 0, n);
    HeadState(h.slots[at := slot], h.pcs[s := pc'], Stored(pc, n, h.result))
  }

  function Start(shards: nat): HeadState {
    HeadState(seq(shards, _ => Slot(0.0, 0.0, [], 0.0)), seq(shards, _ => PutMax), [])
  }

  // ---------- what one thread alone would compute ----------

  function RefMax(stats: seq<Stats>, k: nat): real
    requires 0 < k <= |stats|
  {
    if k == 1 then stats[0].mx
    else
      var m := RefMax(stats, k - 1);
      if stats[k - 1].mx > m then stats[k - 1].mx else m
  }

  /** What the leader subtracts is the largest of the shards' maxima, so no revise factor has a positive exponent. */
  lemma {:induction false} RefMaxIsMax(stats: seq<Stats>, k: nat)
    requires 0 < k <= |stats|
    ensures forall s :: 0 <= s < k ==> stats[s].mx <= RefMax(stats, k)
    ensures exists s :: 0 <= s < k && stats[s].mx == RefMax(stats, k)
  {
    if k > 1 {
      RefMaxIsMax(stats, k - 1);
    }
    assert stats[k - 1].mx <= RefMax(stats, k);
  }

  function RefSum(stats: seq<Stats>, exp: real -> real, realMax: real, k: nat): real
    requires k <= |stats|
  {
    if k == 0 then 0.0 else RefSum(stats, exp, realMax, k - 1) + stats[k - 1].sum * exp(stats[k - 1].mx - realMax)
  }

  function RefAcc(stats: seq<Stats>, exp: real -> real, realMax: real, realSum: real, k: nat): seq<real>
    requires k <= |stats| && 0 < |stats|
  {
    if k == 0 then Zeros(|stats[0].out|)
    else
      var stat := stats[k - 1];
      AddScaled(RefAcc(stats, exp, realMax, realSum, k - 1), stat.out,
        Factor(exp(stat.mx - realMax), stat.sum, realSum))
  }

  function RefResult(stats: seq<Stats>, exp: real -> real): seq<real>
    requires 0 < |stats|
  {
    var realMax := RefMax(stats, |stats|);
    RefAcc(stats, exp, realMax, RefSum(stats, exp, realMax, |stats|), |stats|)
  }

  // ---------- the invariant ----------

  /** The thread of a shard has set its finish flag. */
  predicate Flagged(pc: Pc) {
    pc.Wait? || pc.Rev? || pc.Acc? || pc.Done?
  }

  /** The thread of a shard is in one of the leader's loops. */
  predicate Reduces(pc: Pc) {
    pc.Wait? || pc.Rev? || pc.Acc?
  }

  ghost predicate StatsOf(slot: Slot, stat: Stats) {
    slot.mx == stat.mx && slot.sum == stat.sum && slot.out == stat.out
  }

  /** A thread's own stores so far. */
  ghost predicate OwnStores(slot: Slot, stat: Stats, pc: Pc) {
    && (!pc.PutMax? ==> slot.mx == stat.mx)
    && (!pc.PutMax? && !pc.PutSum? ==> slot.sum == stat.sum)
    && (pc.PutFlag? || Flagged(pc) ==> slot.out == stat.out)
    && (!Flagged(pc) ==> slot.flag == 0.0)
  }

  ghost predicate AllFlagged(h: HeadState, n: nat)
    requires n <= |h.pcs|
  {
    forall k :: 0 <= k < n ==> Flagged(h.pcs[k])
  }

  /** The flags of the first n shards that have finished are still flags. */
  ghost predicate FlagsAreOne(h: HeadState, n: nat)
    requires n <= |h.pcs| && n <= |h.slots|
  {
    forall k :: 0 <= k < n && Flagged(h.pcs[k]) ==> h.slots[k].flag == 1.0
  }

  /** The first n flags have become revise factors. */
  ghost predicate FlagsAreFactors(h: HeadState, stats: seq<Stats>, exp: real -> real, realMax: real, n: nat)
    requires n <= |h.slots| && n <= |stats|
  {
    forall k :: 0 <= k < n ==> h.slots[k].flag == exp(stats[k].mx - realMax)
  }

  /** Where the leader is tells what the flag slots hold and what it has computed. */
  ghost predicate Leading(h: HeadState, stats: seq<Stats>, exp: real -> real)
    requires Shaped(h, stats)
  {
    var n := |stats|;
    match h.pcs[0]
    case Wait(idx, realMax) => 0 < idx <= n && FlagsAreOne(h, n) && AllFlagged(h, idx) && realMax == RefMax(stats, idx)
    case Rev(idx, realMax, realSum) =>
      && idx <= n && AllFlagged(h, n) && FlagsAreFactors(h, stats, exp, realMax, idx)
      && realMax == RefMax(stats, n) && realSum == RefSum(stats, exp, realMax, idx)
    case Acc(idx, realMax, realSum, acc) =>
      && idx <= n && AllFlagged(h, n) && FlagsAreFactors(h, stats, exp, realMax, n)
      && realMax == RefMax(stats, n) && realSum == RefSum(stats, exp, realMax, n)
      && acc == RefAcc(stats, exp, realMax, realSum, idx)
    case Done => AllFlagged(h, n) && h.result == RefResult(stats, exp)
    case _ => FlagsAreOne(h, n)
  }

  ghost predicate Inv(h: HeadState, stats: seq<Stats>, exp: real -> real) {
    && Shaped(h, stats)
    && (forall s :: 0 <= s < |stats| ==> OwnStores(h.slots[s], stats[s], h.pcs[s]))
    && (forall s :: 0 < s < |stats| ==> !Reduces(h.pcs[s]))
    && Leading(h, stats, exp)
  }

  lemma StartInv(stats: seq<Stats>, exp: real -> real)
    requires 0 < |stats|
    ensures Inv(Start(|stats|), stats, exp)
  {
  }

  lemma WorkerStepInv(h: HeadState, stats: seq<Stats>, exp: real -> real, s: nat)
    requires Inv(h, stats, exp) && 0 < s < |stats|
    ensures Inv(Step(h, stats, exp, s), stats, exp)
  {
    hide RefMax, RefSum, RefAcc, RefResult;
    assert OwnStores(h.slots[s], stats[s], h.pcs[s]);
  }

  lemma LeaderStores(h: HeadState, stats: seq<Stats>, exp: real -> real)
    requires Inv(h, stats, exp) && !Flagged(h.pcs[0])
    ensures Inv(Step(h, stats, exp, 0), stats, exp)
  {
    hide RefSum, RefAcc;
    assert OwnStores(h.slots[0], stats[0], h.pcs[0]);
  }

  lemma LeaderWaits(h: HeadState, stats: seq<Stats>, exp: real -> real)
    requires Inv(h, stats, exp) && h.pcs[0].Wait?
    ensures Inv(Step(h, stats, exp, 0), stats, exp)
  {
    hide RefSum, RefAcc;
    var idx := h.pcs[0].idx;
    if idx < |stats| {
      assert OwnStores(h.slots[idx], stats[idx], h.pcs[idx]);
    } else {
      RefStart(stats, exp, h.pcs[0].realMax, 0.0);
    }
  }

  lemma LeaderRevises(h: HeadState, stats: seq<Stats>, exp: real -> real)
    requires Inv(h, stats, exp) && h.pcs[0].Rev?
    ensures Inv(Step(h, stats, exp, 0), stats, exp)
  {
    hide RefMax, RefAcc, RefSum;
    var idx, realMax := h.pcs[0].idx, h.pcs[0].realMax;
    if idx < |stats| {
      assert OwnStores(h.slots[idx], stats[idx], h.pcs[idx]);
      RefSumNext(stats, exp, realMax, idx);
    } else {
      RefStart(stats, exp, realMax, h.pcs[0].realSum);
    }
  }

  lemma RefStart(stats: seq<Stats>, exp: real -> real, realMax: real, realSum: real)
    requires 0 < |stats|
    ensures RefSum(stats, exp, realMax, 0) == 0.0 && RefAcc(stats, exp, realMax, realSum, 0) == Zeros(|stats[0].out|)
  {
  }

  lemma RefSumNext(stats: seq<Stats>, exp: real -> real, realMax: real, k: nat)
    requires k < |stats|
    ensures RefSum(stats, exp, realMax, k + 1)
      == RefSum(stats, exp, realMax, k) + stats[k].sum * exp(stats[k].mx - realMax)
  {
  }

  lemma RefAccNext(stats: seq<Stats>, exp: real -> real, realMax: real, realSum: real, k: nat)
    requires k < |stats|
    ensures RefAcc(stats, exp, realMax, realSum, k + 1) ==
      AddScaled(RefAcc(stats, exp, realMax, realSum, k), stats[k].out,
        Factor(exp(stats[k].mx - realMax), stats[k].sum, realSum))
  {
  }

  lemma LeaderAccumulates(h: HeadState, stats: seq<Stats>, exp: real -> real)
    requires Inv(h, stats, exp) && h.pcs[0].Acc?
    ensures Inv(Step(h, stats, exp, 0), stats, exp)
  {
    hide RefMax, RefSum, RefAcc, AddScaled, Factor;
    var pc := h.pcs[0];
    if pc.idx < |stats| {
      assert OwnStores(h.slots[pc.idx], stats[pc.idx], h.pcs[pc.idx]);
      RefAccNext(stats, exp, pc.realMax, pc.realSum, pc.idx);
    }
  }

  lemma LeaderRests(h: HeadState, stats: seq<Stats>, exp: real -> real)
    requires Inv(h, stats, exp) && h.pcs[0].Done?
    ensures Step(h, stats, exp, 0) == h
  {
  }

  /** Every step of every thread keeps the invariant. */
  lemma StepInv(h: HeadState, stats: seq<Stats>, exp: real -> real, s: nat)
    requires Inv(h, stats, exp) && s < |stats|
    ensures Inv(Step(h, stats, exp, s), stats, exp)
  {
    if s > 0 {
      WorkerStepInv(h, stats, exp, s);
    } else {
      hide Step, Inv;
      match h.pcs[0]
      case Wait(_, _) => LeaderWaits(h, stats, exp);
      case Rev(_, _, _) => LeaderRevises(h, stats, exp);
      case Acc(_, _, _, _) => LeaderAccumulates(h, stats, exp);
      case Done => LeaderRests(h, stats, exp);
      case _ => LeaderStores(h, stats, exp);
    }
  }

  /** A worker's step touches its own slot only; the rest of its head stays as it is. */
  lemma WorkersKeepToTheirSlot(h: HeadState, stats: seq<Stats>, exp: real -> real, s: nat, k: nat)
    requires Inv(h, stats, exp) && 0 < s < |stats| && k < |stats| && k != s
    ensures Step(h, stats, exp, s).slots[k] == h.slots[k] && Step(h, stats, exp, s).pcs[k] == h.pcs[k]
    ensures Step(h, stats, exp, s).result == h.result
  {
    hide Leading;
  }

  // ---------- the shared array ----------

  /** Shared slots are numbered (b * heads + i) * splits + s; no two shards share a slot, every slot is
      used, and a head's slots are the run of "splits" slots its leader scans. */
  lemma SlotsOfHeads(heads: nat, splits: nat, head: nat, s: nat, head': nat, s': nat)
    requires head < heads && head' < heads && s < splits && s' < splits
    ensures 0 <= head * splits <= head * splits + s < head * splits + splits <= heads * splits
    ensures head * splits <= head' * splits + s' < head * splits + splits <==> head == head'
    ensures head * splits + s == head' * splits + s' ==> head == head' && s == s'
  {
    Arith.MulMono(0, head, splits);
    Arith.NextMultiple(head, splits);
    Arith.NextMultiple(head', splits);
    Arith.MulMono(head + 1, heads, splits);
    if head < head' {
      Arith.MulMono(head + 1, head', splits);
    } else if head' < head {
      Arith.MulMono(head' + 1, head, splits);
    }
  }

  /** With splits = threadNum / (batch * heads) there is a thread for every task, which is what lets
      every thread of the protocol move independently. */
  lemma OneThreadPerTask(batchSize: nat, heads: nat, threadNum: nat)
    requires 0 < batchSize * heads
    ensures batchSize * heads * (threadNum / (batchSize * heads)) <= threadNum
  {
  }

  /** The whole kernel: all slots in one array, all threads, and the output row of every head. */
  datatype Kernel = Kernel(slots: seq<Slot>, pcs: seq<Pc>, rows: seq<seq<real>>)

  datatype Thread = Thread(head: nat, s: nat)

  /** The heads and splits of a launch, what every shard computes for itself, and the exponential. */
  datatype Launch = Launch(heads: nat, splits: nat, stats: seq<Stats>, exp: real -> real) {
    ghost predicate Valid() {
      0 < splits && |stats| == heads * splits
    }

    predicate Has(t: Thread) {
      t.head < heads && t.s < splits
    }

    /** Thread and slot number of shard t.s of head t.head. */
    function Index(t: Thread): (i: int)
      requires Has(t)
      ensures 0 <= i < heads * splits
    {
      SlotsOfHeads(heads, splits, t.head, t.s, t.head, t.s);
      t.head * splits + t.s
    }

    ghost predicate Fits(k: Kernel) {
      |k.slots| == |k.pcs| == heads * splits && |k.rows| == heads
    }
  }

  /** The next access of a thread of the kernel. */
  function StepAll(l: Launch, k: Kernel, t: Thread): (k': Kernel)
    requires l.Valid() && l.Fits(k) && l.Has(t)
    ensures l.Fits(k')
  {
    var headStartIdx, threadIdx := l.Index(Thread(t.head, 0)), l.Index(t);
    var pc := k.pcs[threadIdx];
    var at := l.Index(Thread(t.head, Target(pc, t.s, l.splits)));
    var (pc', slot) := Access(pc, k.slots[at], l.stats[threadIdx], l.exp, t.s == 0, l.splits);
    Kernel(k.slots[at := slot], k.pcs[threadIdx := pc'], k.rows[t.head := Stored(pc, l.splits, k.rows[t.head])])
  }

  /** The part of a shared array that belongs to one head. */
  function Part<T>(a: seq<T>, heads: nat, splits: nat, head: nat): (p: seq<T>)
    requires |a| == heads * splits && head < heads && 0 < splits
    ensures |p| == splits
  {
    SlotsOfHeads(heads, splits, head, 0, head, 0);
    a[head * splits..head * splits + splits]
  }

  function HeadOf(l: Launch, k: Kernel, head: nat): HeadState
    requires l.Valid() && l.Fits(k) && head < l.heads
  {
    HeadState(Part(k.slots, l.heads, l.splits, head), Part(k.pcs, l.heads, l.splits, head), k.rows[head])
  }

  function StatsOfHead(l: Launch, head: nat): (stats: seq<Stats>)
    requires l.Valid() && head < l.heads
    ensures |stats| == l.splits
  {
    Part(l.stats, l.heads, l.splits, head)
  }

  lemma PartAt<T>(l: Launch, a: seq<T>, t: Thread)
    requires l.Valid() && |a| == l.heads * l.splits && l.Has(t)
    ensures Part(a, l.heads, l.splits, t.head)[t.s] == a[l.Index(t)]
  {
    SlotsOfHeads(l.heads, l.splits, t.head, t.s, t.head, t.s);
    SliceAt(a, t.head * l.splits, l.splits, t.s);
  }

  lemma SliceAt<T>(a: seq<T>, lo: nat, n: nat, s: nat)
    requires lo + n <= |a| && s < n
    ensures a[lo..lo + n][s] == a[lo + s]
  {
  }

  lemma PartUpdate<T>(l: Launch, a: seq<T>, t: Thread, x: T, head: nat)
    requires l.Valid() && |a| == l.heads * l.splits && l.Has(t) && head < l.heads
    ensures Part(a[l.Index(t) := x], l.heads, l.splits, head) ==
      if head == t.head then Part(a, l.heads, l.splits, head)[t.s := x] else Part(a, l.heads, l.splits, head)
  {
    var b := a[l.Index(t) := x];
    forall s | 0 <= s < l.splits
      ensures Part(b, l.heads, l.splits, head)[s] == if head == t.head && s == t.s then x
        else Part(a, l.heads, l.splits, head)[s]
    {
      PartAt(l, a, Thread(head, s));
      PartAt(l, b, Thread(head, s));
      SlotsOfHeads(l.heads, l.splits, head, s, t.head, t.s);
    }
  }

  /** Seen from any head, a step of the kernel is a step of its own thread, or nothing at all. */
  lemma StepProjects(l: Launch, k: Kernel, t: Thread, head: nat)
    requires l.Valid() && l.Fits(k) && l.Has(t) && head < l.heads
    ensures HeadOf(l, StepAll(l, k, t), head) ==
      if head == t.head then Step(HeadOf(l, k, head), StatsOfHead(l, head), l.exp, t.s) else HeadOf(l, k, head)
  {
    hide Access, Part, l.Index;
    var pc := k.pcs[l.Index(t)];
    var at := Thread(t.head, Target(pc, t.s, l.splits));
    PartAt(l, k.pcs, t);
    PartAt(l, l.stats, t);
    PartAt(l, k.slots, at);
    var next := Access(pc, k.slots[l.Index(at)], l.stats[l.Index(t)], l.exp, t.s == 0, l.splits);
    PartUpdate(l, k.slots, at, next.1, head);
    PartUpdate(l, k.pcs, t, next.0, head);
  }

  // ---------- whole runs of the kernel ----------

  ghost predicate InvAll(l: Launch, k: Kernel) {
    && l.Valid() && l.Fits(k)
    && forall head :: 0 <= head < l.heads ==> Inv(HeadOf(l, k, head), StatsOfHead(l, head), l.exp)
  }

  function StartAll(l: Launch): (k: Kernel)
    requires l.Valid()
    ensures l.Fits(k)
  {
    Kernel(seq(l.heads * l.splits, _ => Slot(0.0, 0.0, [], 0.0)), seq(l.heads * l.splits, _ => PutMax),
      seq(l.heads, _ => []))
  }

  /** Every reachable state of the whole kernel, under any interleaving of all its threads. */
  function After(l: Launch, schedule: seq<Thread>): (k: Kernel)
    requires l.Valid() && forall i :: 0 <= i < |schedule| ==> l.Has(schedule[i])
    ensures l.Fits(k)
  {
    if schedule == [] then StartAll(l)
    else
      var n := |schedule| - 1;
      StepAll(l, After(l, schedule[..n]), schedule[n])
  }

  lemma StartAllInv(l: Launch)
    requires l.Valid()
    ensures InvAll(l, StartAll(l))
  {
    hide Inv, Part, StatsOfHead;
    forall head | 0 <= head < l.heads
      ensures Inv(HeadOf(l, StartAll(l), head), StatsOfHead(l, head), l.exp)
    {
      StartInv(StatsOfHead(l, head), l.exp);
      var k := StartAll(l);
      forall s | 0 <= s < l.splits
        ensures HeadOf(l, k, head).slots[s] == Slot(0.0, 0.0, [], 0.0) && HeadOf(l, k, head).pcs[s] == PutMax
      {
        PartAt(l, k.slots, Thread(head, s));
        PartAt(l, k.pcs, Thread(head, s));
      }
      assert HeadOf(l, k, head) == Start(l.splits);
    }
  }

  lemma StepAllInv(l: Launch, k: Kernel, t: Thread)
    requires InvAll(l, k) && l.Has(t)
    ensures InvAll(l, StepAll(l, k, t))
  {
    hide Inv, Step, StepAll, HeadOf, StatsOfHead;
    forall head | 0 <= head < l.heads
      ensures Inv(HeadOf(l, StepAll(l, k, t), head), StatsOfHead(l, head), l.exp)
    {
      StepProjects(l, k, t, head);
      if head == t.head {
        StepInv(HeadOf(l, k, head), StatsOfHead(l, head), l.exp, t.s);
      }
    }
  }

  lemma {:induction false} AfterInv(l: Launch, schedule: seq<Thread>)
    requires l.Valid() && forall i :: 0 <= i < |schedule| ==> l.Has(schedule[i])
    ensures InvAll(l, After(l, schedule))
  {
    hide InvAll, StepAll, StartAll;
    if schedule == [] {
      StartAllInv(l);
    } else {
      var n := |schedule| - 1;
      AfterInv(l, schedule[..n]);
      StepAllInv(l, After(l, schedule[..n]), schedule[n]);
    }
  }

  /** The slot of its own head whose statistics or output a leader is about to use, -1 if none. */
  function Reading(h: HeadState): int
    requires 0 < |h.pcs| == |h.slots|
  {
    var pc, n := h.pcs[0], |h.slots|;
    if !Reduces(pc) || pc.idx >= n || (pc.Wait? && h.slots[pc.idx].flag == 0.0) then -1 else pc.idx
  }

  /** Under every schedule a leader only uses statistics whose owner has set its flag, and they are final. */
  lemma ReadsOnlyPublished(l: Launch, schedule: seq<Thread>, head: nat)
    requires l.Valid() && head < l.heads && forall i :: 0 <= i < |schedule| ==> l.Has(schedule[i])
    ensures var h := HeadOf(l, After(l, schedule), head); var s := Reading(h);
      0 <= s ==> s < l.splits && Flagged(h.pcs[s]) && StatsOf(h.slots[s], StatsOfHead(l, head)[s])
  {
    AfterInv(l, schedule);
    hide After, HeadOf, StatsOfHead;
    PublishedOnly(HeadOf(l, After(l, schedule), head), StatsOfHead(l, head), l.exp);
  }

  lemma PublishedOnly(h: HeadState, stats: seq<Stats>, exp: real -> real)
    requires Inv(h, stats, exp)
    ensures var s := Reading(h); 0 <= s ==> s < |stats| && Flagged(h.pcs[s]) && StatsOf(h.slots[s], stats[s])
  {
    var s := Reading(h);
    if 0 <= s {
      assert OwnStores(h.slots[s], stats[s], h.pcs[s]);
    }
  }

  /** Under every schedule a finished leader has stored what one thread alone would compute. */
  lemma EveryScheduleAgrees(l: Launch, schedule: seq<Thread>, head: nat)
    requires l.Valid() && head < l.heads && forall i :: 0 <= i < |schedule| ==> l.Has(schedule[i])
    ensures var k := After(l, schedule);
      k.pcs[l.Index(Thread(head, 0))].Done? ==> k.rows[head] == RefResult(StatsOfHead(l, head), l.exp)
  {
    AfterInv(l, schedule);
    hide After, StatsOfHead, RefResult, Inv, Part, l.Index;
    var k := After(l, schedule);
    PartAt(l, k.pcs, Thread(head, 0));
    if k.pcs[l.Index(Thread(head, 0))].Done? {
      DoneHolds(HeadOf(l, k, head), StatsOfHead(l, head), l.exp);
    }
  }

  lemma DoneHolds(h: HeadState, stats: seq<Stats>, exp: real -> real)
    requires Inv(h, stats, exp) && h.pcs[0].Done?
    ensures h.result == RefResult(stats, exp)
  {
  }

  // ---------- progress ----------

  /** A thread that is done, or finds the flag it waits for still 0, does not move. */
  predicate Spins(pc: Pc, slot: Slot, n: nat) {
    pc.Done? || (pc.Wait? && pc.idx < n && slot.flag == 0.0)
  }

  /** Accesses a thread still has to make. */
  function StepsLeft(pc: Pc, leads: bool, n: nat): int {
    var reducing := if leads then 3 * n + 2 else 0;
    match pc
    case PutMax => reducing + 4
    case PutSum => reducing + 3
    case PutOut => reducing + 2
    case PutFlag => reducing + 1
    case Wait(idx, _) => 3 * n + 3 - idx
    case Rev(idx, _, _) => 2 * n + 2 - idx
    case Acc(idx, _, _, _) => n + 1 - idx
    case Done => 0
  }

  /** A counter a thread can have: only leaders reduce, and they stay within the n shards. */
  predicate Sane(pc: Pc, leads: bool, n: nat) {
    Reduces(pc) ==> leads && pc.idx <= n
  }

  /** One access is one less to make, unless the thread spins. */
  lemma AccessCounts(pc: Pc, slot: Slot, stat: Stats, exp: real -> real, leads: bool, n: nat)
    requires Sane(pc, leads, n) && 0 < n
    ensures 0 <= StepsLeft(pc, leads, n) && (StepsLeft(pc, leads, n) == 0 <==> pc.Done?)
    ensures if Spins(pc, slot, n) then Access(pc, slot, stat, exp, leads, n) == (pc, slot)
      else StepsLeft(Access(pc, slot, stat, exp, leads, n).0, leads, n) == StepsLeft(pc, leads, n) - 1
  {
  }

  /** Accesses the first m threads still have to make. */
  function Measure(pcs: seq<Pc>, splits: nat, m: nat): int
    requires 0 < splits && m <= |pcs|
  {
    if m == 0 then 0 else Measure(pcs, splits, m - 1) + StepsLeft(pcs[m - 1], (m - 1) % splits == 0, splits)
  }

  lemma {:induction false} MeasureUpdate(pcs: seq<Pc>, splits: nat, m: nat, i: nat, pc: Pc)
    requires 0 < splits && m <= |pcs| && i < |pcs|
    ensures Measure(pcs[i := pc], splits, m) == Measure(pcs, splits, m)
      + if i < m then StepsLeft(pc, i % splits == 0, splits) - StepsLeft(pcs[i], i % splits == 0, splits) else 0
  {
    hide StepsLeft;
    if m > 0 {
      MeasureUpdate(pcs, splits, m - 1, i, pc);
    }
  }

  function Left(l: Launch, k: Kernel): int
    requires l.Valid() && l.Fits(k)
  {
    Measure(k.pcs, l.splits, l.heads * l.splits)
  }

  /** The slot a thread is about to touch. */
  function Touched(l: Launch, k: Kernel, t: Thread): Slot
    requires l.Valid() && l.Fits(k) && l.Has(t)
  {
    k.slots[l.Index(Thread(t.head, Target(k.pcs[l.Index(t)], t.s, l.splits)))]
  }

  predicate SpinsAt(l: Launch, k: Kernel, t: Thread)
    requires l.Valid() && l.Fits(k) && l.Has(t)
  {
    Spins(k.pcs[l.Index(t)], Touched(l, k, t), l.splits)
  }

  lemma ThreadIsSane(l: Launch, k: Kernel, t: Thread)
    requires InvAll(l, k) && l.Has(t)
    ensures Sane(k.pcs[l.Index(t)], t.s == 0, l.splits) && (l.Index(t) % l.splits == 0 <==> t.s == 0)
  {
    PartAt(l, k.pcs, t);
    Arith.DivMod(t.head, l.splits, t.s);
    assert Inv(HeadOf(l, k, t.head), StatsOfHead(l, t.head), l.exp);
  }

  /** A step that is a spin changes nothing; every other step leaves one access less to make, over all
      threads of all heads. */
  lemma StepsCount(l: Launch, k: Kernel, t: Thread)
    requires InvAll(l, k) && l.Has(t)
    ensures if SpinsAt(l, k, t) then StepAll(l, k, t) == k else Left(l, StepAll(l, k, t)) == Left(l, k) - 1
  {
    ThreadIsSane(l, k, t);
    hide InvAll, Access, l.Index, Measure, StepsLeft;
    var pc, slot := k.pcs[l.Index(t)], Touched(l, k, t);
    var next := Access(pc, slot, l.stats[l.Index(t)], l.exp, t.s == 0, l.splits);
    AccessCounts(pc, slot, l.stats[l.Index(t)], l.exp, t.s == 0, l.splits);
    MeasureUpdate(k.pcs, l.splits, l.heads * l.splits, l.Index(t), next.0);
  }

  /** Steps of a schedule that are not spins. */
  function Productive(l: Launch, schedule: seq<Thread>): nat
    requires l.Valid() && forall i :: 0 <= i < |schedule| ==> l.Has(schedule[i])
  {
    if schedule == [] then 0
    else
      var n := |schedule| - 1;
      Productive(l, schedule[..n]) + if SpinsAt(l, After(l, schedule[..n]), schedule[n]) then 0 else 1
  }

  /** What a launch has to do: 3 * splits + 6 accesses of every leader, 4 of every other thread. */
  lemma {:induction false} StartMeasure(l: Launch, head: nat, s: nat)
    requires l.Valid() && s <= l.splits && head * l.splits + s <= l.heads * l.splits
    ensures Measure(StartAll(l).pcs, l.splits, head * l.splits + s) ==
      head * (7 * l.splits + 2) + if s == 0 then 0 else 3 * l.splits + 2 + 4 * s
    decreases head, s
  {
    var pcs, n := StartAll(l).pcs, l.splits;
    if s > 0 {
      StartMeasure(l, head, s - 1);
      Arith.DivMod(head, n, s - 1);
    } else if head > 0 {
      Arith.NextMultiple(head - 1, n);
      StartMeasure(l, head - 1, n);
      Arith.NextMultiple(head - 1, 7 * n + 2);
    }
  }

  /** Under every schedule the steps made so far, spins aside, and the accesses left add up to the same
      total: no schedule makes more, and one that has made them all is finished. */
  lemma {:induction false} WorkConserved(l: Launch, schedule: seq<Thread>)
    requires l.Valid() && forall i :: 0 <= i < |schedule| ==> l.Has(schedule[i])
    ensures Productive(l, schedule) + Left(l, After(l, schedule)) == l.heads * (7 * l.splits + 2)
  {
    hide StepAll, Left, SpinsAt, InvAll;
    if schedule == [] {
      StartLeft(l);
    } else {
      var n := |schedule| - 1;
      WorkConserved(l, schedule[..n]);
      AfterInv(l, schedule[..n]);
      StepsCount(l, After(l, schedule[..n]), schedule[n]);
    }
  }

  lemma StartLeft(l: Launch)
    requires l.Valid()
    ensures Left(l, StartAll(l)) == l.heads * (7 * l.splits + 2)
  {
    hide Measure;
    StartMeasure(l, l.heads, 0);
  }

  ghost predicate Finished(k: Kernel) {
    forall i :: 0 <= i < |k.pcs| ==> k.pcs[i].Done?
  }

  lemma {:induction false} NothingLeft(l: Launch, k: Kernel, m: nat)
    requires InvAll(l, k) && m <= l.heads * l.splits
    ensures 0 <= Measure(k.pcs, l.splits, m)
    ensures Measure(k.pcs, l.splits, m) == 0 <==> forall i :: 0 <= i < m ==> k.pcs[i].Done?
  {
    if m > 0 {
      NothingLeft(l, k, m - 1);
      Arith.DivBounds(m - 1, l.splits, l.heads);
      var t := Thread((m - 1) / l.splits, (m - 1) % l.splits);
      ThreadIsSane(l, k, t);
      hide InvAll;
      assert l.Index(t) == m - 1;
      AccessCounts(k.pcs[m - 1], k.slots[m - 1], l.stats[m - 1], l.exp, t.s == 0, l.splits);
    }
  }

  /** Nobody is blocked for good: until a head is finished, one of its threads can make a step that is
      not a spin. */
  lemma NeverStuck(h: HeadState, stats: seq<Stats>, exp: real -> real) returns (s: nat)
    requires Inv(h, stats, exp) && exists k :: 0 <= k < |stats| && !h.pcs[k].Done?
    ensures s < |stats| && !Spins(h.pcs[s], h.slots[Target(h.pcs[s], s, |stats|)], |stats|)
  {
    if worker :| 0 < worker < |stats| && !h.pcs[worker].Done? {
      s := worker;
    } else {
      s := 0;
      assert !h.pcs[0].Done?;
      if h.pcs[0].Wait? && h.pcs[0].idx < |stats| {
        assert h.pcs[h.pcs[0].idx].Done?;
      }
    }
  }

  lemma SomeoneMoves(l: Launch, k: Kernel) returns (t: Thread)
    requires InvAll(l, k) && !Finished(k)
    ensures l.Has(t) && !SpinsAt(l, k, t)
  {
    var i: nat :| i < |k.pcs| && !k.pcs[i].Done?;
    Arith.DivBounds(i, l.splits, l.heads);
    var head, r := i / l.splits, i % l.splits;
    assert l.Index(Thread(head, r)) == i;
    PartAt(l, k.pcs, Thread(head, r));
    hide Part, Inv, l.Index;
    var h := HeadOf(l, k, head);
    var s := NeverStuck(h, StatsOfHead(l, head), l.exp);
    t := Thread(head, s);
    PartAt(l, k.pcs, t);
    PartAt(l, k.slots, Thread(head, Target(h.pcs[s], s, l.splits)));
  }

  /** Whatever the interleaving: the work done and the work left add up; while any is left some thread
      can move on; and when none is left every head holds the result of merging its shards in order. */
  lemma KernelProtocol(l: Launch, schedule: seq<Thread>)
    requires l.Valid() && forall i :: 0 <= i < |schedule| ==> l.Has(schedule[i])
    ensures var k := After(l, schedule); var left := Left(l, k);
      && 0 <= left && Productive(l, schedule) + left == l.heads * (7 * l.splits + 2)
      && (left > 0 ==> exists t: Thread :: l.Has(t) && !SpinsAt(l, k, t))
      && (left == 0 ==> forall head :: 0 <= head < l.heads ==> k.rows[head] == RefResult(StatsOfHead(l, head), l.exp))
  {
    WorkConserved(l, schedule);
    AfterInv(l, schedule);
    hide After, RefResult, StatsOfHead, InvAll, Measure, SpinsAt;
    var k := After(l, schedule);
    NothingLeft(l, k, l.heads * l.splits);
    if Left(l, k) == 0 {
      forall head | 0 <= head < l.heads
        ensures k.rows[head] == RefResult(StatsOfHead(l, head), l.exp)
      {
        EveryScheduleAgrees(l, schedule, head);
      }
    } else {
      var t := SomeoneMoves(l, k);
    }
  }

  // ---------- the protocol computes attention ----------

  /** The statistics the workers of one head publish: worker s owns the keys from Cut(s) to Cut(s + 1) and
      subtracts m(s). */
  function ShardStats(exp: real -> real, h: ShardedAttention.Head, m: int -> real, splits: nat, s: nat): (stat: Stats)
    requires ShardedAttention.ExpLaws(exp) && s < splits
    ensures |stat.out| == h.headSize
  {
    var n := |h.keys|;
    ShardedAttention.BalanceTiles(n, splits, s);
    var z, lo, hi :=
      ShardedAttention.Score(h), ShardedAttention.Cut(n, splits, s), ShardedAttention.Cut(n, splits, s + 1);
    Stats(m(s), ShardedAttention.ExpSum(exp, z, m(s), lo, hi),
          seq(h.headSize, d requires 0 <= d < h.headSize =>
            ShardedAttention.ShardOut(exp, z, ShardedAttention.Value(h, d), m(s), lo, hi)))
  }

  /** The launch's statistics for one head are those its workers compute. */
  ghost predicate Publishes(stats: seq<Stats>, exp: real -> real, h: ShardedAttention.Head, m: int -> real)
    requires ShardedAttention.ExpLaws(exp)
  {
    forall s :: 0 <= s < |stats| ==> stats[s] == ShardStats(exp, h, m, |stats|, s)
  }

  lemma StatIs(stats: seq<Stats>, exp: real -> real, h: ShardedAttention.Head, m: int -> real, s: nat)
    requires ShardedAttention.ExpLaws(exp) && s < |stats| && Publishes(stats, exp, h, m)
    ensures var lo, hi := ShardedAttention.Cut(|h.keys|, |stats|, s), ShardedAttention.Cut(|h.keys|, |stats|, s + 1);
      && lo <= hi && stats[s].mx == m(s) && |stats[s].out| == h.headSize
      && stats[s].sum == ShardedAttention.ExpSum(exp, ShardedAttention.Score(h), m(s), lo, hi)
  {
    hide ShardedAttention.ExpLaws, ShardedAttention.Cut, ShardedAttention.ExpSum, ShardedAttention.ShardOut;
    hide ShardedAttention.Balance211, ShardedAttention.Score, ShardedAttention.Value;
    ShardedAttention.BalanceTiles(|h.keys|, |stats|, s);
    assert stats[s] == ShardStats(exp, h, m, |stats|, s);
  }

  lemma OutIs(stats: seq<Stats>, exp: real -> real, h: ShardedAttention.Head, m: int -> real, s: nat, d: nat)
    requires ShardedAttention.ExpLaws(exp) && s < |stats| && Publishes(stats, exp, h, m) && d < h.headSize
    ensures var lo, hi := ShardedAttention.Cut(|h.keys|, |stats|, s), ShardedAttention.Cut(|h.keys|, |stats|, s + 1);
      && lo <= hi && d < |stats[s].out|
      && stats[s].out[d]
        == ShardedAttention.ShardOut(exp, ShardedAttention.Score(h), ShardedAttention.Value(h, d), m(s), lo, hi)
  {
    hide ShardedAttention.ExpLaws, ShardedAttention.Cut, ShardedAttention.ExpSum, ShardedAttention.ShardOut;
    hide ShardedAttention.Balance211, ShardedAttention.Score, ShardedAttention.Value;
    ShardedAttention.BalanceTiles(|h.keys|, |stats|, s);
    assert stats[s] == ShardStats(exp, h, m, |stats|, s);
  }

  lemma AddScaledAt(acc: seq<real>, row: seq<real>, factor: real, d: nat)
    requires d < |acc| && d < |row|
    ensures AddScaled(acc, row, factor)[d] == acc[d] + row[d] * factor
  {
  }

  lemma {:induction false} RefSumIsRealSum(stats: seq<Stats>, exp: real -> real, h: ShardedAttention.Head,
                                           m: int -> real, realMax: real, k: nat)
    requires ShardedAttention.ExpLaws(exp) && k <= |stats| && 0 < |stats| && Publishes(stats, exp, h, m)
    ensures RefSum(stats, exp, realMax, k)
      == ShardedAttention.RealSum(exp, ShardedAttention.Score(h), m, realMax, |h.keys|, |stats|, k)
  {
    hide ShardedAttention.ExpLaws, ShardedAttention.Cut, ShardedAttention.ExpSum, ShardedAttention.Score;
    hide ShardedAttention.Balance211, Publishes;
    if k > 0 {
      RefSumIsRealSum(stats, exp, h, m, realMax, k - 1);
      hide ShardedAttention.RealSum;
      StatIs(stats, exp, h, m, k - 1);
      ShardedAttention.RealSumNext(exp, ShardedAttention.Score(h), m, realMax, |h.keys|, |stats|, k - 1);
    }
  }

  lemma {:induction false} RefAccLength(stats: seq<Stats>, exp: real -> real, realMax: real, realSum: real, k: nat)
    requires k <= |stats| && 0 < |stats|
    ensures |RefAcc(stats, exp, realMax, realSum, k)| == |stats[0].out|
  {
    if k > 0 {
      RefAccLength(stats, exp, realMax, realSum, k - 1);
    }
  }

  lemma {:induction false} RefAccIsMerged(stats: seq<Stats>, exp: real -> real, h: ShardedAttention.Head,
                                          m: int -> real, realMax: real, realSum: real, k: nat, d: nat)
    requires ShardedAttention.ExpLaws(exp) && k <= |stats| && 0 < |stats| && Publishes(stats, exp, h, m)
    requires realSum > 0.0 && d < h.headSize
    ensures d < |RefAcc(stats, exp, realMax, realSum, k)|
    ensures RefAcc(stats, exp, realMax, realSum, k)[d] ==
      ShardedAttention.Merged(exp, ShardedAttention.Score(h), ShardedAttention.Value(h, d), m, realMax, realSum,
        |h.keys|, |stats|, k)
  {
    hide ShardedAttention.ExpLaws, ShardedAttention.Cut, ShardedAttention.Balance211, Publishes, AddScaled, RefAcc,
      ShardedAttention.Merged;
    RefAccLength(stats, exp, realMax, realSum, k);
    StatIs(stats, exp, h, m, 0);
    if k == 0 {
      RefStart(stats, exp, realMax, realSum);
      ShardedAttention.MergedNext(exp, ShardedAttention.Score(h), ShardedAttention.Value(h, d), m, realMax, realSum,
        |h.keys|, |stats|, 0);
    } else {
      RefAccIsMerged(stats, exp, h, m, realMax, realSum, k - 1, d);
      RefAccNext(stats, exp, realMax, realSum, k - 1);
      MergeColumn(stats, exp, h, m, realMax, realSum, k - 1, d, RefAcc(stats, exp, realMax, realSum, k - 1));
    }
  }

  /** One shard more, in one column. */
  lemma MergeColumn(stats: seq<Stats>, exp: real -> real, h: ShardedAttention.Head, m: int -> real,
                    realMax: real, realSum: real, k: nat, d: nat, acc: seq<real>)
    requires ShardedAttention.ExpLaws(exp) && k < |stats| && Publishes(stats, exp, h, m)
    requires realSum > 0.0 && d < h.headSize && d < |acc|
    requires acc[d]
      == ShardedAttention.Merged(exp, ShardedAttention.Score(h), ShardedAttention.Value(h, d), m, realMax, realSum,
      |h.keys|, |stats|, k)
    ensures AddScaled(acc, stats[k].out, Factor(exp(stats[k].mx - realMax), stats[k].sum, realSum))[d] ==
      ShardedAttention.Merged(exp, ShardedAttention.Score(h), ShardedAttention.Value(h, d), m, realMax, realSum,
        |h.keys|, |stats|, k + 1)
  {
    hide ShardedAttention.ExpLaws, ShardedAttention.Cut, ShardedAttention.ExpSum, ShardedAttention.ShardOut,
      ShardedAttention.Merged;
    hide ShardedAttention.Balance211, ShardedAttention.Score, ShardedAttention.Value, Publishes, AddScaled, Factor;
    var stat := stats[k];
    StatIs(stats, exp, h, m, k);
    OutIs(stats, exp, h, m, k, d);
    AddScaledAt(acc, stat.out, Factor(exp(stat.mx - realMax), stat.sum, realSum), d);
    FactorIs(exp(stat.mx - realMax), stat.sum, realSum);
    ShardedAttention.MergedNext(exp, ShardedAttention.Score(h), ShardedAttention.Value(h, d), m, realMax, realSum,
      |h.keys|, |stats|, k);
  }

  lemma FactorIs(revFactor: real, splitSum: real, realSum: real)
    requires realSum > 0.0
    ensures Factor(revFactor, splitSum, realSum) == revFactor * (splitSum / realSum)
  {
  }

  lemma ResultLength(stats: seq<Stats>, exp: real -> real, h: ShardedAttention.Head, m: int -> real)
    requires ShardedAttention.ExpLaws(exp) && 0 < |stats| && Publishes(stats, exp, h, m)
    ensures |RefResult(stats, exp)| == h.headSize
  {
    hide ShardedAttention.ExpLaws, RefSum, RefMax, RefAcc, Publishes;
    StatIs(stats, exp, h, m, 0);
    var realMax := RefMax(stats, |stats|);
    RefAccLength(stats, exp, realMax, RefSum(stats, exp, realMax, |stats|), |stats|);
  }

  /** Merging the shards of one head in order gives plain attention over all its keys, in every column. */
  lemma MergeIsAttention(stats: seq<Stats>, exp: real -> real, h: ShardedAttention.Head, m: int -> real)
    requires ShardedAttention.ExpLaws(exp) && 0 < |stats| && 0 < |h.keys| && Publishes(stats, exp, h, m)
    ensures |RefResult(stats, exp)| == h.headSize
    ensures forall d :: 0 <= d < h.headSize ==>
      RefResult(stats, exp)[d]
        == ShardedAttention.Attention(exp, ShardedAttention.Score(h), ShardedAttention.Value(h, d), |h.keys|)
  {
    hide ShardedAttention.ExpLaws, ShardedAttention.Attention, ShardedAttention.Merged, ShardedAttention.RealSum;
    hide ShardedAttention.Score, ShardedAttention.Value, Publishes, RefMax, RefSum, RefAcc;
    ResultLength(stats, exp, h, m);
    var realMax, splits, z := RefMax(stats, |stats|), |stats|, ShardedAttention.Score(h);
    RefSumIsRealSum(stats, exp, h, m, realMax, splits);
    forall d | 0 <= d < h.headSize
      ensures RefResult(stats, exp)[d] == ShardedAttention.Attention(exp, z, ShardedAttention.Value(h, d), |h.keys|)
    {
      ShardedAttention.ShardedIsAttention(exp, z, ShardedAttention.Value(h, d), m, realMax, |h.keys|, splits);
      RefAccIsMerged(stats, exp, h, m, realMax, RefSum(stats, exp, realMax, splits), splits, d);
    }
  }

  /** Under every interleaving of all threads of all heads, every head whose leader is done holds plain
      attention over all its keys, in every column. */
  lemma EveryScheduleGivesAttention(l: Launch, hs: seq<ShardedAttention.Head>, m: seq<int -> real>,
                                    schedule: seq<Thread>, head: nat)
    requires l.Valid() && |hs| == |m| == l.heads && head < l.heads && ShardedAttention.ExpLaws(l.exp)
    requires forall i :: 0 <= i < |schedule| ==> l.Has(schedule[i])
    requires forall i :: 0 <= i < |hs| ==> 0 < |hs[i].keys| && Publishes(StatsOfHead(l, i), l.exp, hs[i], m[i])
    ensures var k, h := After(l, schedule), hs[head];
      k.pcs[l.Index(Thread(head, 0))].Done? ==>
        && |k.rows[head]| == h.headSize
        && forall d :: 0 <= d < h.headSize ==>
          k.rows[head][d]
          == ShardedAttention.Attention(l.exp, ShardedAttention.Score(h), ShardedAttention.Value(h, d), |h.keys|)
  {
    hide After, RefResult, Publishes, ShardedAttention.ExpLaws, ShardedAttention.Attention, StatsOfHead;
    EveryScheduleAgrees(l, schedule, head);
    MergeIsAttention(StatsOfHead(l, head), l.exp, hs[head], m[head]);
  }
}
