/** The in-place gather of one sequence position, as a machine over rows.

    KVCacheTensor.reorder walks the beams once.  Row i must receive the old row idx[i], while rows it
    overwrites may still be wanted later; a table "remapped" says where every pending source sits now:
    a non-negative entry names a row, a negative entry r names slot r + |rows| of the spill buffer.

    The machine is generic in the row type.  Run on row NUMBERS it is a plan: which old row sits
    where, whatever the rows contain.  Run on row CONTENTS it is what the tensor does. */
module ReorderPlan {

  datatype Machine<R> = Machine(rows: seq<R>, spill: seq<R>, remap: seq<int>)

  predicate Wanted(remap: seq<int>, from: nat, row: int) {
    exists k :: from <= k < |remap| && remap[k] == row
  }

  /** std::replace on remap[from..] */
  function Replace(remap: seq<int>, from: nat, oldName: int, newName: int): (r: seq<int>)
    ensures |r| == |remap|
    ensures forall k :: 0 <= k < |r| ==> r[k] == (if from <= k && remap[k] == oldName then newName else remap[k])
  {
    seq(|remap|, k requires 0 <= k < |remap| => if from <= k && remap[k] == oldName then newName else remap[k])
  }

  /** The std::transform of the swap case: names a and b change places in remap[from..]. */
  function Exchange(remap: seq<int>, from: nat, a: int, b: int): (r: seq<int>)
    ensures |r| == |remap|
    ensures forall k :: 0 <= k < |r| ==>
      r[k] == (if from <= k && remap[k] == a then b else if from <= k && remap[k] == b then a else remap[k])
  {
    seq(|remap|, k requires 0 <= k < |remap| =>
      if from <= k && remap[k] == a then b else if from <= k && remap[k] == b then a else remap[k])
  }

  predicate GoodName<R>(m: Machine<R>, name: int) {
    -|m.rows| <= name < |m.rows| && (name < 0 ==> name + |m.rows| < |m.spill|)
  }

  ghost predicate WellFormed<R>(m: Machine<R>, i: nat) {
    && |m.remap| == |m.rows|
    && i <= |m.rows|
    && |m.spill| <= i
    && forall k :: i <= k < |m.remap| ==> GoodName(m, m.remap[k])
  }

  /** The row a name stands for. */
  function At<R>(m: Machine<R>, name: int): R
    requires GoodName(m, name)
  {
    if name < 0 then m.spill[name + |m.rows|] else m.rows[name]
  }

  predicate Swaps(remap: seq<int>, i: nat)
    requires i < |remap|
  {
    i < remap[i] < |remap| && remap[remap[i]] == i
  }

  /** Save row i in the spill buffer if a later beam still wants it. */
  function Save<R>(m: Machine<R>, i: nat): Machine<R>
    requires i < |m.rows|
  {
    if Wanted(m.remap, i + 1, i)
    then Machine(m.rows, m.spill + [m.rows[i]], Replace(m.remap, i + 1, i, |m.spill| - |m.rows|))
    else m
  }

  /** A copy that is skipped when "same" holds of destination and source. */
  function Copied<R>(same: (R, R) -> bool, dst: R, src: R): R {
    if same(dst, src) then dst else src
  }

  /** Rows i and m.remap[i] want each other's contents: exchange them, names and all. */
  function SwapStep<R>(m: Machine<R>, i: nat): Machine<R>
    requires |m.remap| == |m.rows| && i < |m.rows| && Swaps(m.remap, i)
  {
    var from := m.remap[i];
    Machine(m.rows[i := m.rows[from]][from := m.rows[i]], m.spill, Exchange(m.remap, i + 1, i, from))
  }

  /** Row i receives "row", which sits where the name "from" leads; later beams find it in row i. */
  function Put<R>(m: Machine<R>, i: nat, from: int, row: R): Machine<R>
    requires i < |m.rows|
  {
    Machine(m.rows[i := row], m.spill, if from > i then Replace(m.remap, i + 1, from, i) else m.remap)
  }

  function Step<R>(m: Machine<R>, i: nat, same: (R, R) -> bool): Machine<R>
    requires WellFormed(m, i) && i < |m.rows|
  {
    var from := m.remap[i];
    if from == i then m
    else if Swaps(m.remap, i) then SwapStep(m, i)
    else Put(Save(m, i), i, from, Copied(same, m.rows[i], At(m, from)))
  }

  lemma SaveWellFormed<R>(m: Machine<R>, i: nat)
    requires WellFormed(m, i) && i < |m.rows|
    ensures WellFormed(Save(m, i), i + 1) && |Save(m, i).rows| == |m.rows|
  {
    hide Wanted;
  }

  lemma PutWellFormed<R>(s: Machine<R>, i: nat, from: int, row: R)
    requires WellFormed(s, i + 1)
    ensures WellFormed(Put(s, i, from, row), i + 1) && |Put(s, i, from, row).rows| == |s.rows|
  {
  }

  lemma StepWellFormed<R>(m: Machine<R>, i: nat, same: (R, R) -> bool)
    requires WellFormed(m, i) && i < |m.rows|
    ensures WellFormed(Step(m, i, same), i + 1)
    ensures |Step(m, i, same).rows| == |m.rows|
  {
    var from := m.remap[i];
    if from != i && !Swaps(m.remap, i) {
      SaveWellFormed(m, i);
      PutWellFormed(Save(m, i), i, from, Copied(same, m.rows[i], At(m, from)));
      hide Save, Put, WellFormed;
    }
  }

  predicate GoodIndex(idx: seq<int>) {
    forall k :: 0 <= k < |idx| ==> 0 <= idx[k] < |idx|
  }

  lemma StartWellFormed<R>(rows: seq<R>, idx: seq<int>)
    requires GoodIndex(idx) && |rows| == |idx|
    ensures WellFormed(Machine(rows, [], idx), 0)
  {
  }

  function Run<R>(rows: seq<R>, idx: seq<int>, n: nat, same: (R, R) -> bool): (m: Machine<R>)
    requires GoodIndex(idx) && |rows| == |idx| && n <= |idx|
    ensures WellFormed(m, n) && |m.rows| == |idx|
  {
    hide WellFormed, GoodIndex, Step;
    if n == 0 then
      StartWellFormed(rows, idx);
      Machine(rows, [], idx)
    else
      var m := Run(rows, idx, n - 1, same);
      StepWellFormed(m, n - 1, same);
      Step(m, n - 1, same)
  }

  // ---------- the plan: the machine on row numbers ----------

  /** Row numbers are always copied. */
  predicate NeverSame(dst: int, src: int) {
    false
  }

  function Plan(idx: seq<int>, n: nat): (m: Machine<int>)
    requires GoodIndex(idx) && n <= |idx|
    ensures WellFormed(m, n) && |m.rows| == |idx|
  {
    Run(seq(|idx|, k => k), idx, n, NeverSame)
  }

  /** The location invariant: settled rows hold what was asked for, and every pending name leads to
      the old row its beam asked for. */
  ghost predicate Located(m: Machine<int>, idx: seq<int>, i: nat) {
    && WellFormed(m, i)
    && |m.rows| == |idx|
    && (forall k :: 0 <= k < i ==> m.rows[k] == idx[k])
    && (forall k :: i <= k < |idx| ==> At(m, m.remap[k]) == idx[k])
  }

  /** What a step must do for the beams behind it: their names still lead to the same rows. */
  ghost predicate KeepsPending<R>(m: Machine<R>, m': Machine<R>, i: nat) {
    && WellFormed(m, i) && WellFormed(m', i) && |m'.rows| == |m.rows|
    && (forall k :: i < k < |m.rows| ==> At(m', m'.remap[k]) == At(m, m.remap[k]))
  }

  lemma SwapPending<R>(m: Machine<R>, i: nat)
    requires WellFormed(m, i) && i < |m.rows| && Swaps(m.remap, i)
    ensures KeepsPending(m, SwapStep(m, i), i)
  {
  }

  /** Once row i is saved nobody wants row i itself any more. */
  lemma SavePending<R>(m: Machine<R>, i: nat)
    requires WellFormed(m, i) && i < |m.rows|
    ensures |Save(m, i).remap| == |m.rows|
    ensures forall k :: i < k < |m.rows| ==>
      var name := Save(m, i).remap[k];
      name != i && GoodName(Save(m, i), name) && At(Save(m, i), name) == At(m, m.remap[k])
  {
  }

  lemma PutPending<R>(m: Machine<R>, s: Machine<R>, i: nat, from: int, row: R, k: nat)
    requires |s.remap| == |m.rows| == |s.rows| && i < k < |m.rows|
    requires GoodName(s, s.remap[k]) && s.remap[k] != i
    requires from > i ==> GoodName(s, from) && At(s, from) == row
    ensures GoodName(Put(s, i, from, row), Put(s, i, from, row).remap[k])
    ensures At(Put(s, i, from, row), Put(s, i, from, row).remap[k]) == At(s, s.remap[k])
  {
  }

  lemma StepLocated(m: Machine<int>, idx: seq<int>, i: nat)
    requires Located(m, idx, i) && i < |idx|
    ensures Located(Step(m, i, NeverSame), idx, i + 1)
  {
    StepWellFormed(m, i, NeverSame);
    var from := m.remap[i];
    if from == i {
    } else if Swaps(m.remap, i) {
      SwapPending(m, i);
      assert SwapStep(m, i).rows[i] == idx[i];
    } else {
      CopyLocated(m, idx, i);
    }
  }

  lemma CopyLocated(m: Machine<int>, idx: seq<int>, i: nat)
    requires Located(m, idx, i) && i < |idx| && m.remap[i] != i && !Swaps(m.remap, i)
    ensures Located(Step(m, i, NeverSame), idx, i + 1)
  {
    StepWellFormed(m, i, NeverSame);
    SavePending(m, i);
    var s, from, row := Save(m, i), m.remap[i], At(m, m.remap[i]);
    assert s.rows == m.rows;
    hide Save, WellFormed;
    var m' := Put(s, i, from, row);
    assert m' == Step(m, i, NeverSame);
    forall k | i < k < |idx|
      ensures At(m', m'.remap[k]) == idx[k]
    {
      PutPending(m, s, i, from, row, k);
    }
  }

  lemma RunNext<R>(rows: seq<R>, idx: seq<int>, n: nat, same: (R, R) -> bool)
    requires GoodIndex(idx) && |rows| == |idx| && n < |idx|
    ensures Run(rows, idx, n + 1, same) == Step(Run(rows, idx, n, same), n, same)
  {
  }

  lemma PlanNext(idx: seq<int>, n: nat)
    requires GoodIndex(idx) && n < |idx|
    ensures Plan(idx, n + 1) == Step(Plan(idx, n), n, NeverSame)
  {
    RunNext(seq(|idx|, k => k), idx, n, NeverSame);
  }

  /** For every index vector, repeats allowed, the plan puts old row idx[k] at row k. */
  lemma {:induction false} PlanLocated(idx: seq<int>, n: nat)
    requires GoodIndex(idx) && n <= |idx|
    ensures Located(Plan(idx, n), idx, n)
  {
    hide Step;
    if n > 0 {
      PlanLocated(idx, n - 1);
      PlanNext(idx, n - 1);
      StepLocated(Plan(idx, n - 1), idx, n - 1);
    }
  }

  /** The spill buffer never holds more than |idx| - 1 rows. */
  lemma {:induction false} SpillBound<R>(rows: seq<R>, idx: seq<int>, n: nat, same: (R, R) -> bool)
    requires GoodIndex(idx) && |rows| == |idx| && 0 < |idx| && n <= |idx|
    ensures |Run(rows, idx, n, same).spill| <= |idx| - 1
  {
    if n > 0 {
      SpillBound(rows, idx, n - 1, same);
      var m := Run(rows, idx, n - 1, same);
      assert n == |idx| ==> !Wanted(m.remap, n, n - 1);
    }
  }

  // ---------- the machine on row contents follows the plan ----------

  predicate SameNames<R, S>(m: Machine<R>, p: Machine<S>) {
    |m.rows| == |p.rows| && m.remap == p.remap && |m.spill| == |p.spill|
  }

  lemma SaveSameNames<R, S>(m: Machine<R>, p: Machine<S>, i: nat)
    requires i < |m.rows| && SameNames(m, p)
    ensures SameNames(Save(m, i), Save(p, i))
  {
  }

  lemma StepSameNames<R, S>(m: Machine<R>, p: Machine<S>, i: nat, f: (R, R) -> bool, g: (S, S) -> bool)
    requires WellFormed(m, i) && WellFormed(p, i) && i < |m.rows|
    requires SameNames(m, p)
    ensures SameNames(Step(m, i, f), Step(p, i, g))
  {
    SaveSameNames(m, p, i);
    hide WellFormed, Save;
  }

  /** Names and spill sizes do not depend on the contents nor on skipped copies. */
  lemma {:induction false} RunSameNames<R>(rows: seq<R>, idx: seq<int>, n: nat, same: (R, R) -> bool)
    requires GoodIndex(idx) && |rows| == |idx| && n <= |idx|
    ensures SameNames(Run(rows, idx, n, same), Plan(idx, n))
  {
    hide Step;
    if n > 0 {
      RunSameNames(rows, idx, n - 1, same);
      RunNext(rows, idx, n - 1, same);
      PlanNext(idx, n - 1);
      StepSameNames(Run(rows, idx, n - 1, same), Plan(idx, n - 1), n - 1, same, NeverSame);
    }
  }

  /** Which old row sits in row i when its turn comes; a function of idx alone. */
  function Occupant(idx: seq<int>, i: nat): (o: int)
    requires GoodIndex(idx) && i < |idx|
    ensures 0 <= o < |idx|
  {
    PlanRange(idx, i);
    Plan(idx, i).rows[i]
  }

  ghost predicate NumbersBelow(m: Machine<int>, B: int) {
    && (forall k :: 0 <= k < |m.rows| ==> 0 <= m.rows[k] < B)
    && (forall k :: 0 <= k < |m.spill| ==> 0 <= m.spill[k] < B)
  }

  lemma SaveRange(m: Machine<int>, i: nat, B: int)
    requires i < |m.rows| && NumbersBelow(m, B)
    ensures NumbersBelow(Save(m, i), B)
  {
    hide Wanted, Replace;
  }

  lemma PutRange(m: Machine<int>, i: nat, from: int, row: int, B: int)
    requires i < |m.rows| && NumbersBelow(m, B) && 0 <= row < B
    ensures NumbersBelow(Put(m, i, from, row), B)
  {
    hide Replace;
  }

  lemma StepRange(m: Machine<int>, i: nat, B: int)
    requires WellFormed(m, i) && i < |m.rows| && NumbersBelow(m, B)
    ensures NumbersBelow(Step(m, i, NeverSame), B)
  {
    var from := m.remap[i];
    assert 0 <= At(m, from) < B;
    hide WellFormed, At;
    if from != i && !Swaps(m.remap, i) {
      SaveRange(m, i, B);
      PutRange(Save(m, i), i, from, At(m, from), B);
      hide Save, Put, NumbersBelow;
    }
  }

  lemma {:induction false} PlanRange(idx: seq<int>, n: nat)
    requires GoodIndex(idx) && n <= |idx|
    ensures NumbersBelow(Plan(idx, n), |idx|)
  {
    hide Step;
    if n > 0 {
      PlanRange(idx, n - 1);
      PlanNext(idx, n - 1);
      StepRange(Plan(idx, n - 1), n - 1, |idx|);
    }
  }

  /** Step i copies nothing, swaps, copies for real, or skips a copy between equal rows. */
  predicate SafeAt<R(==)>(rows: seq<R>, idx: seq<int>, same: (R, R) -> bool, i: nat)
    requires GoodIndex(idx) && |rows| == |idx| && i < |idx|
  {
    var remap := Plan(idx, i).remap;
    remap[i] == i || Swaps(remap, i)
    || (same(rows[Occupant(idx, i)], rows[idx[i]]) ==> rows[Occupant(idx, i)] == rows[idx[i]])
  }

  /** Every row and spill slot holds the contents of the old row the plan says it holds. */
  ghost predicate Mirrors<R>(m: Machine<R>, p: Machine<int>, rows: seq<R>) {
    && SameNames(m, p) && |m.rows| == |rows| && NumbersBelow(p, |rows|)
    && (forall k :: 0 <= k < |rows| ==> m.rows[k] == rows[p.rows[k]])
    && (forall k :: 0 <= k < |m.spill| ==> m.spill[k] == rows[p.spill[k]])
  }

  lemma SwapMirrors<R>(m: Machine<R>, p: Machine<int>, rows: seq<R>, i: nat)
    requires Mirrors(m, p, rows) && |m.remap| == |m.rows| && i < |rows| && Swaps(p.remap, i)
    ensures Mirrors(SwapStep(m, i), SwapStep(p, i), rows)
  {
    hide Exchange;
  }

  lemma SaveMirrors<R>(m: Machine<R>, p: Machine<int>, rows: seq<R>, i: nat)
    requires Mirrors(m, p, rows) && i < |rows|
    ensures Mirrors(Save(m, i), Save(p, i), rows)
  {
    hide Wanted, Replace;
  }

  lemma PutMirrors<R>(m: Machine<R>, p: Machine<int>, rows: seq<R>, i: nat, from: int, row: R, source: int)
    requires Mirrors(m, p, rows) && i < |rows| && 0 <= source < |rows| && row == rows[source]
    ensures Mirrors(Put(m, i, from, row), Put(p, i, from, source), rows)
  {
    hide Replace;
  }

  lemma AtMirrors<R>(m: Machine<R>, p: Machine<int>, rows: seq<R>, name: int)
    requires Mirrors(m, p, rows) && GoodName(p, name)
    ensures 0 <= At(p, name) < |rows| && GoodName(m, name) && At(m, name) == rows[At(p, name)]
  {
  }

  lemma StepMirrors<R>(m: Machine<R>, p: Machine<int>, rows: seq<R>, i: nat, same: (R, R) -> bool)
    requires WellFormed(m, i) && WellFormed(p, i) && i < |rows| && Mirrors(m, p, rows)
    requires p.remap[i] != i && !Swaps(p.remap, i) && same(m.rows[i], At(m, m.remap[i])) ==>
      m.rows[i] == At(m, m.remap[i])
    ensures Mirrors(Step(m, i, same), Step(p, i, NeverSame), rows)
  {
    var from := p.remap[i];
    assert m.remap == p.remap;
    AtMirrors(m, p, rows, from);
    if from == i {
    } else if Swaps(p.remap, i) {
      SwapMirrors(m, p, rows, i);
    } else {
      SaveMirrors(m, p, rows, i);
      PutMirrors(Save(m, i), Save(p, i), rows, i, from, At(m, from), At(p, from));
    }
  }

  /** What row i holds, and what it is about to receive. */
  lemma BeforeStep<R>(rows: seq<R>, idx: seq<int>, i: nat, same: (R, R) -> bool)
    requires GoodIndex(idx) && |rows| == |idx| && i < |idx|
    requires Mirrors(Run(rows, idx, i, same), Plan(idx, i), rows)
    ensures var m := Run(rows, idx, i, same);
      m.remap == Plan(idx, i).remap && m.rows[i] == rows[Occupant(idx, i)] && At(m, m.remap[i]) == rows[idx[i]]
  {
    hide Run, Plan, Step, GoodIndex;
    PlanLocated(idx, i);
    var p := Plan(idx, i);
    assert At(p, p.remap[i]) == idx[i];
    AtMirrors(Run(rows, idx, i, same), p, rows, p.remap[i]);
  }

  /** One step more. */
  lemma NextFollows<R>(rows: seq<R>, idx: seq<int>, i: nat, same: (R, R) -> bool)
    requires GoodIndex(idx) && |rows| == |idx| && i < |idx| && SafeAt(rows, idx, same, i)
    requires Mirrors(Run(rows, idx, i, same), Plan(idx, i), rows)
    ensures Mirrors(Run(rows, idx, i + 1, same), Plan(idx, i + 1), rows)
  {
    hide Run, Plan, Step, Mirrors, WellFormed, Located, GoodIndex, Swaps, At, Occupant;
    BeforeStep(rows, idx, i, same);
    RunNext(rows, idx, i, same);
    PlanNext(idx, i);
    RunSameNames(rows, idx, i, same);
    StepMirrors(Run(rows, idx, i, same), Plan(idx, i), rows, i, same);
  }

  lemma {:induction false} RunFollows<R>(rows: seq<R>, idx: seq<int>, n: nat, same: (R, R) -> bool)
    requires GoodIndex(idx) && |rows| == |idx| && n <= |idx|
    requires forall i :: 0 <= i < n ==> SafeAt(rows, idx, same, i)
    ensures Mirrors(Run(rows, idx, n, same), Plan(idx, n), rows)
  {
    hide Step, SafeAt;
    if n > 0 {
      hide Run, Plan, Mirrors, WellFormed, GoodIndex;
      RunFollows(rows, idx, n - 1, same);
      NextFollows(rows, idx, n - 1, same);
    }
  }

  lemma StepSettles<R>(m: Machine<R>, i: nat, same: (R, R) -> bool)
    requires WellFormed(m, i) && i < |m.rows|
    ensures forall k :: 0 <= k < i ==> Step(m, i, same).rows[k] == m.rows[k]
    ensures m.remap[i] != i && !Swaps(m.remap, i) && same(m.rows[i], At(m, m.remap[i])) ==>
      Step(m, i, same).rows[i] == m.rows[i]
  {
  }

  /** Rows below the cursor are never written again. */
  lemma {:induction false} Settled<R>(rows: seq<R>, idx: seq<int>, i: nat, n: nat, same: (R, R) -> bool)
    requires GoodIndex(idx) && |rows| == |idx| && i < n <= |idx|
    ensures Run(rows, idx, n, same).rows[i] == Run(rows, idx, i + 1, same).rows[i]
    decreases n
  {
    hide Step;
    if i + 1 < n {
      Settled(rows, idx, i, n - 1, same);
      RunNext(rows, idx, n - 1, same);
      StepSettles(Run(rows, idx, n - 1, same), n - 1, same);
    }
  }

  ghost predicate IsGather<R>(result: seq<R>, rows: seq<R>, idx: seq<int>)
    requires GoodIndex(idx) && |rows| == |idx|
  {
    |result| == |idx| && forall k :: 0 <= k < |idx| ==> result[k] == rows[idx[k]]
  }

  ghost predicate AllSafe<R>(rows: seq<R>, idx: seq<int>, same: (R, R) -> bool)
    requires GoodIndex(idx) && |rows| == |idx|
  {
    forall i :: 0 <= i < |idx| ==> SafeAt(rows, idx, same, i)
  }

  /** One bad skip leaves its row wrong for good. */
  lemma UnsafeIsWrong<R>(rows: seq<R>, idx: seq<int>, i: nat, same: (R, R) -> bool)
    requires GoodIndex(idx) && |rows| == |idx| && i < |idx|
    requires forall k :: 0 <= k < i ==> SafeAt(rows, idx, same, k)
    requires !SafeAt(rows, idx, same, i)
    ensures Run(rows, idx, |idx|, same).rows[i] != rows[idx[i]]
  {
    hide Step;
    RunFollows(rows, idx, i, same);
    BeforeStep(rows, idx, i, same);
    RunNext(rows, idx, i, same);
    StepSettles(Run(rows, idx, i, same), i, same);
    Settled(rows, idx, i, |idx|, same);
  }

  lemma {:induction false} FirstUnsafe<R>(rows: seq<R>, idx: seq<int>, same: (R, R) -> bool, n: nat) returns (i: nat)
    requires GoodIndex(idx) && |rows| == |idx| && n <= |idx|
    requires exists k :: 0 <= k < n && !SafeAt(rows, idx, same, k)
    ensures i < n && !SafeAt(rows, idx, same, i) && forall k :: 0 <= k < i ==> SafeAt(rows, idx, same, k)
  {
    if exists k :: 0 <= k < n - 1 && !SafeAt(rows, idx, same, k) {
      i := FirstUnsafe(rows, idx, same, n - 1);
    } else {
      i := n - 1;
    }
  }

  /** The machine gathers exactly when no skipped copy joins two different rows. */
  lemma GatherIffSafe<R>(rows: seq<R>, idx: seq<int>, same: (R, R) -> bool)
    requires GoodIndex(idx) && |rows| == |idx|
    ensures IsGather(Run(rows, idx, |idx|, same).rows, rows, idx) <==> AllSafe(rows, idx, same)
  {
    hide Step;
    if AllSafe(rows, idx, same) {
      RunFollows(rows, idx, |idx|, same);
      PlanLocated(idx, |idx|);
    } else {
      var i := FirstUnsafe(rows, idx, same, |idx|);
      UnsafeIsWrong(rows, idx, i, same);
    }
  }

  // ---------- when the skipping copy is harmless ----------

  /** A skip test that only equates equal rows of this input never spoils the gather. */
  lemma TellsApartIsSafe<R>(rows: seq<R>, idx: seq<int>, same: (R, R) -> bool)
    requires GoodIndex(idx) && |rows| == |idx|
    requires forall a, b :: a in rows && b in rows && same(a, b) ==> a == b
    ensures IsGather(Run(rows, idx, |idx|, same).rows, rows, idx)
  {
    GatherIffSafe(rows, idx, same);
  }

  /** Two different rows that the skip test takes for equal: duplicating the second over the first
      silently keeps the first. */
  lemma SkipSpoilsGather<R>(first: R, second: R, same: (R, R) -> bool)
    requires first != second && same(first, second)
    ensures GoodIndex([1, 1])
    ensures !IsGather(Run([first, second], [1, 1], 2, same).rows, [first, second], [1, 1])
  {
    var rows, idx := [first, second], [1, 1];
    var m0 := Run(rows, idx, 0, same);
    assert m0.rows == rows && m0.remap == idx;
    assert Run(rows, idx, 1, same).rows[0] == first;
    Settled(rows, idx, 0, 2, same);
  }
}
