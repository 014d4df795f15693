/** Key/value cache buffers for continuous batching: one buffer per live sequence, reused through a free
    list, and a ready list that lines up with the sequences of the next step. */
module KVCachePool {
  import opened KVCacheTensors
  import opened KVLayout

  // ---------- the pool as a state machine ----------

  /** Live buffers by sequence id, free buffers (the last one is reused first), the buffers made ready,
      and every buffer ever allocated, in the order of allocation. */
  datatype State<B(==)> = State(live: map<int, B>, free: seq<B>, ready: seq<B>, all: seq<B>)

  datatype Op = Add(id: int) | Del(id: int) | Prepare(ids: seq<int>)

  function Init<B>(): State<B> {
    State(map[], [], [], [])
  }

  predicate Succeeds<B(==)>(s: State<B>, op: Op) {
    match op
    case Add(id) => id !in s.live
    case Del(id) => id in s.live
    case Prepare(ids) => forall i :: 0 <= i < |ids| ==> ids[i] in s.live
  }

  /** A failing operation changes nothing.  "next" is the buffer the allocator would hand out. */
  function Step<B(==)>(s: State<B>, op: Op, next: B): State<B> {
    if !Succeeds(s, op) then s
    else
      match op
      case Add(id) =>
        if |s.free| > 0 then s.(live := s.live[id := s.free[|s.free| - 1]], free := s.free[..|s.free| - 1])
        else s.(live := s.live[id := next], all := s.all + [next])
      case Del(id) => s.(live := s.live - {id}, free := s.free + [s.live[id]])
      case Prepare(ids) => s.(ready := seq(|ids|, i requires 0 <= i < |ids| && ids[i] in s.live => s.live[ids[i]]))
  }

  ghost predicate IsLive<B>(live: map<int, B>, b: B) {
    exists a :: a in live && live[a] == b
  }

  /** Every buffer is in exactly one place: live under one id, or free once. */
  ghost predicate Inv<B>(s: State<B>) {
    && (forall i, j :: 0 <= i < j < |s.all| ==> s.all[i] != s.all[j])
    && (forall i, j :: 0 <= i < j < |s.free| ==> s.free[i] != s.free[j])
    && (forall a, b :: a in s.live && b in s.live && a != b ==> s.live[a] != s.live[b])
    && (forall a, i :: a in s.live && 0 <= i < |s.free| ==> s.live[a] != s.free[i])
    && (forall a :: a in s.live ==> s.live[a] in s.all)
    && (forall i :: 0 <= i < |s.free| ==> s.free[i] in s.all)
    && (forall i :: 0 <= i < |s.all| ==> s.all[i] in s.free || IsLive(s.live, s.all[i]))
    && |s.all| == |s.live| + |s.free|
  }

  lemma StepInv<B>(s: State<B>, op: Op, next: B)
    requires Inv(s) && next !in s.all
    ensures Inv(Step(s, op, next))
  {
    if Succeeds(s, op) {
      match op
      case Add(id) =>
        if |s.free| > 0 {
          ReuseInv(s, id);
        } else {
          AllocateInv(s, id, next);
        }
      case Del(id) => ReleaseInv(s, id);
      case Prepare(ids) =>
    }
  }

  lemma ReuseInv<B>(s: State<B>, id: int)
    requires Inv(s) && id !in s.live && |s.free| > 0
    ensures Inv(s.(live := s.live[id := s.free[|s.free| - 1]], free := s.free[..|s.free| - 1]))
  {
    var buffer, live, free := s.free[|s.free| - 1], s.live[id := s.free[|s.free| - 1]], s.free[..|s.free| - 1];
    assert live[id] == buffer;
    forall i | 0 <= i < |s.all|
      ensures s.all[i] in free || IsLive(live, s.all[i])
    {
      if s.all[i] == buffer {
        assert live[id] == s.all[i];
      } else if IsLive(s.live, s.all[i]) {
        var a :| a in s.live && s.live[a] == s.all[i];
        assert live[a] == s.all[i];
      } else {
        var k :| 0 <= k < |s.free| && s.free[k] == s.all[i];
        assert free[k] == s.all[i];
      }
    }
  }

  lemma AllocateInv<B>(s: State<B>, id: int, next: B)
    requires Inv(s) && id !in s.live && |s.free| == 0 && next !in s.all
    ensures Inv(s.(live := s.live[id := next], all := s.all + [next]))
  {
    var live, all := s.live[id := next], s.all + [next];
    forall i | 0 <= i < |all|
      ensures IsLive(live, all[i])
    {
      if i < |s.all| {
        var a :| a in s.live && s.live[a] == s.all[i];
        assert live[a] == all[i];
      } else {
        assert live[id] == all[i];
      }
    }
  }

  lemma ReleaseInv<B>(s: State<B>, id: int)
    requires Inv(s) && id in s.live
    ensures Inv(s.(live := s.live - {id}, free := s.free + [s.live[id]]))
  {
    var live, free := s.live - {id}, s.free + [s.live[id]];
    assert s.live == live[id := s.live[id]];
    assert free[|s.free|] == s.live[id];
    forall i | 0 <= i < |s.all|
      ensures s.all[i] in free || IsLive(live, s.all[i])
    {
      if IsLive(s.live, s.all[i]) {
        var a :| a in s.live && s.live[a] == s.all[i];
        if a != id {
          assert live[a] == s.all[i];
        }
      } else {
        var k :| 0 <= k < |s.free| && s.free[k] == s.all[i];
        assert free[k] == s.all[i];
      }
    }
  }

  // ---------- whole histories ----------

  /** Buffers numbered by the allocator in the order it hands them out. */
  function After(ops: seq<Op>): State<nat> {
    if ops == [] then Init()
    else
      var s := After(ops[..|ops| - 1]);
      Step(s, ops[|ops| - 1], |s.all|)
  }

  /** The largest number of sequences that were live at the same time. */
  function Peak(ops: seq<Op>): nat {
    if ops == [] then 0
    else
      var before, now := Peak(ops[..|ops| - 1]), |After(ops).live|;
      if now > before then now else before
  }

  /** Over any history: no buffer is lost, shared or free twice, buffers are numbered without gaps, and
      there are exactly as many of them as sequences were ever live at once. */
  lemma {:induction false} HistoryKeepsPool(ops: seq<Op>)
    ensures Inv(After(ops))
    ensures forall i :: 0 <= i < |After(ops).all| ==> After(ops).all[i] == i
    ensures |After(ops).all| == Peak(ops)
  {
    if ops != [] {
      var before := ops[..|ops| - 1];
      HistoryKeepsPool(before);
      var s, op := After(before), ops[|ops| - 1];
      StepInv(s, op, |s.all|);
      hide Inv;
      StepCounts(s, op, |s.all|);
    }
  }

  lemma StepCounts<B>(s: State<B>, op: Op, next: B)
    requires Inv(s) && next !in s.all
    ensures var t := Step(s, op, next);
      && |t.live| <= |t.all|
      && (t.all == s.all || (t.all == s.all + [next] && |t.live| == |t.all|))
      && |s.live| <= |s.all|
  {
    StepInv(s, op, next);
  }

  // ---------- the ready list ----------

  /** The ready list holds the buffers of these ids, in their order. */
  ghost predicate LinesUp<B>(s: State<B>, ids: seq<int>) {
    |s.ready| == |ids| && forall i :: 0 <= i < |ids| ==> ids[i] in s.live && s.live[ids[i]] == s.ready[i]
  }

  /** A successful prepare makes the ready list line up with the ids. */
  lemma PrepareLinesUp<B>(s: State<B>, ids: seq<int>, next: B)
    requires forall i :: 0 <= i < |ids| ==> ids[i] in s.live
    ensures LinesUp(Step(s, Prepare(ids), next), ids)
  {
  }

  /** Adding, failing, or deleting someone else keeps it so; it ends exactly when one of its own
      sequences is deleted. */
  lemma LinesUpUntilDeleted<B>(s: State<B>, ids: seq<int>, op: Op, next: B)
    requires Inv(s) && LinesUp(s, ids) && !op.Prepare?
    ensures LinesUp(Step(s, op, next), ids) <==> !(op.Del? && op.id in ids)
  {
    if op.Del? && op.id in ids {
      var i :| 0 <= i < |ids| && ids[i] == op.id;
      assert ids[i] !in Step(s, op, next).live;
    }
  }

  predicate Deletes(op: Op, ids: seq<int>) {
    op.Del? && op.id in ids
  }

  /** Over any history from a successful prepare to the next: the ready list lines up at every moment
      exactly if none of its own sequences is deleted. */
  lemma LinesUpAlwaysIff(ops: seq<Op>, ids: seq<int>, rest: seq<Op>)
    requires forall i :: 0 <= i < |ids| ==> ids[i] in After(ops).live
    requires forall i :: 0 <= i < |rest| ==> !rest[i].Prepare?
    ensures (forall k :: 0 <= k <= |rest| ==> LinesUp(After(ops + [Prepare(ids)] + rest[..k]), ids))
      <==> forall i :: 0 <= i < |rest| ==> !(rest[i].Del? && rest[i].id in ids)
  {
    if forall i :: 0 <= i < |rest| ==> !Deletes(rest[i], ids) {
      forall k | 0 <= k <= |rest|
        ensures LinesUp(After(ops + [Prepare(ids)] + rest[..k]), ids)
      {
        StaysLinedUp(ops, ids, rest, k);
      }
    } else {
      var i :| 0 <= i < |rest| && Deletes(rest[i], ids);
      NextOp(ops + [Prepare(ids)], rest, i);
      HistoryKeepsPool(ops + [Prepare(ids)] + rest[..i]);
      var s := After(ops + [Prepare(ids)] + rest[..i]);
      hide After, Step, Inv;
      if LinesUp(s, ids) {
        LinesUpUntilDeleted(s, ids, rest[i], |s.all|);
        assert !LinesUp(After(ops + [Prepare(ids)] + rest[..i + 1]), ids);
      }
    }
  }

  lemma NextOp(before: seq<Op>, rest: seq<Op>, k: nat)
    requires k < |rest|
    ensures After(before + rest[..k + 1]) == Step(After(before + rest[..k]), rest[k], |After(before + rest[..k]).all|)
  {
    var ops := before + rest[..k + 1];
    assert ops[..|ops| - 1] == before + rest[..k];
  }

  lemma {:induction false} StaysLinedUp(ops: seq<Op>, ids: seq<int>, rest: seq<Op>, k: nat)
    requires k <= |rest| && forall i :: 0 <= i < |ids| ==> ids[i] in After(ops).live
    requires forall i :: 0 <= i < |rest| ==> !rest[i].Prepare? && !Deletes(rest[i], ids)
    ensures LinesUp(After(ops + [Prepare(ids)] + rest[..k]), ids)
  {
    if k == 0 {
      assert ops + [Prepare(ids)] + rest[..0] == ops + [Prepare(ids)];
      NextOp(ops, [Prepare(ids)], 0);
      assert ops + [Prepare(ids)][..0] == ops && [Prepare(ids)][..1] == [Prepare(ids)];
      PrepareLinesUp(After(ops), ids, |After(ops).all|);
    } else {
      StaysLinedUp(ops, ids, rest, k - 1);
      NextOp(ops + [Prepare(ids)], rest, k - 1);
      HistoryKeepsPool(ops + [Prepare(ids)] + rest[..k - 1]);
      var s := After(ops + [Prepare(ids)] + rest[..k - 1]);
      hide After, Step, Inv, LinesUp;
      LinesUpUntilDeleted(s, ids, rest[k - 1], |s.all|);
    }
  }

  /** A deleted sequence that is added again at once gets its buffer back, and the list lines up again. */
  lemma DeletedAndAddedAgain<B>(s: State<B>, ids: seq<int>, id: int, next: B)
    requires Inv(s) && LinesUp(s, ids) && id in s.live
    ensures LinesUp(Step(Step(s, Del(id), next), Add(id), next), ids)
  {
  }

  /** After the deletion the ready list still names the buffer, and the next sequence added gets that
      very buffer: two sequences would write to it. */
  lemma StaleReadyIsReused<B>(s: State<B>, ids: seq<int>, i: nat, newId: int, next: B)
    requires Inv(s) && LinesUp(s, ids) && i < |ids| && newId !in s.live
    ensures var t := Step(Step(s, Del(ids[i]), next), Add(newId), next);
      newId in t.live && t.live[newId] == t.ready[i]
  {
  }

  // ---------- the manager ----------

  lemma LiveIsAllocated<B>(s: State<B>, a: int)
    requires Inv(s) && a in s.live
    ensures s.live[a] in s.all
  {
  }

  lemma FreeIsAllocated<B>(s: State<B>, i: nat)
    requires Inv(s) && i < |s.free|
    ensures s.free[i] in s.all
  {
  }

  lemma ReadyDoesNotMatter<B>(s: State<B>, t: State<B>)
    requires Inv(s) && t == s.(ready := t.ready)
    ensures Inv(t)
  {
  }

  /** The buffer a new sequence takes is nobody's: the last free one, or a new one. */
  ghost predicate Takes<B>(s: State<B>, b: B) {
    if |s.free| > 0 then b == s.free[|s.free| - 1] else b !in s.all
  }

  lemma TakenIsNotLive<B>(s: State<B>, b: B)
    requires Inv(s) && Takes(s, b)
    ensures forall a :: a in s.live ==> s.live[a] != b && s.live[a] in s.all
  {
  }

  lemma AddInv<B>(s: State<B>, id: int, b: B)
    requires Inv(s) && Takes(s, b) && id !in s.live
    ensures Inv(Step(s, Add(id), b)) && Step(s, Add(id), b).live == s.live[id := b]
  {
    hide Inv;
    if |s.free| > 0 {
      ReuseInv(s, id);
    } else {
      AllocateInv(s, id, b);
    }
  }

  /** The caches of one sequence: key and value of every layer, key first. */
  class CacheArray<T(==,0)> {
    const tensors: seq<KVCacheTensor<T>>

    constructor (tensors: seq<KVCacheTensor<T>>)
      ensures this.tensors == tensors
    {
      this.tensors := tensors;
    }
  }

  /** Give every tensor of a buffer room for one sequence of maxLen tokens. */
  method ResizeAll<T(==,0)>(tensors: seq<KVCacheTensor<T>>, maxLen: nat, headNum: nat, headSize: nat)
    requires forall i :: 0 <= i < |tensors| ==> tensors[i].Valid()
    requires forall i, j :: 0 <= i < j < |tensors| ==> tensors[i] != tensors[j]
    modifies tensors
    ensures forall i :: 0 <= i < |tensors| ==>
      tensors[i].Valid() && tensors[i].GetShape() == Shape(maxLen, 1, headNum, headSize)
  {
    for i := 0 to |tensors|
      invariant forall k :: 0 <= k < |tensors| ==> tensors[k].Valid()
      invariant forall k :: 0 <= k < i ==> tensors[k].GetShape() == Shape(maxLen, 1, headNum, headSize)
    {
      tensors[i].Resize(maxLen, 1, headNum, headSize);
    }
  }

  class KVCacheMgrImpl<T(==,0)> {
    const maxSeqLen: nat
    const headNum: nat
    const headSize: nat
    const layers: nat
    const word: nat
    var sequenceCaches: map<int, CacheArray<T>>
    var readyCaches: seq<CacheArray<T>>
    var freeCaches: seq<CacheArray<T>>
    /** every buffer allocated so far */
    ghost var all: seq<CacheArray<T>>

    ghost function Abs(): State<CacheArray<T>>
      reads this
    {
      State(sequenceCaches, freeCaches, readyCaches, all)
    }

    ghost function Footprint(): set<object>
      reads this
    {
      set b: CacheArray<T>, i: int | b in all && 0 <= i < |b.tensors| :: b.tensors[i] as object
    }

    ghost predicate Valid()
      reads this, Footprint()
    {
      && 0 < word && Inv(Abs()) && GoodBuffers()
      && (forall i :: 0 <= i < |readyCaches| ==> readyCaches[i] in all)
    }

    /** Every buffer has its tensors, and no tensor belongs to two buffers. */
    ghost predicate GoodBuffers()
      reads this, Footprint()
    {
      && (forall b :: b in all ==> |b.tensors| == 2 * layers)
      && (forall b, i :: b in all && 0 <= i < |b.tensors| ==> b.tensors[i].Valid())
      && (forall b, i, c, j ::
        b in all && c in all && 0 <= i < |b.tensors| && 0 <= j < |c.tensors| && (b, i) != (c, j) ==>
            b.tensors[i] != c.tensors[j])
    }

    constructor (maxSeqLen: nat, headNum: nat, headSize: nat, layers: nat, word: nat)
      requires 0 < word
      ensures Valid() && Abs() == Init()
      ensures this.maxSeqLen == maxSeqLen && this.headNum == headNum && this.headSize == headSize
        && this.layers == layers
    {
      this.maxSeqLen, this.headNum, this.headSize, this.layers, this.word := maxSeqLen, headNum, headSize, layers, word;
      sequenceCaches, readyCaches, freeCaches, all := map[], [], [], [];
    }

    method DelSequence(seqID: int) returns (ok: bool)
      requires Valid()
      modifies this
      ensures Valid() && ok == Succeeds(old(Abs()), Del(seqID))
      ensures forall next :: Abs() == Step(old(Abs()), Del(seqID), next)
      ensures ok == (seqID in old(sequenceCaches))
      ensures ok ==> Abs() == State(old(sequenceCaches) - {seqID}, old(freeCaches) + [old(sequenceCaches)[seqID]],
        old(readyCaches), old(all))
      ensures !ok ==> Abs() == old(Abs())
    {
      hide Inv;
      if seqID !in sequenceCaches {
        return false;
      }
      ReleaseInv(Abs(), seqID);
      freeCaches := freeCaches + [sequenceCaches[seqID]];
      sequenceCaches := sequenceCaches - {seqID};
      ok := true;
    }

    /** The capacity a new sequence gets: what it asks for, but no more than the model allows. */
    function MaxLen(wanted: int): (len: nat)
      ensures len <= maxSeqLen && (0 < wanted <= maxSeqLen ==> len == wanted)
      ensures wanted <= 0 || maxSeqLen <= wanted ==> len == maxSeqLen
    {
      if wanted > 0 then (if wanted < maxSeqLen then wanted else maxSeqLen) else maxSeqLen
    }

    /** A free buffer if there is one, a new one otherwise. */
    method TakeBuffer() returns (cache: CacheArray<T>)
      requires Valid()
      modifies this
      ensures sequenceCaches == old(sequenceCaches) && readyCaches == old(readyCaches)
      ensures |old(freeCaches)| > 0 ==>
        cache == old(freeCaches)[|old(freeCaches)| - 1] && freeCaches == old(freeCaches)[..|old(freeCaches)| - 1]
          && all == old(all)
      ensures |old(freeCaches)| == 0 ==> fresh(cache) && freeCaches == old(freeCaches) && all == old(all) + [cache]
      ensures |old(freeCaches)| == 0 ==> forall i :: 0 <= i < |cache.tensors| ==> fresh(cache.tensors[i])
      ensures cache in all && GoodBuffers()
    {
      hide Inv;
      if |freeCaches| > 0 {
        FreeIsAllocated(Abs(), |freeCaches| - 1);
        cache := freeCaches[|freeCaches| - 1];
        freeCaches := freeCaches[..|freeCaches| - 1];
      } else {
        var tensors := NewTensors<T>(2 * layers, word);
        cache := new CacheArray<T>(tensors);
        all := all + [cache];
      }
    }

    method AddSequence(seqID: int, wanted: int) returns (ok: bool)
      requires Valid()
      modifies this, Footprint()
      ensures Valid() && ok == Succeeds(old(Abs()), Add(seqID))
      ensures !ok ==> Abs() == old(Abs())
      ensures ok ==> seqID in sequenceCaches && Abs() == Step(old(Abs()), Add(seqID), sequenceCaches[seqID])
      ensures ok && |old(freeCaches)| == 0 ==> fresh(sequenceCaches[seqID])
      ensures ok ==> forall i :: 0 <= i < 2 * layers ==>
        sequenceCaches[seqID].tensors[i].GetShape()
          == Shape(if 0 < wanted <= maxSeqLen then wanted else maxSeqLen, 1, headNum, headSize)
      ensures ok == (seqID !in old(sequenceCaches)) && readyCaches == old(readyCaches)
      ensures ok ==> sequenceCaches == old(sequenceCaches)[seqID := sequenceCaches[seqID]]
      ensures ok && |old(freeCaches)| > 0 ==>
        var n := |old(freeCaches)| - 1;
          sequenceCaches[seqID] == old(freeCaches)[n] && freeCaches == old(freeCaches)[..n]
      ensures forall id, i :: id in old(sequenceCaches) && 0 <= i < 2 * layers ==>
        id in sequenceCaches && unchanged(sequenceCaches[id].tensors[i])
    {
      hide Inv;
      if seqID in sequenceCaches {
        return false;
      }
      ghost var before := Abs();
      var cache := TakeBuffer();
      TakenIsNotLive(before, cache);
      ResizeAll(cache.tensors, MaxLen(wanted), headNum, headSize);
      sequenceCaches := sequenceCaches[seqID := cache];
      AddInv(before, seqID, cache);
      ok := true;
    }

    method PrepareCache(seqIDs: seq<int>) returns (ok: bool)
      requires Valid()
      modifies this
      ensures Valid() && ok == Succeeds(old(Abs()), Prepare(seqIDs))
      ensures forall next :: Abs() == Step(old(Abs()), Prepare(seqIDs), next)
      ensures ok ==> LinesUp(Abs(), seqIDs)
      ensures ok <==> forall i :: 0 <= i < |seqIDs| ==> seqIDs[i] in old(sequenceCaches)
      ensures sequenceCaches == old(sequenceCaches) && freeCaches == old(freeCaches)
      ensures if ok then |readyCaches| == |seqIDs| && forall i :: 0 <= i < |seqIDs| ==>
          readyCaches[i] == sequenceCaches[seqIDs[i]]
        else readyCaches == old(readyCaches)
    {
      hide Inv;
      var readyList: seq<CacheArray<T>> := [];
      for i := 0 to |seqIDs|
        invariant Valid() && Abs() == old(Abs())
        invariant |readyList| == i
        invariant forall k :: 0 <= k < i ==>
          seqIDs[k] in sequenceCaches && readyList[k] == sequenceCaches[seqIDs[k]] && readyList[k] in all
      {
        if seqIDs[i] !in sequenceCaches {
          return false;
        }
        LiveIsAllocated(Abs(), seqIDs[i]);
        readyList := readyList + [sequenceCaches[seqIDs[i]]];
      }
      ghost var before := Abs();
      readyCaches := readyList;
      ReadyDoesNotMatter(before, Abs());
      ok := true;
    }

    method GetKey(layerId: nat) returns (keyCaches: seq<KVCacheTensor<T>>)
      requires Valid() && layerId < layers
      ensures |keyCaches| == |readyCaches| && forall i :: 0 <= i < |keyCaches| ==>
        keyCaches[i] == readyCaches[i].tensors[2 * layerId]
    {
      keyCaches := [];
      for i := 0 to |readyCaches|
        invariant |keyCaches| == i && forall k :: 0 <= k < i ==> keyCaches[k] == readyCaches[k].tensors[2 * layerId]
      {
        keyCaches := keyCaches + [readyCaches[i].tensors[2 * layerId]];
      }
    }

    method GetValue(layerId: nat) returns (valueCaches: seq<KVCacheTensor<T>>)
      requires Valid() && layerId < layers
      ensures |valueCaches| == |readyCaches| && forall i :: 0 <= i < |valueCaches| ==>
        valueCaches[i] == readyCaches[i].tensors[2 * layerId + 1]
    {
      valueCaches := [];
      for i := 0 to |readyCaches|
        invariant |valueCaches| == i && forall k :: 0 <= k < i ==>
          valueCaches[k] == readyCaches[k].tensors[2 * layerId + 1]
      {
        valueCaches := valueCaches + [readyCaches[i].tensors[2 * layerId + 1]];
      }
    }
  }
}
