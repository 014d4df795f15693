/** Whole beam-search runs over one cached tensor.

    A cache is a list of token positions, a position a list of rows, one per beam.  The prompt
    positions are broadcast from one row per sample; after that every step gathers the beams by an
    index vector and appends the rows the model computes for the next token.  The code gathers only
    the positions after the prompt. */
module BeamSearch {
  import opened ReorderPlan
  import opened KVCacheTensors
  import Arith

  datatype BeamStep<R> = BeamStep(idx: seq<int>, rows: seq<R>)

  function Gather<R>(rows: seq<R>, idx: seq<int>): (r: seq<R>)
    requires GoodIndex(idx) && |rows| == |idx|
    ensures IsGather(r, rows, idx)
  {
    seq(|idx|, b requires 0 <= b < |idx| => rows[idx[b]])
  }

  ghost predicate IsCache<R>(cache: seq<seq<R>>, B: nat) {
    forall s :: 0 <= s < |cache| ==> |cache[s]| == B
  }

  /** Gather every position from "first" on. */
  function GatherFrom<R>(cache: seq<seq<R>>, first: nat, idx: seq<int>): (c: seq<seq<R>>)
    requires GoodIndex(idx) && IsCache(cache, |idx|)
    ensures |c| == |cache| && IsCache(c, |idx|)
  {
    seq(|cache|, s requires 0 <= s < |cache| => if s < first then cache[s] else Gather(cache[s], idx))
  }

  ghost predicate GoodStep<R>(step: BeamStep<R>, B: nat) {
    |step.idx| == |step.rows| == B && GoodIndex(step.idx)
  }

  ghost predicate GoodSteps<R>(steps: seq<BeamStep<R>>, B: nat) {
    forall t :: 0 <= t < |steps| ==> GoodStep(steps[t], B)
  }

  /** The cache after a run: before each append, positions from "first" on are gathered. */
  function After<R>(prompt: seq<seq<R>>, steps: seq<BeamStep<R>>, B: nat, first: nat): (c: seq<seq<R>>)
    requires IsCache(prompt, B) && GoodSteps(steps, B)
    ensures |c| == |prompt| + |steps| && IsCache(c, B)
  {
    if |steps| == 0 then prompt
    else
      var n := |steps| - 1;
      GatherFrom(After(prompt, steps[..n], B, first), first, steps[n].idx) + [steps[n].rows]
  }

  lemma AfterNext<R>(prompt: seq<seq<R>>, steps: seq<BeamStep<R>>, step: BeamStep<R>, B: nat, first: nat)
    requires IsCache(prompt, B) && GoodSteps(steps, B) && GoodStep(step, B)
    ensures GoodSteps(steps + [step], B)
    ensures After(prompt, steps + [step], B, first)
      == GatherFrom(After(prompt, steps, B, first), first, step.idx) + [step.rows]
  {
    assert (steps + [step])[..|steps|] == steps;
  }

  /** Beam b of every position belongs to sample b / beamSize. */
  predicate StaysInSample(idx: seq<int>, beamSize: nat, sample: nat)
    requires 0 < beamSize
  {
    forall b :: 0 <= b < |idx| && b / beamSize == sample ==> idx[b] / beamSize == sample
  }

  /** Each sample's rows of a prompt position are copies of one row. */
  ghost predicate Broadcasted<R>(position: seq<R>, beamSize: nat)
    requires 0 < beamSize
  {
    forall b, c :: 0 <= b < |position| && 0 <= c < |position| && b / beamSize == c / beamSize ==>
      position[b] == position[c]
  }

  lemma ExpandBroadcasts<R>(rows: seq<R>, beamSize: nat)
    requires 0 < beamSize
    ensures Broadcasted(Expand(rows, beamSize), beamSize)
  {
  }

  /** One gather keeps a sample's rows the same in both caches, and the prompt's as they were. */
  lemma IdleCell<R>(part: seq<seq<R>>, full: seq<seq<R>>, prompt: seq<seq<R>>, idx: seq<int>, beamSize: nat,
                    sample: nat, s: nat, b: nat)
    requires 0 < beamSize && GoodIndex(idx) && IsCache(part, |idx|) && IsCache(full, |idx|) && IsCache(prompt, |idx|)
    requires |prompt| <= |part| == |full| && s < |part| && b < |idx| && b / beamSize == sample
    requires StaysInSample(idx, beamSize, sample)
    requires forall c :: 0 <= c < |idx| && c / beamSize == sample ==> part[s][c] == full[s][c]
    requires s < |prompt| ==> part[s] == prompt[s] && Broadcasted(prompt[s], beamSize)
    ensures GatherFrom(part, |prompt|, idx)[s][b] == GatherFrom(full, 0, idx)[s][b]
    ensures s < |prompt| ==> GatherFrom(full, 0, idx)[s][b] == prompt[s][b]
  {
    assert 0 <= idx[b] < |idx| && idx[b] / beamSize == sample;
    assert GatherFrom(full, 0, idx)[s][b] == full[s][idx[b]] == part[s][idx[b]];
  }

  /** As long as a sample's beams only ever descend from beams of that sample, its rows are the same
      whether the prompt positions are gathered too or left alone. */
  lemma {:induction false} PromptGatherIsIdle<R>(prompt: seq<seq<R>>, steps: seq<BeamStep<R>>, B: nat, beamSize: nat,
                                                 sample: nat)
    requires 0 < beamSize && IsCache(prompt, B) && GoodSteps(steps, B)
    requires forall s :: 0 <= s < |prompt| ==> Broadcasted(prompt[s], beamSize)
    requires forall t :: 0 <= t < |steps| ==> StaysInSample(steps[t].idx, beamSize, sample)
    ensures forall s, b :: 0 <= s < |prompt| + |steps| && 0 <= b < B && b / beamSize == sample ==>
      After(prompt, steps, B, |prompt|)[s][b] == After(prompt, steps, B, 0)[s][b]
    ensures forall s, b :: 0 <= s < |prompt| && 0 <= b < B && b / beamSize == sample ==>
      After(prompt, steps, B, 0)[s][b] == prompt[s][b]
  {
    hide GatherFrom, StaysInSample, Broadcasted, GoodIndex;
    if |steps| > 0 {
      var n := |steps| - 1;
      PromptGatherIsIdle(prompt, steps[..n], B, beamSize, sample);
      PromptKept(prompt, steps[..n], B);
      var part, full := After(prompt, steps[..n], B, |prompt|), After(prompt, steps[..n], B, 0);
      forall s, b | 0 <= s < |prompt| + n && 0 <= b < B && b / beamSize == sample
        ensures GatherFrom(part, |prompt|, steps[n].idx)[s][b] == GatherFrom(full, 0, steps[n].idx)[s][b]
        ensures s < |prompt| ==> GatherFrom(full, 0, steps[n].idx)[s][b] == prompt[s][b]
      {
        IdleCell(part, full, prompt, steps[n].idx, beamSize, sample, s, b);
      }
    }
  }

  /** Gathering from the end of the prompt on never touches the prompt. */
  lemma {:induction false} PromptKept<R>(prompt: seq<seq<R>>, steps: seq<BeamStep<R>>, B: nat)
    requires IsCache(prompt, B) && GoodSteps(steps, B)
    ensures forall s :: 0 <= s < |prompt| ==> After(prompt, steps, B, |prompt|)[s] == prompt[s]
  {
    if |steps| > 0 {
      PromptKept(prompt, steps[..|steps| - 1], B);
    }
  }

  /** Every sample stays apart: the cache of the code equals the fully gathered cache. */
  lemma PartialReorderSuffices<R>(prompt: seq<seq<R>>, steps: seq<BeamStep<R>>, B: nat, beamSize: nat)
    requires 0 < beamSize && IsCache(prompt, B) && GoodSteps(steps, B)
    requires forall s :: 0 <= s < |prompt| ==> Broadcasted(prompt[s], beamSize)
    requires forall t, sample: nat :: 0 <= t < |steps| ==> StaysInSample(steps[t].idx, beamSize, sample)
    ensures After(prompt, steps, B, |prompt|) == After(prompt, steps, B, 0)
  {
    var part, full := After(prompt, steps, B, |prompt|), After(prompt, steps, B, 0);
    forall s | 0 <= s < |part|
      ensures part[s] == full[s]
    {
      forall b | 0 <= b < B
        ensures part[s][b] == full[s][b]
      {
        Arith.DivLe(b, beamSize);
        PromptGatherIsIdle(prompt, steps, B, beamSize, b / beamSize);
      }
    }
  }

  /** Exactly the index vectors that keep every sample to itself leave every prompt alone. */
  lemma IdleIffSamplesApart(idx: seq<int>, beamSize: nat)
    requires 0 < beamSize && GoodIndex(idx)
    ensures (forall user: seq<int> :: |user| == |idx| ==> Gather(Expand(user, beamSize), idx) == Expand(user, beamSize))
      <==> forall sample: nat :: StaysInSample(idx, beamSize, sample)
  {
    if forall sample: nat :: StaysInSample(idx, beamSize, sample) {
      forall user: seq<int> | |user| == |idx|
        ensures Gather(Expand(user, beamSize), idx) == Expand(user, beamSize)
      {
        ApartIsIdle(user, idx, beamSize);
      }
    } else {
      var sample: nat :| !StaysInSample(idx, beamSize, sample);
      StrayBeamShows(idx, beamSize, sample);
    }
  }

  lemma ApartIsIdle<R>(user: seq<R>, idx: seq<int>, beamSize: nat)
    requires 0 < beamSize && GoodIndex(idx) && |user| == |idx|
    requires forall sample: nat :: StaysInSample(idx, beamSize, sample)
    ensures Gather(Expand(user, beamSize), idx) == Expand(user, beamSize)
  {
    var rows := Expand(user, beamSize);
    forall b | 0 <= b < |idx|
      ensures Gather(rows, idx)[b] == rows[b]
    {
      Arith.DivLe(b, beamSize);
      assert StaysInSample(idx, beamSize, b / beamSize);
    }
  }

  /** A prompt of distinct rows tells on a beam that descends from another sample. */
  lemma StrayBeamShows(idx: seq<int>, beamSize: nat, sample: nat)
    requires 0 < beamSize && GoodIndex(idx) && !StaysInSample(idx, beamSize, sample)
    ensures exists user: seq<int> :: |user| == |idx| && Gather(Expand(user, beamSize), idx) != Expand(user, beamSize)
  {
    var b :| 0 <= b < |idx| && b / beamSize == sample && idx[b] / beamSize != sample;
    var user := Numbers(|idx|);
    ExpandedNumber(|idx|, beamSize, b);
    ExpandedNumber(|idx|, beamSize, idx[b]);
    hide Expand, Numbers;
    var rows := Expand(user, beamSize);
    assert Gather(rows, idx)[b] == rows[idx[b]];
  }

  function Numbers(n: nat): (r: seq<int>)
    ensures |r| == n
  {
    seq(n, k => k)
  }

  lemma ExpandedNumber(n: nat, beamSize: nat, b: nat)
    requires 0 < beamSize && b < n
    ensures Expand(Numbers(n), beamSize)[b] == b / beamSize
  {
    Arith.DivLe(b, beamSize);
  }

  // ---------- ancestors ----------

  /** The beam that wrote, at step t, the row that beam b owns after the run: the later index vectors composed. */
  function Ancestor<R>(steps: seq<BeamStep<R>>, B: nat, t: nat, b: int): (a: int)
    requires GoodSteps(steps, B) && t < |steps| && 0 <= b < B
    ensures 0 <= a < B
    decreases |steps|
  {
    var n := |steps| - 1;
    if t == n then b else Ancestor(steps[..n], B, t, steps[n].idx[b])
  }

  /** Ancestors are found by following the index vectors back from the last step: any such path from beam b
      passes through its ancestor of step t. */
  lemma {:induction false} AncestorIsOnPath<R>(steps: seq<BeamStep<R>>, B: nat, t: nat, path: seq<int>)
    requires GoodSteps(steps, B) && t < |steps| == |path| && 0 <= path[|steps| - 1] < B
    requires forall u :: t < u < |steps| ==> 0 <= path[u] < |steps[u].idx| && path[u - 1] == steps[u].idx[path[u]]
    ensures Ancestor(steps, B, t, path[|steps| - 1]) == path[t]
    decreases |steps|
  {
    var n := |steps| - 1;
    if t < n {
      AncestorIsOnPath(steps[..n], B, t, path[..n]);
    }
  }

  /** After any run, beam b's row of the t-th generated token is the one its ancestor wrote then. */
  lemma {:induction false} RowsOfAncestors<R>(prompt: seq<seq<R>>, steps: seq<BeamStep<R>>, B: nat, t: nat, b: nat)
    requires IsCache(prompt, B) && GoodSteps(steps, B) && t < |steps| && b < B
    ensures After(prompt, steps, B, |prompt|)[|prompt| + t][b] == steps[t].rows[Ancestor(steps, B, t, b)]
    decreases |steps|
  {
    var n := |steps| - 1;
    if t < n {
      var idx := steps[n].idx;
      RowsOfAncestors(prompt, steps[..n], B, t, idx[b]);
      assert GatherFrom(After(prompt, steps[..n], B, |prompt|), |prompt|, idx)[|prompt| + t][b]
        == After(prompt, steps[..n], B, |prompt|)[|prompt| + t][idx[b]];
    }
  }

  lemma {:induction false} AncestorsInSample<R>(steps: seq<BeamStep<R>>, B: nat, beamSize: nat, t: nat, b: nat)
    requires 0 < beamSize && GoodSteps(steps, B) && t < |steps| && b < B
    requires forall k :: 0 <= k < |steps| ==> StaysInSample(steps[k].idx, beamSize, b / beamSize)
    ensures Ancestor(steps, B, t, b) / beamSize == b / beamSize
    decreases |steps|
  {
    var n := |steps| - 1;
    if t < n {
      assert StaysInSample(steps[n].idx, beamSize, b / beamSize);
      forall k | 0 <= k < n
        ensures StaysInSample(steps[..n][k].idx, beamSize, b / beamSize)
      {
        assert steps[..n][k] == steps[k];
      }
      AncestorsInSample(steps[..n], B, beamSize, t, steps[n].idx[b]);
    }
  }

  // ---------- where the index vectors come from ----------

  /** The index vector of the beam scorer: a running sample picks among its own beams, a finished
      sample is skipped and keeps the initial zeros. */
  function NextBeamIndices(batchSize: nat, numBeams: nat, done: seq<bool>, picks: seq<int>): (idx: seq<int>)
    requires 0 < numBeams && |done| == batchSize && |picks| == batchSize * numBeams
    requires forall b :: 0 <= b < |picks| ==> 0 <= picks[b] < numBeams
    ensures |idx| == |picks|
  {
    seq(|picks|, b requires 0 <= b < |picks| =>
      (Arith.DivBounds(b, numBeams, batchSize);
       if done[b / numBeams] then 0 else (b / numBeams) * numBeams + picks[b]))
  }

  /** A running sample always stays in its own beams, whatever the other samples do. */
  lemma RunningSampleStays(batchSize: nat, numBeams: nat, done: seq<bool>, picks: seq<int>, sample: nat)
    requires 0 < numBeams && |done| == batchSize && |picks| == batchSize * numBeams
    requires forall b :: 0 <= b < |picks| ==> 0 <= picks[b] < numBeams
    requires sample < batchSize && !done[sample]
    ensures GoodIndex(NextBeamIndices(batchSize, numBeams, done, picks))
    ensures StaysInSample(NextBeamIndices(batchSize, numBeams, done, picks), numBeams, sample)
  {
    var idx := NextBeamIndices(batchSize, numBeams, done, picks);
    forall b | 0 <= b < |idx|
      ensures 0 <= idx[b] < |idx|
      ensures b / numBeams == sample ==> idx[b] / numBeams == sample
    {
      Arith.DivBounds(b, numBeams, batchSize);
      Arith.DivMod(b / numBeams, numBeams, picks[b]);
      Arith.CellInRange(b / numBeams, picks[b], batchSize, numBeams);
    }
  }

  /** The entry of every beam of every sample: a finished sample is skipped and keeps the initial zeros, which name
      beam 0 of sample 0. */
  lemma IndexOfBeam(batchSize: nat, numBeams: nat, done: seq<bool>, picks: seq<int>, sample: nat, beam: nat)
    requires 0 < numBeams && |done| == batchSize && |picks| == batchSize * numBeams
    requires forall b :: 0 <= b < |picks| ==> 0 <= picks[b] < numBeams
    requires sample < batchSize && beam < numBeams
    ensures 0 <= sample * numBeams + beam < |picks|
    ensures NextBeamIndices(batchSize, numBeams, done, picks)[sample * numBeams + beam] ==
      if done[sample] then 0 else sample * numBeams + picks[sample * numBeams + beam]
  {
    Arith.CellInRange(sample, beam, batchSize, numBeams);
    Arith.DivMod(sample, numBeams, beam);
  }

  /** The scorer keeps all samples apart exactly until a sample other than the first is finished. */
  lemma SamplesApartIffRunning(batchSize: nat, numBeams: nat, done: seq<bool>, picks: seq<int>)
    requires 0 < numBeams && |done| == batchSize && |picks| == batchSize * numBeams
    requires forall b :: 0 <= b < |picks| ==> 0 <= picks[b] < numBeams
    ensures (forall sample: nat :: StaysInSample(NextBeamIndices(batchSize, numBeams, done, picks), numBeams, sample))
      <==> forall sample :: 0 < sample < batchSize ==> !done[sample]
  {
    var idx := NextBeamIndices(batchSize, numBeams, done, picks);
    if sample :| 0 < sample < batchSize && done[sample] {
      Arith.CellInRange(sample, 0, batchSize, numBeams);
      Arith.DivMod(sample, numBeams, 0);
      assert idx[sample * numBeams] == 0;
      assert !StaysInSample(idx, numBeams, sample);
    } else {
      forall sample: nat
        ensures StaysInSample(idx, numBeams, sample)
      {
        forall b | 0 <= b < |idx| && b / numBeams == sample
          ensures idx[b] / numBeams == sample
        {
          Arith.DivBounds(b, numBeams, batchSize);
          Arith.DivMod(b / numBeams, numBeams, picks[b]);
          Arith.DivMod(0, numBeams, 0);
        }
      }
    }
  }
}
