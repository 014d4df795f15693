/** A sequence being generated: prompt, generated tokens, and how much of it is cached, over any run of
    steps; the ids sequences get; and the pool of sequence groups. */
module Sequences {
  import opened TaskDecode

  type Token = int

  // ---------- one sequence ----------

  datatype Meta = Meta(inputSeqLen: nat, pastSeqLen: nat, prompt: seq<Token>, generated: seq<Token>, step: nat) {
    function TotalTokens(): seq<Token> {
      prompt + generated
    }

    predicate Started() {
      step > 0 ==> inputSeqLen <= |generated|
    }

    function InputTokens(): seq<Token>
      requires Started()
    {
      if step == 0 then prompt else generated[|generated| - inputSeqLen..]
    }
  }

  function Fresh(prompt: seq<Token>): Meta {
    Meta(|prompt|, 0, prompt, [], 0)
  }

  /** One step with a list of tokens; the ordinary step has just one. */
  function StepWith(m: Meta, tokens: seq<Token>): Meta {
    Meta(|tokens|, if m.step == 0 then |m.prompt| else m.pastSeqLen + 1, m.prompt, m.generated + tokens, m.step + 1)
  }

  /** The class as the engine uses it; its methods change the fields one by one. */
  class SequenceMeta {
    const sequenceID: int
    var inputSeqLen: nat
    var pastSeqLen: nat
    var promptTokens: seq<Token>
    var generatedTokens: seq<Token>
    var step: nat

    function Abs(): Meta
      reads this
    {
      Meta(inputSeqLen, pastSeqLen, promptTokens, generatedTokens, step)
    }

    constructor (sequenceID: int, prompt: seq<Token>)
      ensures this.sequenceID == sequenceID && Abs() == Fresh(prompt)
    {
      this.sequenceID := sequenceID;
      inputSeqLen, pastSeqLen, promptTokens, generatedTokens, step := |prompt|, 0, prompt, [], 0;
    }

    method StepForward(genToken: Token)
      modifies this
      ensures Abs() == StepWith(old(Abs()), [genToken])
      ensures inputSeqLen == 1 && pastSeqLen == (if old(step) == 0 then |promptTokens| else old(pastSeqLen) + 1)
      ensures promptTokens == old(promptTokens) && generatedTokens == old(generatedTokens) + [genToken]
        && step == old(step) + 1
    {
      inputSeqLen := 1;
      if step == 0 {
        pastSeqLen := |promptTokens|;
      } else {
        pastSeqLen := pastSeqLen + 1;
      }
      generatedTokens := generatedTokens + [genToken];
      step := step + 1;
    }

    method StepForwardCandidates(candidateIDs: seq<Token>)
      modifies this
      ensures Abs() == StepWith(old(Abs()), candidateIDs)
      ensures inputSeqLen == |candidateIDs|
        && pastSeqLen == (if old(step) == 0 then |promptTokens| else old(pastSeqLen) + 1)
      ensures promptTokens == old(promptTokens) && generatedTokens == old(generatedTokens) + candidateIDs
        && step == old(step) + 1
    {
      inputSeqLen := |candidateIDs|;
      if step == 0 {
        pastSeqLen := |promptTokens|;
      } else {
        pastSeqLen := pastSeqLen + 1;
      }
      generatedTokens := generatedTokens + candidateIDs;
      step := step + 1;
    }
  }

  // ---------- runs ----------

  function Run(prompt: seq<Token>, steps: seq<seq<Token>>): Meta {
    if steps == [] then Fresh(prompt) else StepWith(Run(prompt, steps[..|steps| - 1]), steps[|steps| - 1])
  }

  predicate Single(steps: seq<seq<Token>>) {
    forall i :: 0 <= i < |steps| ==> |steps[i]| == 1
  }

  /** How many tokens the first n steps brought. */
  function Brought(steps: seq<seq<Token>>, n: nat): nat
    requires n <= |steps|
  {
    if n == 0 then 0 else Brought(steps, n - 1) + |steps[n - 1]|
  }

  lemma {:induction false} BroughtPrefix(steps: seq<seq<Token>>, k: nat, n: nat)
    requires n <= k <= |steps|
    ensures Brought(steps[..k], n) == Brought(steps, n)
  {
    if n > 0 {
      BroughtPrefix(steps, k, n - 1);
    }
  }

  lemma {:induction false} RunLengths(prompt: seq<Token>, steps: seq<seq<Token>>)
    ensures var m := Run(prompt, steps);
      && m.prompt == prompt && m.step == |steps| && |m.generated| == Brought(steps, |steps|)
      && (steps == [] ==> m.pastSeqLen == 0 && m.inputSeqLen == |prompt|)
      && (steps != [] ==> m.pastSeqLen == |prompt| + |steps| - 1 && m.inputSeqLen == |steps[|steps| - 1]|)
      && m.Started()
  {
    if steps != [] {
      RunLengths(prompt, steps[..|steps| - 1]);
      BroughtPrefix(steps, |steps| - 1, |steps| - 1);
    }
  }

  /** Cached plus current tokens are all tokens, after any run, exactly if the earlier steps brought one
      token each on average.  One step with two candidates is enough to lose a row. */
  lemma PastPlusInputIff(prompt: seq<Token>, steps: seq<seq<Token>>)
    requires steps != []
    ensures var m := Run(prompt, steps);
      m.pastSeqLen + m.inputSeqLen == |m.TotalTokens()| <==> Brought(steps, |steps| - 1) == |steps| - 1
  {
    RunLengths(prompt, steps);
  }

  lemma {:induction false} SingleBrings(steps: seq<seq<Token>>, n: nat)
    requires Single(steps) && n <= |steps|
    ensures Brought(steps, n) == n
  {
    if n > 0 {
      SingleBrings(steps, n - 1);
    }
  }

  /** Over any run of single-token steps: the lengths add up, the input is the matching suffix of all
      tokens, and nothing before it is missing. */
  lemma SingleTokenRuns(prompt: seq<Token>, steps: seq<seq<Token>>)
    requires Single(steps)
    ensures var m := Run(prompt, steps);
      && m.Started()
      && m.pastSeqLen + m.inputSeqLen == |m.TotalTokens()|
      && m.InputTokens() == m.TotalTokens()[m.pastSeqLen..]
  {
    RunLengths(prompt, steps);
    SingleBrings(steps, |steps|);
    var m := Run(prompt, steps);
    assert m.TotalTokens()[m.pastSeqLen..] == m.InputTokens();
  }

  /** The same, field by field and token by token. */
  lemma {:induction false} SingleTokenRunWrittenOut(prompt: seq<Token>, steps: seq<seq<Token>>)
    requires Single(steps)
    ensures var m := Run(prompt, steps);
      && m.prompt == prompt && |m.generated| == m.step == |steps|
      && (forall i :: 0 <= i < |steps| ==> m.generated[i] == steps[i][0])
      && m.pastSeqLen == (if steps == [] then 0 else |prompt| + |steps| - 1)
      && m.inputSeqLen == (if steps == [] then |prompt| else 1)
  {
    if steps != [] {
      SingleTokenRunWrittenOut(prompt, steps[..|steps| - 1]);
      assert |steps[|steps| - 1]| == 1;
    }
  }

  lemma TwoCandidatesLoseARow(a: Token, b: Token, c: Token)
    ensures var m := Run([], [[a, b], [c]]); m.pastSeqLen + m.inputSeqLen != |m.TotalTokens()|
  {
    PastPlusInputIff([], [[a, b], [c]]);
    var steps := [[a, b], [c]];
    assert Brought(steps, 0) == 0 && Brought(steps, 1) == 2;
  }

  // ---------- positions and cache rows ----------

  function Iota(from: nat, n: nat): (s: seq<nat>)
    ensures |s| == n && forall i :: 0 <= i < n ==> s[i] == from + i
  {
    seq(n, i requires 0 <= i < n => from + i)
  }

  /** Position ids of the tokens a sequence puts in now; the same numbers are its cache rows. */
  function Positions(m: Meta): seq<nat> {
    Iota(m.pastSeqLen, m.inputSeqLen)
  }

  /** All positions used so far, step by step, the current one included. */
  function AllPositions(prompt: seq<Token>, steps: seq<seq<Token>>): seq<nat> {
    if steps == [] then Positions(Fresh(prompt))
    else AllPositions(prompt, steps[..|steps| - 1]) + Positions(Run(prompt, steps))
  }

  /** What the cache rows hold once the current step has stored its keys: each step writes its input
      tokens from row pastSeqLen on, over whatever is there. */
  function CacheRows(prompt: seq<Token>, steps: seq<seq<Token>>): seq<Token> {
    if steps == [] then prompt
    else
      var before, m := CacheRows(prompt, steps[..|steps| - 1]), Run(prompt, steps);
      if m.Started() && m.pastSeqLen <= |before| then before[..m.pastSeqLen] + m.InputTokens() else before
  }

  /** The positions of a run tile the whole sequence: 0, 1, 2, ... in order, none twice, none left out;
      and row p of the cache belongs to token p. */
  lemma {:induction false} PositionsTile(prompt: seq<Token>, steps: seq<seq<Token>>)
    requires Single(steps)
    ensures AllPositions(prompt, steps) == Iota(0, |Run(prompt, steps).TotalTokens()|)
    ensures CacheRows(prompt, steps) == Run(prompt, steps).TotalTokens()
  {
    SingleTokenRuns(prompt, steps);
    if steps != [] {
      var before := steps[..|steps| - 1];
      PositionsTile(prompt, before);
      LastStep(prompt, steps);
      var m, tokens := Run(prompt, steps), Run(prompt, before).TotalTokens();
      IotaMore(m.pastSeqLen, m.inputSeqLen);
      assert tokens[..m.pastSeqLen] == tokens;
      hide Run, Single, Iota;
    }
  }

  lemma IotaMore(m: nat, n: nat)
    ensures Iota(0, m) + Iota(m, n) == Iota(0, m + n)
  {
  }

  /** A single-token step starts where the sequence before it ended, and appends its token. */
  lemma LastStep(prompt: seq<Token>, steps: seq<seq<Token>>)
    requires Single(steps) && steps != []
    ensures var m, before := Run(prompt, steps), Run(prompt, steps[..|steps| - 1]);
      && m.Started() && m.pastSeqLen == |before.TotalTokens()| && |m.TotalTokens()| == m.pastSeqLen + m.inputSeqLen
      && m.TotalTokens() == before.TotalTokens() + m.InputTokens()
  {
    var n := |steps| - 1;
    var before := Run(prompt, steps[..n]);
    assert Run(prompt, steps) == StepWith(before, steps[n]);
    RunLengths(prompt, steps);
    RunLengths(prompt, steps[..n]);
    SingleBrings(steps[..n], n);
    hide Run, Brought, Single;
    assert steps[n] == [steps[n][0]];
    StepAppends(before, steps[n][0]);
  }

  lemma StepAppends(before: Meta, token: Token)
    ensures var m := StepWith(before, [token]);
      m.Started() && m.InputTokens() == [token] && m.TotalTokens() == before.TotalTokens() + [token]
  {
    var m := StepWith(before, [token]);
    assert m.TotalTokens() == before.TotalTokens() + [token];
    assert m.InputTokens() == [token];
  }

  // ---------- position ids of a mixed batch ----------

  function InputLens(seqs: seq<Meta>): (c: seq<nat>)
    ensures |c| == |seqs| && forall i :: 0 <= i < |c| ==> c[i] == seqs[i].inputSeqLen
  {
    seq(|seqs|, i requires 0 <= i < |seqs| => seqs[i].inputSeqLen)
  }

  /** The sequences' own positions, one after the other. */
  function Stacked(seqs: seq<Meta>, n: nat): seq<nat>
    requires n <= |seqs|
  {
    if n == 0 then [] else Stacked(seqs, n - 1) + Positions(seqs[n - 1])
  }

  lemma StackedEmpty(seqs: seq<Meta>)
    ensures Stacked(seqs, 0) == []
  {
  }

  lemma StackedNext(seqs: seq<Meta>, n: nat)
    requires n < |seqs|
    ensures Stacked(seqs, n + 1) == Stacked(seqs, n) + Positions(seqs[n])
  {
  }

  lemma {:induction false} StackedLength(seqs: seq<Meta>, n: nat)
    requires n <= |seqs|
    ensures |Stacked(seqs, n)| == Total(InputLens(seqs), n)
  {
    if n > 0 {
      StackedLength(seqs, n - 1);
    }
  }

  /** Sequence i finds its own positions at its own offset, whatever the others are doing. */
  lemma {:induction false} StackedAt(seqs: seq<Meta>, i: nat, n: nat)
    requires i < n <= |seqs|
    ensures Total(InputLens(seqs), i) <= Total(InputLens(seqs), i + 1) <= |Stacked(seqs, n)|
    ensures Stacked(seqs, n)[Total(InputLens(seqs), i)..Total(InputLens(seqs), i + 1)] == Positions(seqs[i])
  {
    hide Positions, InputLens;
    var lo, hi := Total(InputLens(seqs), i), Total(InputLens(seqs), i + 1);
    var before := Stacked(seqs, n - 1);
    StackedLength(seqs, n - 1);
    StackedLength(seqs, n);
    if i < n - 1 {
      StackedAt(seqs, i, n - 1);
      assert Stacked(seqs, n)[lo..hi] == before[lo..hi];
    } else {
      assert lo == |before| && hi == |before| + |Positions(seqs[i])|;
      assert (before + Positions(seqs[i]))[lo..hi] == Positions(seqs[i]);
    }
  }

  /** The sequences' tokens are stacked; each sequence numbers its own from its past length on, whether
      it is at its prompt or in the middle of generation. */
  method DefaultPositionIds(seqs: seq<Meta>) returns (posIds: array<nat>)
    ensures posIds[..] == Stacked(seqs, |seqs|)
  {
    hide InputLens, Total, Stacked, Iota;
    ghost var lens := InputLens(seqs);
    TotalEmpty(lens);
    StackedEmpty(seqs);
    var totInSeqLen := 0;
    for i := 0 to |seqs|
      invariant totInSeqLen == Total(lens, i)
    {
      TotalNext(lens, i);
      totInSeqLen := totInSeqLen + seqs[i].inputSeqLen;
    }
    posIds := new nat[totInSeqLen];
    var loc := 0;
    for i := 0 to |seqs|
      invariant loc == Total(lens, i) <= posIds.Length
      invariant posIds[..loc] == Stacked(seqs, i)
    {
      TotalNext(lens, i);
      TotalMono(lens, i + 1, |seqs|);
      StackedNext(seqs, i);
      FillIota(posIds, loc, seqs[i].inputSeqLen, seqs[i].pastSeqLen);
      assert posIds[..loc + seqs[i].inputSeqLen] == posIds[..loc] + posIds[loc..loc + seqs[i].inputSeqLen];
      loc := loc + seqs[i].inputSeqLen;
    }
    assert posIds[..loc] == posIds[..];
  }

  /** Token k of sequence i sits behind the tokens of the sequences before it, and its position is k behind the
      sequence's past length. */
  lemma PositionOfToken(seqs: seq<Meta>, i: nat, k: nat)
    requires i < |seqs| && k < seqs[i].inputSeqLen
    ensures var at := Total(InputLens(seqs), i) + k;
      at < |Stacked(seqs, |seqs|)| && Stacked(seqs, |seqs|)[at] == seqs[i].pastSeqLen + k
  {
    hide Total, Stacked, Iota;
    StackedAt(seqs, i, |seqs|);
    TotalNext(InputLens(seqs), i);
    var lo, hi := Total(InputLens(seqs), i), Total(InputLens(seqs), i + 1);
    assert Stacked(seqs, |seqs|)[lo + k] == Stacked(seqs, |seqs|)[lo..hi][k];
  }

  method FillIota(a: array<nat>, at: nat, n: nat, from: nat)
    requires at + n <= a.Length
    modifies a
    ensures a[..at] == old(a[..at]) && a[at..at + n] == Iota(from, n) && a[at + n..] == old(a[at + n..])
  {
    for i := 0 to n
      invariant forall k :: 0 <= k < a.Length ==> a[k] == if at <= k < at + i then from + (k - at) else old(a[k])
    {
      a[at + i] := from + i;
    }
  }

  // ---------- sequence ids ----------

  const ID_LIMIT: int := 10 * 1024

  class SequenceIDManager {
    var globalSequenceID: int
    /** how many ids have been handed out */
    ghost var created: nat

    ghost predicate Valid()
      reads this
    {
      0 <= globalSequenceID <= ID_LIMIT && (created > 0 ==> globalSequenceID == IdOf(created - 1) + 1)
        && (created == 0 ==> globalSequenceID == 0)
    }

    constructor ()
      ensures Valid() && created == 0
    {
      globalSequenceID, created := 0, 0;
    }

    method CreateSequenceID() returns (id: int)
      requires Valid()
      modifies this
      ensures Valid() && created == old(created) + 1 && id == IdOf(old(created)) == old(created) % 10240
    {
      if created > 0 {
        IdNext(created - 1);
      }
      id := globalSequenceID;
      globalSequenceID := globalSequenceID + 1;
      if id >= ID_LIMIT {
        globalSequenceID := 0;
        id := globalSequenceID;
        globalSequenceID := globalSequenceID + 1;
      }
      created := created + 1;
    }
  }

  /** The id the n-th creation gets. */
  function IdOf(n: nat): (id: int)
    ensures 0 <= id < ID_LIMIT
  {
    n % ID_LIMIT
  }

  lemma IdNext(n: nat)
    ensures IdOf(n + 1) == if IdOf(n) + 1 == ID_LIMIT then 0 else IdOf(n) + 1
  {
    var q, r := n / ID_LIMIT, n % ID_LIMIT;
    assert n == q * ID_LIMIT + r;
    if r + 1 == ID_LIMIT {
      assert n + 1 == (q + 1) * ID_LIMIT + 0;
      Arith.DivMod(q + 1, ID_LIMIT, 0);
    } else {
      Arith.DivMod(q, ID_LIMIT, r + 1);
    }
  }

  /** Two creations get the same id exactly if they are a multiple of 10240 creations apart. */
  lemma IdsCollideIff(m: nat, n: nat)
    requires m <= n
    ensures IdOf(m) == IdOf(n) <==> (n - m) % ID_LIMIT == 0
  {
    var q, r, p, t := m / ID_LIMIT, m % ID_LIMIT, n / ID_LIMIT, n % ID_LIMIT;
    assert m == q * ID_LIMIT + r && n == p * ID_LIMIT + t;
    assert n - m == (p - q) * ID_LIMIT + (t - r);
    if t >= r {
      Arith.DivMod(p - q, ID_LIMIT, t - r);
    } else {
      assert n - m == (p - q - 1) * ID_LIMIT + (t - r + ID_LIMIT);
      Arith.DivMod(p - q - 1, ID_LIMIT, t - r + ID_LIMIT);
    }
  }

  // ---------- the pool of sequence groups ----------

  /** Groups by id, and the groups whose memory has been given back. */
  class SequencePool<G(==)> {
    var hub: map<int, G>
    ghost var deleted: set<G>

    /** No group in the pool has been deleted, and none is pooled twice. */
    ghost predicate Valid()
      reads this
    {
      (forall id :: id in hub ==> hub[id] !in deleted)
        && (forall a, b :: a in hub && b in hub && a != b ==> hub[a] != hub[b])
    }

    constructor ()
      ensures Valid() && hub == map[] && deleted == {}
    {
      hub, deleted := map[], {};
    }

    method Remove(groupID: int, deep: bool) returns (ok: bool)
      modifies this
      ensures ok == (groupID in old(hub)) && hub == old(hub) - {groupID}
      ensures deleted == old(deleted) + if ok && deep then {old(hub)[groupID]} else {}
      ensures old(Valid()) ==> Valid()
    {
      ok := groupID in hub;
      if ok {
        if deep {
          deleted := deleted + {hub[groupID]};
        }
        hub := hub - {groupID};
      }
    }

    /** Without force an id already taken is refused; with force its group is deleted and replaced.  The
        pool stays sound unless the group handed in is the one deleted, or sits under another id. */
    method Add(groupID: int, group: G, force: bool) returns (ok: bool)
      modifies this
      ensures ok == (force || groupID !in old(hub))
      ensures hub == if ok then old(hub)[groupID := group] else old(hub)
      ensures deleted == old(deleted) + if force && groupID in old(hub) then {old(hub)[groupID]} else {}
      ensures (old(Valid()) && ok && group !in old(deleted)
               && forall id :: id in old(hub) && id != groupID ==> old(hub)[id] != group) ==>
        (Valid() <==> !(groupID in old(hub) && old(hub)[groupID] == group))
      ensures old(Valid()) && !ok ==> Valid()
    {
      if force {
        if groupID in hub {
          var _ := Remove(groupID, true);
        }
        hub := hub[groupID := group];
        assert hub[groupID] == group;
        ok := true;
      } else {
        ok := groupID !in hub;
        if ok {
          hub := hub[groupID := group];
        }
      }
    }

    method Replace(groupID: int, group: G) returns (ok: bool)
      modifies this
      ensures ok == (groupID in old(hub))
      ensures hub == if ok then old(hub)[groupID := group] else old(hub)
      ensures deleted == old(deleted) + if ok then {old(hub)[groupID]} else {}
    {
      ok := groupID in hub;
      if ok {
        var _ := Remove(groupID, true);
        hub := hub[groupID := group];
      }
    }

    /** A new group is handed out in any case, but it only enters the pool if its id is not taken; with
        ids that repeat, a long-lived group keeps the newcomer out. */
    method NewGroup(groupID: int, group: G) returns (result: G)
      modifies this
      ensures result == group && deleted == old(deleted)
      ensures (groupID in hub && hub[groupID] == group) <==> groupID !in old(hub) || old(hub)[groupID] == group
      ensures groupID in old(hub) ==> hub == old(hub)
    {
      var _ := Add(groupID, group, false);
      result := group;
    }

    /** Without an id of its own a group takes the id of its first sequence; every beam draws one from the id
        manager.  So the group enters the pool exactly if no group made a multiple of 10240 creations ago is
        still there. */
    method NewGroupWithIds(ids: SequenceIDManager, numBeams: nat, group: G) returns (result: G)
      requires ids.Valid() && 0 < numBeams && ids as object != this
      modifies this, ids
      ensures ids.Valid() && ids.created == old(ids.created) + numBeams
      ensures var groupID := IdOf(old(ids.created));
        && result == group && deleted == old(deleted)
        && ((groupID in hub && hub[groupID] == group) <==> groupID !in old(hub) || old(hub)[groupID] == group)
        && (groupID in old(hub) ==> hub == old(hub))
    {
      hide IdOf;
      var groupID := ids.CreateSequenceID();
      for i := 1 to numBeams
        invariant ids.Valid() && ids.created == old(ids.created) + i
        invariant hub == old(hub) && deleted == old(deleted)
      {
        var _ := ids.CreateSequenceID();
      }
      result := NewGroup(groupID, group);
    }
  }
}
