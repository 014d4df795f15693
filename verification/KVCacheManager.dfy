/** The key and value tensors of all layers: broadcasting and gathering them together. */
module KVCacheManagers {
  import opened ReorderPlan
  import opened KVLayout
  import opened KVCacheTensors
  import opened BeamSearch

  function ReorderedCache<T(==)>(cache: seq<seq<seq<T>>>, idx: seq<int>, initSeqLen: nat, accSeqLen: nat,
                            word: nat): (c: seq<seq<seq<T>>>)
    requires GoodIndex(idx) && IsCache(cache, |idx|)
    ensures |c| == |cache| && IsCache(c, |idx|)
  {
    seq(|cache|, t requires 0 <= t < |cache| =>
      if initSeqLen <= t < accSeqLen then Run(cache[t], idx, |idx|, SameWord(word)).rows else cache[t])
  }

  function ExpandedCache<T>(cache: seq<seq<seq<T>>>, beamSize: nat, seqLen: nat): (c: seq<seq<seq<T>>>)
    requires 0 < beamSize
    ensures |c| == |cache|
  {
    seq(|cache|, t requires 0 <= t < |cache| => if t < seqLen then Expand(cache[t], beamSize) else cache[t])
  }

  /** Every sample shares the prefix rows at the first seqLen positions. */
  function PrefixedCache<T>(cache: seq<seq<seq<T>>>, prefix: seq<seq<seq<T>>>, userSideBS: nat,
                            seqLen: nat): (c: seq<seq<seq<T>>>)
    requires seqLen <= |prefix| && forall t :: 0 <= t < seqLen ==> 0 < |prefix[t]|
    ensures |c| == |cache|
  {
    seq(|cache|, t requires 0 <= t < |cache| => if t < seqLen then Filled(cache[t], userSideBS, prefix[t][0])
      else cache[t])
  }

  /** A broadcast cache: the prompt positions are broadcasts, later positions are untouched. */
  lemma ExpandedWrittenOut<T>(cache: seq<seq<seq<T>>>, beamSize: nat, seqLen: nat, t: nat)
    requires 0 < beamSize && t < |cache|
    ensures t >= seqLen ==> ExpandedCache(cache, beamSize, seqLen)[t] == cache[t]
    ensures t < seqLen ==> IsBroadcast(ExpandedCache(cache, beamSize, seqLen)[t], cache[t], beamSize)
  {
    hide Expand, IsBroadcast;
    if t < seqLen {
      ExpandIsBroadcast(cache[t], beamSize);
    }
  }

  lemma LayerWrittenOut<T>(before: seq<seq<seq<seq<T>>>>, after: seq<seq<seq<seq<T>>>>, layer: nat, beamSize: nat,
                           seqLen: nat, maxSeqLen: nat)
    requires 0 < beamSize && seqLen <= maxSeqLen && 2 * layer + 1 < |before|
    requires forall i :: 0 <= i < |before| ==> |before[i]| == maxSeqLen
    requires after == before[2 * layer := ExpandedCache(before[2 * layer], beamSize, seqLen)]
                            [2 * layer + 1 := ExpandedCache(before[2 * layer + 1], beamSize, seqLen)]
    ensures forall i, t :: (i == 2 * layer || i == 2 * layer + 1) && 0 <= t < maxSeqLen ==>
      && |after[i]| == maxSeqLen
      && if t < seqLen then IsBroadcast(after[i][t], before[i][t], beamSize) else after[i][t] == before[i][t]
  {
    hide ExpandedCache, IsBroadcast;
    forall i, t | (i == 2 * layer || i == 2 * layer + 1) && 0 <= t < maxSeqLen
      ensures |after[i]| == maxSeqLen
      ensures if t < seqLen then IsBroadcast(after[i][t], before[i][t], beamSize) else after[i][t] == before[i][t]
    {
      ExpandedWrittenOut(before[i], beamSize, seqLen, t);
    }
  }

  /** A reordered cache, row by row: where leading words tell rows apart, the positions in range have row idx[b] of the
      position in row b; all other positions are untouched. */
  lemma ReorderedWrittenOut<T>(cache: seq<seq<seq<T>>>, idx: seq<int>, initSeqLen: nat, accSeqLen: nat, word: nat,
                               t: nat)
    requires GoodIndex(idx) && IsCache(cache, |idx|) && t < |cache|
    ensures !(initSeqLen <= t < accSeqLen) ==>
      ReorderedCache(cache, idx, initSeqLen, accSeqLen, word)[t] == cache[t]
    ensures initSeqLen <= t < accSeqLen && TellsApart(cache[t], word) ==>
      forall b :: 0 <= b < |idx| ==>
        ReorderedCache(cache, idx, initSeqLen, accSeqLen, word)[t][b] == cache[t][idx[b]]
  {
    hide Run, TellsApart;
    if initSeqLen <= t < accSeqLen && TellsApart(cache[t], word) {
      forall b | 0 <= b < |idx|
        ensures ReorderedCache(cache, idx, initSeqLen, accSeqLen, word)[t][b] == cache[t][idx[b]]
      {
        ReorderWrittenOut(cache[t], idx, word, b);
      }
    }
  }

  /** A prefixed cache, row by row: the samples of the user side have the prefix rows, the others keep theirs. */
  lemma PrefixedWrittenOut<T>(cache: seq<seq<seq<T>>>, prefix: seq<seq<seq<T>>>, userSideBS: nat, seqLen: nat, t: nat,
                              b: nat)
    requires seqLen <= |prefix| && t < |cache| && b < |cache[t]|
    requires forall t :: 0 <= t < seqLen ==> 0 < |prefix[t]|
    ensures b < |PrefixedCache(cache, prefix, userSideBS, seqLen)[t]|
    ensures PrefixedCache(cache, prefix, userSideBS, seqLen)[t][b] ==
      if t < seqLen && b < userSideBS then prefix[t][0] else cache[t][b]
  {
  }

  /** The prefix of a run: filled in for every sample, then broadcast, it is in every beam of every sample. */
  lemma PrefixedThenExpanded<T>(cache: seq<seq<seq<T>>>, prefix: seq<seq<seq<T>>>, userSideBS: nat, beamSize: nat,
                                prefixLen: nat, seqLen: nat, t: nat, b: nat)
    requires 0 < beamSize && prefixLen <= |prefix| && prefixLen <= seqLen
    requires forall t :: 0 <= t < prefixLen ==> 0 < |prefix[t]|
    requires t < prefixLen && t < |cache| && b < |cache[t]| && b < userSideBS * beamSize
    ensures var full := ExpandedCache(PrefixedCache(cache, prefix, userSideBS, prefixLen), beamSize, seqLen);
      b < |full[t]| && full[t][b] == prefix[t][0]
  {
    hide Expand;
    FilledThenExpanded(cache[t], userSideBS, prefix[t][0], beamSize, b);
  }

  class KVCacheManager<T(==,0)> {
    const layers: nat
    /** the key and the value tensor of layer 0, then those of layer 1, ... */
    const tensors: seq<KVCacheTensor<T>>
    /** how many elements eight bytes hold */
    const word: nat

    function GetKey(layerId: nat): KVCacheTensor<T>
      requires |tensors| == 2 * layers && layerId < layers
    {
      tensors[2 * layerId]
    }

    function GetValue(layerId: nat): KVCacheTensor<T>
      requires |tensors| == 2 * layers && layerId < layers
    {
      tensors[2 * layerId + 1]
    }

    /** No tensor and no buffer appears twice. */
    ghost predicate Valid()
      reads tensors
    {
      && |tensors| == 2 * layers
      && (forall i, j :: 0 <= i < j < |tensors| ==> tensors[i] != tensors[j] && tensors[i].data != tensors[j].data)
      && (forall i :: 0 <= i < |tensors| ==> tensors[i].Valid() && tensors[i].word == word)
    }

    ghost predicate HasShape(sh: Shape)
      reads tensors
    {
      forall i :: 0 <= i < |tensors| ==> tensors[i].GetShape() == sh
    }

    ghost function Buffers(): set<array<T>>
      reads tensors
    {
      set i | 0 <= i < |tensors| :: tensors[i].data
    }

    /** What all tensors hold. */
    ghost function Caches(): (c: seq<seq<seq<seq<T>>>>)
      requires Valid()
      reads tensors, Buffers()
      ensures |c| == |tensors| && forall i :: 0 <= i < |c| ==> c[i] == tensors[i].Cache()
    {
      seq(|tensors|, i requires 0 <= i < |tensors| && Valid() reads tensors, Buffers() => tensors[i].Cache())
    }

    lemma CachesFit(sh: Shape)
      requires Valid() && HasShape(sh)
      ensures forall i :: 0 <= i < |tensors| ==> |Caches()[i]| == sh.maxSeqLen && IsCache(Caches()[i], sh.batchSize)
    {
    }

    /** Empty tensors; they get their shapes from Resize. */
    constructor (layers: nat, word: nat)
      requires 0 < word
      ensures Valid() && HasShape(Shape(0, 0, 0, 0)) && this.layers == layers && this.word == word
      ensures forall i :: 0 <= i < |tensors| ==> fresh(tensors[i]) && fresh(tensors[i].data)
    {
      var empty := NewTensors(2 * layers, word);
      this.layers, this.word := layers, word;
      tensors := empty;
    }

    /** Give every tensor the same shape; a buffer that is large enough is kept. */
    method Resize(maxSeqLen: nat, batchSize: nat, headNum: nat, headSize: nat)
      requires Valid()
      modifies tensors
      ensures Valid() && HasShape(Shape(maxSeqLen, batchSize, headNum, headSize))
      ensures forall i :: 0 <= i < |tensors| ==> tensors[i].data == old(tensors[i].data) || fresh(tensors[i].data)
    {
      for i := 0 to 2 * layers
        invariant Valid() && forall k :: 0 <= k < i ==>
          tensors[k].GetShape() == Shape(maxSeqLen, batchSize, headNum, headSize)
        invariant forall k :: 0 <= k < |tensors| ==> tensors[k].data == old(tensors[k].data) || fresh(tensors[k].data)
        invariant forall k :: i <= k < |tensors| ==> unchanged(tensors[k])
      {
        tensors[i].Resize(maxSeqLen, batchSize, headNum, headSize);
      }
    }

    /** Changing one tensor's buffer changes that tensor's contents only. */
    twostate lemma OthersKept(i: nat)
      requires old(Valid()) && i < |tensors|
      requires forall k :: 0 <= k < |tensors| ==> unchanged(tensors[k])
      requires forall k :: 0 <= k < |tensors| && k != i ==> unchanged(tensors[k].data)
      ensures Valid() && Caches() == old(Caches())[i := tensors[i].Cache()]
      ensures forall sh :: old(HasShape(sh)) ==> HasShape(sh)
    {
      hide KVCacheTensor.Cache;
    }

    /** Broadcast the prompt positions of one layer, keys and values. */
    method ExpandCache(kvTrans: bool, layerId: nat, userSideBS: nat, beamSize: nat, seqLen: nat, ghost sh: Shape)
      returns (supported: bool)
      requires Valid() && HasShape(sh) && layerId < layers && 0 < beamSize && seqLen <= sh.maxSeqLen
      modifies Buffers()
      ensures Valid() && HasShape(sh)
      ensures seqLen > 0 ==> supported == !kvTrans
      ensures Caches() == if kvTrans then old(Caches())
        else var k, v := 2 * layerId, 2 * layerId + 1;
          old(Caches())[k := ExpandedCache(old(Caches())[k], beamSize, seqLen)]
                       [v := ExpandedCache(old(Caches())[v], beamSize, seqLen)]
      ensures !kvTrans ==> forall i, t :: (i == 2 * layerId || i == 2 * layerId + 1) && 0 <= t < sh.maxSeqLen ==>
        && |old(Caches())[i]| == |Caches()[i]| == sh.maxSeqLen
        && if t < seqLen then IsBroadcast(Caches()[i][t], old(Caches())[i][t], beamSize)
           else Caches()[i][t] == old(Caches())[i][t]
    {
      hide ExpandedCache, Caches, Expand, IsBroadcast;
      ghost var start := Caches();
      CachesFit(sh);
      var ok1 := ExpandTensor(2 * layerId, kvTrans, userSideBS, beamSize, seqLen, sh);
      var ok2 := ExpandTensor(2 * layerId + 1, kvTrans, userSideBS, beamSize, seqLen, sh);
      supported := ok1 && ok2;
      if !kvTrans {
        LayerWrittenOut(start, Caches(), layerId, beamSize, seqLen, sh.maxSeqLen);
      }
    }

    /** One tensor of the loop over { keys, values }. */
    method ExpandTensor(i: nat, kvTrans: bool, userSideBS: nat, beamSize: nat, seqLen: nat, ghost sh: Shape)
      returns (supported: bool)
      requires Valid() && HasShape(sh) && i < |tensors| && 0 < beamSize && seqLen <= sh.maxSeqLen
      modifies Buffers()
      ensures Valid() && HasShape(sh)
      ensures seqLen > 0 ==> supported == !kvTrans
      ensures Caches() == if kvTrans then old(Caches())
        else old(Caches())[i := ExpandedCache(old(Caches())[i], beamSize, seqLen)]
    {
      hide Expand, Caches;
      supported := ExpandPositions(tensors[i], kvTrans, userSideBS, beamSize, seqLen);
      OthersKept(i);
    }

    static method ExpandPositions(tensor: KVCacheTensor<T>, kvTrans: bool, userSideBS: nat, beamSize: nat, seqLen: nat)
      returns (supported: bool)
      requires tensor.Valid() && 0 < beamSize && seqLen <= tensor.maxSeqLen
      modifies tensor.data
      ensures tensor.Valid() && (seqLen > 0 ==> supported == !kvTrans)
      ensures tensor.Cache() == if kvTrans then old(tensor.Cache())
        else ExpandedCache(old(tensor.Cache()), beamSize, seqLen)
    {
      hide Expand;
      supported := true;
      for s := 0 to seqLen
        invariant tensor.Valid() && (s > 0 ==> supported == !kvTrans)
        invariant tensor.Cache() == if kvTrans then old(tensor.Cache())
          else ExpandedCache(old(tensor.Cache()), beamSize, s)
      {
        supported := tensor.ExpandOneSequence(kvTrans, userSideBS, beamSize, s);
      }
    }

    /** Copy the shared prefix of one layer, keys and values, to every sample. */
    method ExpandPrefixCache(kvTrans: bool, layerId: nat, userSideBS: nat, seqLen: nat, prefixKey: KVCacheTensor<T>,
                             prefixValue: KVCacheTensor<T>, ghost sh: Shape) returns (supported: bool)
      requires Valid() && HasShape(sh) && layerId < layers && userSideBS <= sh.batchSize && seqLen <= sh.maxSeqLen
      requires GoodPrefix(prefixKey, sh, seqLen) && GoodPrefix(prefixValue, sh, seqLen)
      modifies Buffers()
      ensures Valid() && HasShape(sh) && supported == !kvTrans
      ensures Caches() == if kvTrans then old(Caches())
        else var k, v := 2 * layerId, 2 * layerId + 1;
          old(Caches())[k := PrefixedCache(old(Caches())[k], old(prefixKey.Cache()), userSideBS, seqLen)]
                       [v := PrefixedCache(old(Caches())[v], old(prefixValue.Cache()), userSideBS, seqLen)]
    {
      hide PrefixedCache, Caches, KVCacheTensor.Cache;
      if kvTrans {
        return false;
      }
      PrefixTensor(2 * layerId, userSideBS, seqLen, prefixKey, sh);
      assert prefixValue.Cache() == old(prefixValue.Cache());
      PrefixTensor(2 * layerId + 1, userSideBS, seqLen, prefixValue, sh);
      supported := true;
    }

    /** A prefix tensor has one sample, the heads of the others, and a buffer of its own. */
    ghost predicate GoodPrefix(prefix: KVCacheTensor<T>, sh: Shape, seqLen: nat)
      reads prefix, tensors
    {
      && prefix.Valid() && prefix.batchSize == 1 && prefix.headNum == sh.headNum && prefix.headSize == sh.headSize
        && seqLen <= prefix.maxSeqLen
      && prefix.data !in Buffers()
    }

    method PrefixTensor(i: nat, userSideBS: nat, seqLen: nat, prefix: KVCacheTensor<T>, ghost sh: Shape)
      requires Valid() && HasShape(sh) && i < |tensors| && userSideBS <= sh.batchSize && seqLen <= sh.maxSeqLen
        && GoodPrefix(prefix, sh, seqLen)
      modifies Buffers()
      ensures Valid() && HasShape(sh) && GoodPrefix(prefix, sh, seqLen) && prefix.Cache() == old(prefix.Cache())
      ensures Caches() == old(Caches())[i := PrefixedCache(old(Caches())[i], old(prefix.Cache()), userSideBS, seqLen)]
    {
      hide PrefixedCache, Caches;
      PrefixPositions(tensors[i], userSideBS, seqLen, prefix);
      OthersKept(i);
    }

    static method PrefixPositions(tensor: KVCacheTensor<T>, userSideBS: nat, seqLen: nat, prefix: KVCacheTensor<T>)
      requires tensor.Valid() && prefix.Valid() && tensor.data != prefix.data
      requires prefix.batchSize == 1 && prefix.headNum == tensor.headNum && prefix.headSize == tensor.headSize
      requires userSideBS <= tensor.batchSize && seqLen <= tensor.maxSeqLen && seqLen <= prefix.maxSeqLen
      modifies tensor.data
      ensures tensor.Valid()
        && tensor.Cache() == PrefixedCache(old(tensor.Cache()), old(prefix.Cache()), userSideBS, seqLen)
    {
      hide Filled;
      for s := 0 to seqLen
        invariant tensor.Valid() && prefix.Valid()
        invariant tensor.Cache() == PrefixedCache(old(tensor.Cache()), old(prefix.Cache()), userSideBS, s)
      {
        var row := prefix.FirstRow(s);
        tensor.FillPosition(s, userSideBS, row);
      }
    }

    /** Gather the beams of every layer, keys and values. */
    method ReorderCache(kvTrans: bool, idx: seq<int>, size: nat, initSeqLen: nat, accSeqLen: nat, ghost sh: Shape)
      returns (supported: bool)
      requires Valid() && HasShape(sh) && accSeqLen <= sh.maxSeqLen
      requires 0 < sh.batchSize == |idx| && GoodIndex(idx) && word <= sh.headNum * sh.headSize
      modifies Buffers()
      ensures Valid() && HasShape(sh) && supported == !kvTrans
      ensures kvTrans ==> Caches() == old(Caches())
      ensures !kvTrans ==> forall i :: 0 <= i < 2 * layers ==>
        && IsCache(old(Caches())[i], |idx|)
        && Caches()[i] == ReorderedCache(old(Caches())[i], idx, initSeqLen, accSeqLen, word)
    {
      if kvTrans {
        return false;
      }
      hide Run, SameWord, ReorderedCache, Caches;
      ghost var caches := Caches();
      CachesFit(sh);
      var i := 0;
      while i < 2 * layers
        invariant 0 <= i <= 2 * layers && Valid() && HasShape(sh) && |caches| == 2 * layers
        invariant forall k :: 0 <= k < i ==> Caches()[k] == ReorderedCache(caches[k], idx, initSeqLen, accSeqLen, word)
        invariant forall k :: i <= k < 2 * layers ==> Caches()[k] == caches[k]
      {
        ReorderHalfLayer(i, idx, size, initSeqLen, accSeqLen, sh);
        i := i + 1;
      }
      supported := true;
    }

    /** One generated token: gather the beams of all layers, then every layer stores the rows of the
        new token (rows[i] for tensor i) at position accSeqLen. */
    method NextToken(idx: seq<int>, size: nat, initSeqLen: nat, accSeqLen: nat, rows: seq<seq<seq<T>>>, ghost sh: Shape)
      requires Valid() && HasShape(sh) && initSeqLen <= accSeqLen < sh.maxSeqLen && |rows| == 2 * layers
      requires 0 < sh.batchSize == |idx| && GoodIndex(idx) && word <= sh.headNum * sh.headSize
      requires forall i, b :: 0 <= i < |rows| && 0 <= b < |rows[i]| ==> |rows[i][b]| == sh.headNum * sh.headSize
      requires IsCache(rows, sh.batchSize)
      modifies Buffers()
      ensures Valid() && HasShape(sh)
      ensures forall i :: 0 <= i < 2 * layers ==>
        && IsCache(old(Caches())[i], |idx|) && accSeqLen < |old(Caches())[i]|
        && Caches()[i] == ReorderedCache(old(Caches())[i], idx, initSeqLen, accSeqLen, word)[accSeqLen := rows[i]]
    {
      hide Run, SameWord, ReorderedCache, Caches;
      CachesFit(sh);
      var supported := ReorderCache(false, idx, size, initSeqLen, accSeqLen, sh);
      ghost var gathered := Caches();
      for i := 0 to 2 * layers
        invariant Valid() && HasShape(sh) && |gathered| == 2 * layers
        invariant forall k :: 0 <= k < 2 * layers ==> accSeqLen < |gathered[k]|
        invariant forall k :: 0 <= k < i ==> Caches()[k] == gathered[k][accSeqLen := rows[k]]
        invariant forall k :: i <= k < 2 * layers ==> Caches()[k] == gathered[k]
      {
        StoreTensor(i, accSeqLen, rows[i], sh);
      }
    }

    method StoreTensor(i: nat, s: nat, rows: seq<seq<T>>, ghost sh: Shape)
      requires Valid() && HasShape(sh) && s < sh.maxSeqLen && i < |tensors| && |rows| == sh.batchSize
      requires forall b :: 0 <= b < |rows| ==> |rows[b]| == sh.headNum * sh.headSize
      modifies Buffers()
      ensures Valid() && HasShape(sh) && s < |old(Caches())[i]|
      ensures Caches() == old(Caches())[i := old(Caches())[i][s := rows]]
    {
      hide Caches;
      tensors[i].StoreToken(s, rows);
      OthersKept(i);
    }

    /** The body of the loop over tensors: even numbers are keys, odd numbers values, of layer i / 2. */
    method ReorderHalfLayer(i: nat, idx: seq<int>, size: nat, initSeqLen: nat, accSeqLen: nat, ghost sh: Shape)
      requires Valid() && HasShape(sh) && accSeqLen <= sh.maxSeqLen && i < 2 * layers
      requires 0 < sh.batchSize == |idx| && GoodIndex(idx) && word <= sh.headNum * sh.headSize
      modifies Buffers()
      ensures Valid() && HasShape(sh)
      ensures IsCache(old(Caches())[i], |idx|)
      ensures Caches() == old(Caches())[i := ReorderedCache(old(Caches())[i], idx, initSeqLen, accSeqLen, word)]
    {
      hide Run, SameWord, ReorderedCache, Caches;
      CachesFit(sh);
      var layer := i / 2;
      var tensor := if i % 2 == 0 then GetKey(layer) else GetValue(layer);
      assert tensor == tensors[i];
      ReorderTensor(tensor, idx, size, initSeqLen, accSeqLen);
      OthersKept(i);
    }

    static method ReorderTensor(tensor: KVCacheTensor<T>, idx: seq<int>, size: nat, initSeqLen: nat, accSeqLen: nat)
      requires tensor.Valid() && accSeqLen <= tensor.maxSeqLen
      requires 0 < tensor.batchSize == |idx| && GoodIndex(idx) && tensor.word <= tensor.Cols()
      modifies tensor.data
      ensures tensor.Valid()
      ensures tensor.Cache() == ReorderedCache(old(tensor.Cache()), idx, initSeqLen, accSeqLen, tensor.word)
    {
      hide Run, SameWord;
      assert idx[..tensor.batchSize] == idx;
      tensor.Reorder(idx, size, initSeqLen, accSeqLen);
    }

    /** A whole beam-search run over all layers: the prompt positions of every layer are broadcast from the
        samples to their beams, then every token gathers the beams and stores its rows.  Every key and
        value tensor ends up holding the run in which only positions after the prompt are gathered; each
        beam owns the rows its ancestors wrote; and if every step keeps the samples apart, that is the same
        as having gathered the whole cache every time. */
    method RunBeams(userSideBS: nat, beamSize: nat, seqLen: nat, steps: seq<TokenStep<T>>, ghost sh: Shape)
      requires Valid() && HasShape(sh) && 0 < beamSize && 0 < sh.batchSize && seqLen + |steps| <= sh.maxSeqLen
      requires word <= sh.headNum * sh.headSize
      requires forall t :: 0 <= t < |steps| ==> GoodToken(steps[t], sh, 2 * layers, word)
      modifies Buffers()
      ensures Valid() && HasShape(sh)
      ensures forall i :: 0 <= i < 2 * layers ==>
        RunResult(Caches()[i], old(Caches())[i], beamSize, seqLen, StepsOf(steps, i), sh.batchSize)
      ensures forall i, t :: 0 <= i < 2 * layers && 0 <= t < seqLen ==>
        && t < |Caches()[i]| && t < |old(Caches())[i]|
        && IsBroadcast(Caches()[i][t], old(Caches())[i][t], beamSize)
    {
      hide IsBroadcast, Caches, ExpandedCache, GoodToken, RunResult, AllHold, StepsOf;
      ghost var start := Caches();
      ExpandAll(userSideBS, beamSize, seqLen, sh);
      CachesFit(sh);
      AllStart(start, Caches(), beamSize, seqLen, steps, sh.batchSize);
      for t := 0 to |steps|
        invariant Valid() && HasShape(sh)
        invariant AllHold(Caches(), start, beamSize, seqLen, steps, t, sh.batchSize)
      {
        OneToken(start, beamSize, seqLen, steps, t, sh);
      }
      AllResults(Caches(), start, beamSize, seqLen, steps, sh.batchSize);
      forall i, t | 0 <= i < 2 * layers && 0 <= t < seqLen
        ensures t < |Caches()[i]| && t < |start[i]| && IsBroadcast(Caches()[i][t], start[i][t], beamSize)
      {
        PromptOfResult(Caches()[i], start[i], beamSize, seqLen, StepsOf(steps, i), sh.batchSize, t);
      }
    }

    /** Broadcast the prompt positions of all layers. */
    method ExpandAll(userSideBS: nat, beamSize: nat, seqLen: nat, ghost sh: Shape)
      requires Valid() && HasShape(sh) && 0 < beamSize && seqLen <= sh.maxSeqLen
      modifies Buffers()
      ensures Valid() && HasShape(sh)
      ensures forall i :: 0 <= i < 2 * layers ==> Caches()[i] == ExpandedCache(old(Caches())[i], beamSize, seqLen)
      ensures forall i :: 0 <= i < 2 * layers ==>
        |old(Caches())[i]| == sh.maxSeqLen && IsCache(old(Caches())[i], sh.batchSize)
    {
      hide Caches, ExpandedCache;
      ghost var start := Caches();
      CachesFit(sh);
      for layer := 0 to layers
        invariant Valid() && HasShape(sh)
        invariant forall i :: 0 <= i < 2 * layers ==>
          Caches()[i] == if i < 2 * layer then ExpandedCache(start[i], beamSize, seqLen) else start[i]
      {
        ghost var before := Caches();
        var supported := ExpandCache(false, layer, userSideBS, beamSize, seqLen, sh);
        LayerExpanded(start, before, Caches(), layer, beamSize, seqLen);
      }
    }

    /** One token of a run. */
    method OneToken(ghost start: seq<seq<seq<seq<T>>>>, ghost beamSize: nat, seqLen: nat, steps: seq<TokenStep<T>>,
                    t: nat, ghost sh: Shape)
      requires Valid() && HasShape(sh) && 0 < sh.batchSize && seqLen + |steps| <= sh.maxSeqLen && t < |steps|
      requires word <= sh.headNum * sh.headSize
      requires forall k :: 0 <= k < |steps| ==> GoodToken(steps[k], sh, 2 * layers, word)
      requires |start| == 2 * layers && AllHold(Caches(), start, beamSize, seqLen, steps, t, sh.batchSize)
      modifies Buffers()
      ensures Valid() && HasShape(sh) && AllHold(Caches(), start, beamSize, seqLen, steps, t + 1, sh.batchSize)
    {
      hide Caches, GoodToken, AllHold, StepsOf;
      ghost var before := Caches();
      CachesFit(sh);
      TokenFits(steps[t], sh, 2 * layers, word);
      NextToken(steps[t].idx, |steps[t].idx|, seqLen, seqLen + t, steps[t].rows, sh);
      AllExtend(before, Caches(), start, beamSize, seqLen, steps, t, sh, word);
    }
  }

  // ---------- whole runs ----------

  /** Broadcasting the prompt positions starts a run: each sample's rows are copies of one row. */
  lemma ExpandStartsRun<T>(cache: seq<seq<seq<T>>>, B: nat, beamSize: nat, seqLen: nat)
    requires 0 < beamSize && IsCache(cache, B) && seqLen <= |cache|
    ensures var prompt := ExpandedCache(cache, beamSize, seqLen)[..seqLen];
      && IsCache(prompt, B)
      && (forall s :: 0 <= s < seqLen ==> Broadcasted(prompt[s], beamSize))
      && Holds(ExpandedCache(cache, beamSize, seqLen), After(prompt, [], B, seqLen))
  {
    forall s | 0 <= s < seqLen
      ensures Broadcasted(ExpandedCache(cache, beamSize, seqLen)[s], beamSize)
    {
      ExpandBroadcasts(cache[s], beamSize);
    }
  }

  /** The first token positions of the tensor are those of the run. */
  ghost predicate Holds<R>(cache: seq<seq<R>>, run: seq<seq<R>>) {
    |run| <= |cache| && forall t :: 0 <= t < |run| ==> cache[t] == run[t]
  }

  /** One generated token extends the run by one step, in every tensor whose skipped copies were harmless. */
  lemma NextTokenExtendsRun<T>(cache: seq<seq<seq<T>>>, prompt: seq<seq<seq<T>>>, steps: seq<BeamStep<seq<T>>>,
                               step: BeamStep<seq<T>>, B: nat, word: nat)
    requires IsCache(cache, B) && IsCache(prompt, B) && GoodSteps(steps, B) && GoodStep(step, B)
    requires |prompt| + |steps| < |cache| && Holds(cache, After(prompt, steps, B, |prompt|))
    requires SafeFrom(cache, step.idx, |prompt|, |prompt| + |steps|, word)
    ensures GoodSteps(steps + [step], B)
    ensures var n := |prompt| + |steps|;
      Holds(ReorderedCache(cache, step.idx, |prompt|, n, word)[n := step.rows],
        After(prompt, steps + [step], B, |prompt|))
  {
    hide After, ReorderedCache, GatherFrom, SafeFrom, Holds, GoodSteps, IsCache, GoodIndex;
    var n := |prompt| + |steps|;
    AfterNext(prompt, steps, step, B, |prompt|);
    GatheredHolds(cache, After(prompt, steps, B, |prompt|), step.idx, |prompt|, n, word);
    HoldsNext(ReorderedCache(cache, step.idx, |prompt|, n, word),
      GatherFrom(After(prompt, steps, B, |prompt|), |prompt|, step.idx), step.rows);
  }

  lemma GatheredHolds<T>(cache: seq<seq<seq<T>>>, run: seq<seq<seq<T>>>, idx: seq<int>, init: nat, n: nat, word: nat)
    requires GoodIndex(idx) && IsCache(cache, |idx|) && IsCache(run, |idx|)
    requires |run| == n && Holds(cache, run)
    requires n <= |cache| && SafeFrom(cache, idx, init, n, word)
    ensures Holds(ReorderedCache(cache, idx, init, n, word), GatherFrom(run, init, idx))
  {
    hide ReorderedCache, GatherFrom, AllSafe, SameWord;
    forall t | 0 <= t < n
      ensures ReorderedCache(cache, idx, init, n, word)[t] == GatherFrom(run, init, idx)[t]
    {
      ReorderedAt(cache, run, idx, init, n, word, t);
    }
  }

  lemma HoldsNext<R>(cache: seq<seq<R>>, run: seq<seq<R>>, row: seq<R>)
    requires |run| < |cache| && Holds(cache, run)
    ensures Holds(cache[|run| := row], run + [row])
  {
  }

  lemma ReorderedAt<T>(cache: seq<seq<seq<T>>>, before: seq<seq<seq<T>>>, idx: seq<int>, init: nat, n: nat, word: nat,
                       t: nat)
    requires GoodIndex(idx) && IsCache(cache, |idx|) && IsCache(before, |idx|)
    requires t < n && t < |cache| && t < |before| && cache[t] == before[t]
    requires init <= t ==> AllSafe(cache[t], idx, SameWord(word))
    ensures ReorderedCache(cache, idx, init, n, word)[t] == GatherFrom(before, init, idx)[t]
  {
    if init <= t {
      GatherIffSafe(cache[t], idx, SameWord(word));
      hide Run, AllSafe;
      assert Run(cache[t], idx, |idx|, SameWord(word)).rows == Gather(cache[t], idx);
    }
  }

  // ---------- runs of the manager ----------

  /** One generated token: where each beam came from, and the new rows of every tensor. */
  datatype TokenStep<T> = TokenStep(idx: seq<int>, rows: seq<seq<seq<T>>>)

  /** The step as one tensor sees it. */
  function StepsOf<T>(steps: seq<TokenStep<T>>, i: nat): (s: seq<BeamStep<seq<T>>>)
    ensures |s| == |steps|
  {
    seq(|steps|, t requires 0 <= t < |steps| =>
      BeamStep(steps[t].idx, if i < |steps[t].rows| then steps[t].rows[i] else []))
  }

  /** A step a tensor of this shape can take. */
  ghost predicate GoodToken<T>(step: TokenStep<T>, sh: Shape, tensors: nat, word: nat) {
    && |step.idx| == sh.batchSize && GoodIndex(step.idx) && |step.rows| == tensors
    && forall i :: 0 <= i < tensors ==>
         && |step.rows[i]| == sh.batchSize && TellsApart(step.rows[i], word)
         && forall b :: 0 <= b < sh.batchSize ==> |step.rows[i][b]| == sh.headNum * sh.headSize
  }

  lemma TokenFits<T>(step: TokenStep<T>, sh: Shape, tensors: nat, word: nat)
    requires GoodToken(step, sh, tensors, word)
    ensures |step.idx| == sh.batchSize && GoodIndex(step.idx) && |step.rows| == tensors
      && IsCache(step.rows, sh.batchSize)
    ensures forall i, b :: 0 <= i < |step.rows| && 0 <= b < |step.rows[i]| ==>
      |step.rows[i][b]| == sh.headNum * sh.headSize
  {
    hide TellsApart, GoodIndex;
  }

  /** The prompt of a run: the broadcast rows. */
  function PromptOf<T>(start: seq<seq<seq<T>>>, beamSize: nat, seqLen: nat): (p: seq<seq<seq<T>>>)
    requires 0 < beamSize && seqLen <= |start|
    ensures |p| == seqLen
  {
    ExpandedCache(start, beamSize, seqLen)[..seqLen]
  }

  lemma PromptFits<T>(start: seq<seq<seq<T>>>, beamSize: nat, seqLen: nat, B: nat)
    requires 0 < beamSize && seqLen <= |start| && IsCache(start, B)
    ensures IsCache(PromptOf(start, beamSize, seqLen), B)
    ensures forall s :: 0 <= s < seqLen ==> Broadcasted(PromptOf(start, beamSize, seqLen)[s], beamSize)
  {
    hide Broadcasted, Holds;
    ExpandStartsRun(start, B, beamSize, seqLen);
  }

  /** A tensor holds the run so far, and behind it what it held before. */
  ghost predicate Holding<T>(cache: seq<seq<seq<T>>>, start: seq<seq<seq<T>>>, beamSize: nat, seqLen: nat,
                             steps: seq<BeamStep<seq<T>>>, B: nat)
  {
    && 0 < beamSize && seqLen + |steps| <= |start| == |cache| && IsCache(start, B) && IsCache(cache, B)
      && GoodSteps(steps, B)
    && (PromptFits(start, beamSize, seqLen, B);
      Holds(cache, After(PromptOf(start, beamSize, seqLen), steps, B, seqLen)))
    && forall t :: seqLen + |steps| <= t < |cache| ==> cache[t] == start[t]
  }

  lemma ExpandedHolds<T>(start: seq<seq<seq<T>>>, beamSize: nat, seqLen: nat, B: nat)
    requires 0 < beamSize && seqLen <= |start| && IsCache(start, B)
    ensures Holding(ExpandedCache(start, beamSize, seqLen), start, beamSize, seqLen, [], B)
  {
    ExpandStartsRun(start, B, beamSize, seqLen);
    PromptFits(start, beamSize, seqLen, B);
  }

  /** A skipped copy is harmless at the positions [lo, hi) of a cache. */
  ghost predicate SafeFrom<T>(cache: seq<seq<seq<T>>>, idx: seq<int>, lo: nat, hi: nat, word: nat)
    requires GoodIndex(idx) && IsCache(cache, |idx|) && hi <= |cache|
  {
    forall t :: lo <= t < hi ==> AllSafe(cache[t], idx, SameWord(word))
  }

  /** Generated rows only ever come from the rows of their own token, so no gather is spoiled by a skip. */
  lemma {:induction false} StepIsSafe<T>(cache: seq<seq<seq<T>>>, prompt: seq<seq<seq<T>>>,
                                         steps: seq<BeamStep<seq<T>>>, idx: seq<int>, B: nat, word: nat, n: nat)
    requires IsCache(cache, B) && IsCache(prompt, B) && GoodSteps(steps, B) && |idx| == B && GoodIndex(idx)
    requires Holds(cache, After(prompt, steps, B, |prompt|)) && n <= |steps|
    requires forall t :: 0 <= t < |steps| ==> TellsApart(steps[t].rows, word)
    ensures |prompt| + n <= |cache| && SafeFrom(cache, idx, |prompt|, |prompt| + n, word)
  {
    hide After, SameWord, AllSafe, GoodSteps, GoodIndex, TellsApart, IsCache;
    assert |After(prompt, steps, B, |prompt|)| == |prompt| + |steps|;
    hide Holds;
    if n > 0 {
      StepIsSafe(cache, prompt, steps, idx, B, word, n - 1);
      TokenIsSafe(cache, prompt, steps, idx, B, word, n - 1, |prompt| + (n - 1));
    }
  }

  lemma TokenIsSafe<T>(cache: seq<seq<seq<T>>>, prompt: seq<seq<seq<T>>>, steps: seq<BeamStep<seq<T>>>, idx: seq<int>,
                       B: nat, word: nat, t: nat, s: nat)
    requires IsCache(cache, B) && IsCache(prompt, B) && GoodSteps(steps, B) && |idx| == B && GoodIndex(idx)
    requires Holds(cache, After(prompt, steps, B, |prompt|)) && t < |steps| && s == |prompt| + t
    requires TellsApart(steps[t].rows, word)
    ensures s < |cache| && |cache[s]| == |idx| && AllSafe(cache[s], idx, SameWord(word))
  {
    hide After, SameWord, AllSafe, Holds, IsCache, GoodSteps, GoodIndex, TellsApart, RowsAmong;
    RowsFromToken(cache, prompt, steps, B, t, s);
    FromTellingRows(cache[s], steps[t].rows, idx, word);
  }

  ghost predicate RowsAmong<R>(rows: seq<R>, source: seq<R>) {
    forall b :: 0 <= b < |rows| ==> rows[b] in source
  }

  lemma RowsFromToken<T>(cache: seq<seq<seq<T>>>, prompt: seq<seq<seq<T>>>, steps: seq<BeamStep<seq<T>>>, B: nat,
                         t: nat, s: nat)
    requires IsCache(cache, B) && IsCache(prompt, B) && GoodSteps(steps, B) && t < |steps| && s == |prompt| + t
    requires Holds(cache, After(prompt, steps, B, |prompt|))
    ensures s < |cache| && |cache[s]| == B && |After(prompt, steps, B, |prompt|)| == |prompt| + |steps|
    ensures RowsAmong(cache[s], steps[t].rows)
  {
    var run := After(prompt, steps, B, |prompt|);
    assert |run| == |prompt| + |steps| && |run[s]| == B;
    hide After;
    forall b | 0 <= b < |cache[s]|
      ensures cache[s][b] in steps[t].rows
    {
      RowsOfAncestors(prompt, steps, B, t, b);
    }
  }

  lemma FromTellingRows<T>(rows: seq<seq<T>>, source: seq<seq<T>>, idx: seq<int>, word: nat)
    requires |rows| == |idx| && GoodIndex(idx) && TellsApart(source, word) && RowsAmong(rows, source)
    ensures AllSafe(rows, idx, SameWord(word))
  {
    hide AllSafe, Run;
    TellsApartIsSafe(rows, idx, SameWord(word));
    GatherIffSafe(rows, idx, SameWord(word));
  }

  lemma TailKept<T>(cache: seq<seq<seq<T>>>, start: seq<seq<seq<T>>>, idx: seq<int>, init: nat, n: nat, word: nat,
                    rows: seq<seq<T>>)
    requires GoodIndex(idx) && IsCache(cache, |idx|) && n < |cache| == |start|
    requires forall s :: n <= s < |cache| ==> cache[s] == start[s]
    ensures var after := ReorderedCache(cache, idx, init, n, word)[n := rows];
      |after| == |cache| && forall s :: n + 1 <= s < |after| ==> after[s] == start[s]
  {
    hide Run;
  }

  /** One token more, in one tensor. */
  lemma TokenExtends<T>(cache: seq<seq<seq<T>>>, start: seq<seq<seq<T>>>, beamSize: nat, seqLen: nat,
                        steps: seq<TokenStep<T>>, t: nat, i: nat, sh: Shape, tensors: nat, word: nat)
    requires t < |steps| && i < tensors && |cache| == sh.maxSeqLen && seqLen + |steps| <= sh.maxSeqLen
    requires forall k :: 0 <= k < |steps| ==> GoodToken(steps[k], sh, tensors, word)
    requires Holding(cache, start, beamSize, seqLen, StepsOf(steps[..t], i), sh.batchSize)
    ensures |steps[t].idx| == sh.batchSize && GoodIndex(steps[t].idx) && IsCache(cache, sh.batchSize)
      && i < |steps[t].rows|
    ensures Holding(ReorderedCache(cache, steps[t].idx, seqLen, seqLen + t, word)[seqLen + t := steps[t].rows[i]],
      start, beamSize, seqLen,
                    StepsOf(steps[..t + 1], i), sh.batchSize)
  {
    hide ReorderedCache, After, PromptOf, TellsApart, GoodIndex, Holds;
    var B, sofar, prompt := sh.batchSize, StepsOf(steps[..t], i), PromptOf(start, beamSize, seqLen);
    var step := BeamStep(steps[t].idx, steps[t].rows[i]);
    PromptFits(start, beamSize, seqLen, B);
    assert StepsOf(steps[..t + 1], i) == sofar + [step];
    StepIsSafe(cache, prompt, sofar, step.idx, B, word, |sofar|);
    TailKept(cache, start, step.idx, seqLen, seqLen + t, word, step.rows);
    NextTokenExtendsRun(cache, prompt, sofar, step, B, word);
  }

  // ---------- all tensors ----------

  /** Expanding one more layer. */
  lemma LayerExpanded<T>(start: seq<seq<seq<seq<T>>>>, before: seq<seq<seq<seq<T>>>>, after: seq<seq<seq<seq<T>>>>,
                         layer: nat, beamSize: nat, seqLen: nat)
    requires 0 < beamSize && |before| == |start| && 2 * layer + 1 < |start|
    requires forall i :: 0 <= i < |start| ==>
      before[i] == if i < 2 * layer then ExpandedCache(start[i], beamSize, seqLen) else start[i]
    requires after == before[2 * layer := ExpandedCache(before[2 * layer], beamSize, seqLen)]
                            [2 * layer + 1 := ExpandedCache(before[2 * layer + 1], beamSize, seqLen)]
    ensures forall i :: 0 <= i < |start| ==>
      after[i] == if i < 2 * (layer + 1) then ExpandedCache(start[i], beamSize, seqLen) else start[i]
  {
    hide ExpandedCache;
  }

  /** Every tensor holds the first n steps of its run. */
  ghost predicate AllHold<T>(caches: seq<seq<seq<seq<T>>>>, start: seq<seq<seq<seq<T>>>>, beamSize: nat, seqLen: nat,
                             steps: seq<TokenStep<T>>, n: nat, B: nat)
  {
    && |caches| == |start| && n <= |steps|
    && forall i :: 0 <= i < |caches| ==> Holding(caches[i], start[i], beamSize, seqLen, StepsOf(steps[..n], i), B)
  }

  lemma AllStart<T>(start: seq<seq<seq<seq<T>>>>, caches: seq<seq<seq<seq<T>>>>, beamSize: nat, seqLen: nat,
                    steps: seq<TokenStep<T>>, B: nat)
    requires 0 < beamSize && |caches| == |start|
    requires forall i :: 0 <= i < |start| ==> seqLen <= |start[i]| && IsCache(start[i], B)
    requires forall i :: 0 <= i < |start| ==> caches[i] == ExpandedCache(start[i], beamSize, seqLen)
    ensures AllHold(caches, start, beamSize, seqLen, steps, 0, B)
  {
    hide ExpandedCache, Holding, IsCache;
    forall i | 0 <= i < |start|
      ensures Holding(caches[i], start[i], beamSize, seqLen, StepsOf(steps[..0], i), B)
    {
      ExpandedHolds(start[i], beamSize, seqLen, B);
      assert StepsOf(steps[..0], i) == [];
    }
  }

  lemma AllExtend<T>(before: seq<seq<seq<seq<T>>>>, after: seq<seq<seq<seq<T>>>>, start: seq<seq<seq<seq<T>>>>,
                     beamSize: nat, seqLen: nat, steps: seq<TokenStep<T>>, t: nat, sh: Shape, word: nat)
    requires t < |steps| && |before| == |after| == |start| && seqLen + |steps| <= sh.maxSeqLen
    requires forall k :: 0 <= k < |steps| ==> GoodToken(steps[k], sh, |start|, word)
    requires |steps[t].idx| == sh.batchSize && GoodIndex(steps[t].idx) && |steps[t].rows| == |start|
    requires AllHold(before, start, beamSize, seqLen, steps, t, sh.batchSize)
    requires forall i :: 0 <= i < |start| ==>
      && |before[i]| == sh.maxSeqLen && IsCache(before[i], sh.batchSize)
      && after[i] == ReorderedCache(before[i], steps[t].idx, seqLen, seqLen + t, word)[seqLen + t := steps[t].rows[i]]
    ensures AllHold(after, start, beamSize, seqLen, steps, t + 1, sh.batchSize)
  {
    hide ReorderedCache, Holding, GoodToken, StepsOf, GoodIndex, IsCache;
    forall i | 0 <= i < |start|
      ensures Holding(after[i], start[i], beamSize, seqLen, StepsOf(steps[..t + 1], i), sh.batchSize)
    {
      TokenExtends(before[i], start[i], beamSize, seqLen, steps, t, i, sh, |start|, word);
    }
  }

  lemma AllResults<T>(caches: seq<seq<seq<seq<T>>>>, start: seq<seq<seq<seq<T>>>>, beamSize: nat, seqLen: nat,
                      steps: seq<TokenStep<T>>, B: nat)
    requires AllHold(caches, start, beamSize, seqLen, steps, |steps|, B)
    ensures forall i :: 0 <= i < |caches| ==> RunResult(caches[i], start[i], beamSize, seqLen, StepsOf(steps, i), B)
  {
    hide Holding, RunResult, StepsOf;
    assert steps[..|steps|] == steps;
    forall i | 0 <= i < |caches|
      ensures RunResult(caches[i], start[i], beamSize, seqLen, StepsOf(steps, i), B)
    {
      HoldingIsResult(caches[i], start[i], beamSize, seqLen, StepsOf(steps, i), B);
    }
  }

  /** What a run leaves in one tensor, start being its contents before the broadcast. */
  ghost predicate RunResult<T>(cache: seq<seq<seq<T>>>, start: seq<seq<seq<T>>>, beamSize: nat, seqLen: nat,
                               steps: seq<BeamStep<seq<T>>>, B: nat)
  {
    && Holding(cache, start, beamSize, seqLen, steps, B)
    && (forall t :: 0 <= t < seqLen ==> IsBroadcast(cache[t], start[t], beamSize))
    && (forall t: nat, b: nat :: t < |steps| && b < B ==>
          b < |cache[seqLen + t]| && cache[seqLen + t][b] == steps[t].rows[Ancestor(steps, B, t, b)])
    && (Apart(steps, beamSize) ==> HoldsFull(cache, start, beamSize, seqLen, steps, B))
  }

  /** No step moves a beam to another sample. */
  ghost predicate Apart<R>(steps: seq<BeamStep<R>>, beamSize: nat)
    requires 0 < beamSize
  {
    forall t, sample: nat :: 0 <= t < |steps| ==> StaysInSample(steps[t].idx, beamSize, sample)
  }

  /** The tensor holds the run in which every position, the prompt's too, is gathered at every step. */
  ghost predicate HoldsFull<T>(cache: seq<seq<seq<T>>>, start: seq<seq<seq<T>>>, beamSize: nat, seqLen: nat,
                               steps: seq<BeamStep<seq<T>>>, B: nat)
    requires 0 < beamSize && seqLen <= |start| && IsCache(start, B) && GoodSteps(steps, B)
  {
    PromptFits(start, beamSize, seqLen, B);
    Holds(cache, After(PromptOf(start, beamSize, seqLen), steps, B, 0))
  }

  /** A run never touches the broadcast prompt: beam b still has the row of sample b / beamSize. */
  lemma PromptRow<T>(cache: seq<seq<seq<T>>>, start: seq<seq<seq<T>>>, beamSize: nat, seqLen: nat,
                     steps: seq<BeamStep<seq<T>>>, B: nat, t: nat)
    requires Holding(cache, start, beamSize, seqLen, steps, B) && t < seqLen
    ensures IsBroadcast(cache[t], start[t], beamSize)
  {
    hide After, ExpandedCache, IsBroadcast;
    PromptFits(start, beamSize, seqLen, B);
    PromptKept(PromptOf(start, beamSize, seqLen), steps, B);
    ExpandedWrittenOut(start, beamSize, seqLen, t);
  }

  lemma PromptOfResult<T>(cache: seq<seq<seq<T>>>, start: seq<seq<seq<T>>>, beamSize: nat, seqLen: nat,
                          steps: seq<BeamStep<seq<T>>>, B: nat, t: nat)
    requires RunResult(cache, start, beamSize, seqLen, steps, B) && t < seqLen
    ensures 0 < beamSize && t < |cache| && t < |start| && IsBroadcast(cache[t], start[t], beamSize)
  {
    hide After, PromptOf, Holds, IsBroadcast;
  }

  lemma HoldingIsResult<T>(cache: seq<seq<seq<T>>>, start: seq<seq<seq<T>>>, beamSize: nat, seqLen: nat,
                           steps: seq<BeamStep<seq<T>>>, B: nat)
    requires Holding(cache, start, beamSize, seqLen, steps, B)
    ensures RunResult(cache, start, beamSize, seqLen, steps, B)
  {
    hide After, PromptOf, Broadcasted, StaysInSample, IsBroadcast;
    var prompt := PromptOf(start, beamSize, seqLen);
    PromptFits(start, beamSize, seqLen, B);
    forall t | 0 <= t < seqLen
      ensures IsBroadcast(cache[t], start[t], beamSize)
    {
      PromptRow(cache, start, beamSize, seqLen, steps, B, t);
    }
    forall t: nat, b: nat | t < |steps| && b < B
      ensures b < |cache[seqLen + t]| && cache[seqLen + t][b] == steps[t].rows[Ancestor(steps, B, t, b)]
    {
      RowsOfAncestors(prompt, steps, B, t, b);
    }
    if Apart(steps, beamSize) {
      PartialReorderSuffices(prompt, steps, B, beamSize);
    }
  }
}
