/** The layers one pipeline stage is responsible for, run with two buffers that change roles after every
    layer, each layer on its own key/value caches, and the stages run one after the other. */
module DecoderBlocks {
  import Arith

  type Values = seq<real>

  /** One decoder layer: attention, which reads and extends the layer's caches, into a buffer of its own,
      then the feed-forward step into the output. */
  datatype Layer<!C> = Layer(attention: (C, Values) -> (C, Values), ffn: Values -> Values)

  ghost predicate KeepsLength<C(!new)>(l: Layer<C>) {
    (forall c: C, x: Values :: |l.attention(c, x).1| == |x|) && (forall x :: |l.ffn(x)| == |x|)
  }

  ghost predicate AllKeepLength<C(!new)>(layers: seq<Layer<C>>) {
    forall i :: 0 <= i < |layers| ==> KeepsLength(layers[i])
  }

  function Apply<C>(l: Layer<C>, cache: C, x: Values): (C, Values) {
    var (cache', y) := l.attention(cache, x);
    (cache', l.ffn(y))
  }

  /** All layers, the first one first, each on the cache of its own number. */
  function Compose<C>(layers: seq<Layer<C>>, caches: seq<C>, x: Values): (r: (seq<C>, Values))
    requires |caches| == |layers|
    ensures |r.0| == |caches|
  {
    if layers == [] then (caches, x)
    else
      var n := |layers| - 1;
      var (before, y) := Compose(layers[..n], caches[..n], x);
      var (cache, z) := Apply(layers[n], caches[n], y);
      (before + [cache], z)
  }

  /** The layers one by one, written out: v[i] is what layer i gets, and caches'[i] what its attention leaves in its
      cache; the attention output goes through the feed-forward step to layer i + 1. */
  lemma {:induction false} LayersWrittenOut<C>(layers: seq<Layer<C>>, caches: seq<C>, x: Values, v: seq<Values>,
                                               caches': seq<C>)
    requires |caches| == |caches'| == |layers| && |v| == |layers| + 1 && v[0] == x
    requires forall i :: 0 <= i < |layers| ==>
      caches'[i] == layers[i].attention(caches[i], v[i]).0
      && v[i + 1] == layers[i].ffn(layers[i].attention(caches[i], v[i]).1)
    ensures Compose(layers, caches, x) == (caches', v[|layers|])
  {
    if layers != [] {
      var n := |layers| - 1;
      LayersWrittenOut(layers[..n], caches[..n], x, v[..n + 1], caches'[..n]);
      assert caches'[..n] + [caches'[n]] == caches';
    }
  }

  lemma ComposeNext<C>(layers: seq<Layer<C>>, caches: seq<C>, x: Values, n: nat)
    requires n < |layers| == |caches|
    ensures var (before, y) := Compose(layers[..n], caches[..n], x);
      var (cache, z) := Apply(layers[n], caches[n], y);
      Compose(layers[..n + 1], caches[..n + 1], x) == (before + [cache], z)
  {
    hide Apply;
    assert layers[..n + 1][..n] == layers[..n] && caches[..n + 1][..n] == caches[..n];
  }

  lemma {:induction false} ComposeSplit<C>(a: seq<Layer<C>>, b: seq<Layer<C>>, ca: seq<C>, cb: seq<C>, x: Values)
    requires |ca| == |a| && |cb| == |b|
    ensures var (ca', y) := Compose(a, ca, x);
      var (cb', z) := Compose(b, cb, y);
      Compose(a + b, ca + cb, x) == (ca' + cb', z)
  {
    hide Apply;
    if b == [] {
      assert a + b == a && ca + cb == ca;
      assert Compose(a, ca, x).0 + cb == Compose(a, ca, x).0;
    } else {
      var n := |b| - 1;
      ComposeSplit(a, b[..n], ca, cb[..n], x);
      assert (a + b)[..|a| + n] == a + b[..n] && (ca + cb)[..|a| + n] == ca + cb[..n];
      assert |a + b| - 1 == |a| + n && (a + b)[|a| + n] == b[n] && (ca + cb)[|a| + n] == cb[n];
      var (ca', y) := Compose(a, ca, x);
      var (before, w) := Compose(b[..n], cb[..n], y);
      var (cache, z) := Apply(b[n], cb[n], w);
      assert (ca' + before) + [cache] == ca' + (before + [cache]);
    }
  }

  lemma {:induction false} ComposeLength<C(!new)>(layers: seq<Layer<C>>, caches: seq<C>, x: Values)
    requires |caches| == |layers| && AllKeepLength(layers)
    ensures |Compose(layers, caches, x).1| == |x|
  {
    if layers != [] {
      var n := |layers| - 1;
      ComposeLength(layers[..n], caches[..n], x);
      assert KeepsLength(layers[n]);
    }
  }

  method Fill(a: array<real>, values: Values)
    requires |values| == a.Length
    modifies a
    ensures a[..] == values
  {
    for i := 0 to a.Length
      invariant forall k :: 0 <= k < i ==> a[k] == values[k]
    {
      a[i] := values[i];
    }
  }

  // ---------- one stage ----------

  /** Layers of stage ppRank, or None where the layer count does not divide. */
  datatype Stage = NotDivisible | Stage(startLayer: nat, layersOnDuty: nat)

  function StageOf(layers: nat, ppSize: nat, ppRank: nat): Stage
    requires 0 < ppSize
  {
    if layers % ppSize != 0 then NotDivisible else Stage(ppRank * (layers / ppSize), layers / ppSize)
  }

  /** When there are stages at all, they follow one another from layer 0 to the last. */
  lemma StagesTile(layers: nat, ppSize: nat, ppRank: nat)
    requires 0 < ppSize && ppRank < ppSize && layers % ppSize == 0
    ensures var s := StageOf(layers, ppSize, ppRank);
      && s.Stage? && s.startLayer + s.layersOnDuty <= layers
      && (ppRank == 0 ==> s.startLayer == 0)
      && (ppRank == ppSize - 1 ==> s.startLayer + s.layersOnDuty == layers)
      && StageOf(layers, ppSize, ppRank + 1) == Stage(s.startLayer + s.layersOnDuty, s.layersOnDuty)
  {
    var n := layers / ppSize;
    assert layers == ppSize * n;
    Arith.MulMono(ppRank + 1, ppSize, n);
    Arith.NextMultiple(ppRank, n);
    Arith.MulMono(0, ppRank, n);
  }

  class DecoderBlock<C(!new)> {
    const decoders: seq<Layer<C>>

    constructor (decoders: seq<Layer<C>>)
      ensures this.decoders == decoders
    {
      this.decoders := decoders;
    }

    /** The layers swap input and output; with two buffers and an even number of layers the result ends in
        the input buffer and is copied.  One buffer for both is allowed.  Layer i works on cache i. */
    method Forward(inputBuf: array<real>, outputBuf: array<real>, attnOut: array<real>, caches: array<C>)
      requires inputBuf.Length == outputBuf.Length == attnOut.Length && attnOut != inputBuf && attnOut != outputBuf
      requires caches.Length == |decoders| && caches as object !in {inputBuf, outputBuf, attnOut}
      requires AllKeepLength(decoders)
      modifies inputBuf, outputBuf, attnOut, caches
      ensures (caches[..], outputBuf[..]) == Compose(decoders, old(caches[..]), old(inputBuf[..]))
    {
      hide Compose, KeepsLength;
      ghost var x, start := inputBuf[..], caches[..];
      var input, output := inputBuf, outputBuf;
      var layersOnDuty := |decoders|;
      EmptyCompose<C>(x);
      for i := 0 to layersOnDuty
        invariant {input, output} == {inputBuf, outputBuf}
        invariant input == (if i % 2 == 0 then inputBuf else outputBuf)
          && output == (if i % 2 == 0 then outputBuf else inputBuf)
        invariant (caches[..i], input[..]) == Compose(decoders[..i], start[..i], x) && caches[i..] == start[i..]
      {
        ComposeNext(decoders, start, x, i);
        assert caches[i] == caches[i..][0] == start[i];
        ghost var before := caches[..i];
        RunLayer(i, input, output, attnOut, caches);
        assert caches[..i + 1] == before + [caches[i]];
        input, output := output, input;
      }
      assert decoders[..layersOnDuty] == decoders && start[..layersOnDuty] == start
        && caches[..layersOnDuty] == caches[..];
      if inputBuf != outputBuf && layersOnDuty % 2 == 0 {
        Fill(outputBuf, inputBuf[..]);
      }
    }

    /** One layer: from the input into the output, on its own cache. */
    method RunLayer(i: nat, input: array<real>, output: array<real>, attnOut: array<real>, caches: array<C>)
      requires i < |decoders| == caches.Length && KeepsLength(decoders[i])
      requires input.Length == output.Length == attnOut.Length && attnOut != input && attnOut != output
      requires caches as object !in {input, output, attnOut}
      modifies output, attnOut, caches
      ensures (caches[i], output[..]) == Apply(decoders[i], old(caches[i]), old(input[..]))
      ensures caches[i] == decoders[i].attention(old(caches[i]), old(input[..])).0
      ensures output[..] == decoders[i].ffn(decoders[i].attention(old(caches[i]), old(input[..])).1)
      ensures caches[..i] == old(caches[..i]) && caches[i + 1..] == old(caches[i + 1..])
    {
      var (cache, attn) := decoders[i].attention(caches[i], input[..]);
      Fill(attnOut, attn);
      caches[i] := cache;
      Fill(output, decoders[i].ffn(attnOut[..]));
    }
  }

  lemma EmptyCompose<C>(x: Values)
    ensures Compose<C>([], [], x) == ([], x)
  {
  }

  // ---------- all stages ----------

  /** A stage's layers on top of all layers before it. */
  lemma StagePrefix<C>(all: seq<Layer<C>>, caches: seq<C>, start: nat, n: nat, x: Values)
    requires start + n <= |all| == |caches|
    ensures var (before, y) := Compose(all[..start], caches[..start], x);
      var (own, z) := Compose(all[start..start + n], caches[start..start + n], y);
      Compose(all[..start + n], caches[..start + n], x) == (before + own, z)
  {
    hide Compose;
    ComposeSplit(all[..start], all[start..start + n], caches[..start], caches[start..start + n], x);
    assert all[..start] + all[start..start + n] == all[..start + n];
    assert caches[..start] + caches[start..start + n] == caches[..start + n];
  }

  /** The stages in rank order, each with its own layers, caches and buffers, hand on their output: every
      layer is applied once, in order.  A layer count that does not divide is refused. */
  method RunPipeline<C(!new,0)>(all: seq<Layer<C>>, ppSize: nat, caches: seq<C>, x: Values)
    returns (ok: bool, newCaches: seq<C>, result: Values)
    requires 0 < ppSize && |caches| == |all| && AllKeepLength(all)
    ensures ok == (|all| % ppSize == 0)
    ensures ok ==> (newCaches, result) == Compose(all, caches, x)
  {
    hide Compose, KeepsLength;
    newCaches, result := [], x;
    if |all| % ppSize != 0 {
      return false, newCaches, result;
    }
    EmptyCompose<C>(x);
    assert all[..LayersBefore(|all|, ppSize, 0)] == [] && caches[..LayersBefore(|all|, ppSize, 0)] == [];
    for ppRank := 0 to ppSize
      invariant |result| == |x| && LayersBefore(|all|, ppSize, ppRank) <= |all|
      invariant (newCaches, result)
        == Compose(all[..LayersBefore(|all|, ppSize, ppRank)], caches[..LayersBefore(|all|, ppSize, ppRank)], x)
    {
      newCaches, result := RunStage(all, ppSize, ppRank, caches, newCaches, result, x);
    }
    AllDone(|all|, ppSize);
    assert all[..LayersBefore(|all|, ppSize, ppSize)] == all && caches[..LayersBefore(|all|, ppSize, ppSize)] == caches;
    ok := true;
  }

  /** How many layers the first k stages have. */
  function LayersBefore(layers: nat, ppSize: nat, k: nat): nat
    requires 0 < ppSize
  {
    k * (layers / ppSize)
  }

  method RunStage<C(!new,0)>(all: seq<Layer<C>>, ppSize: nat, ppRank: nat, caches: seq<C>, done: seq<C>,
                    current: Values, ghost x: Values)
    returns (newCaches: seq<C>, next: Values)
    requires ppRank < ppSize && |all| % ppSize == 0 && |caches| == |all| && AllKeepLength(all)
    requires |current| == |x| && LayersBefore(|all|, ppSize, ppRank) <= |all|
    requires (done, current)
      == Compose(all[..LayersBefore(|all|, ppSize, ppRank)], caches[..LayersBefore(|all|, ppSize, ppRank)], x)
    ensures |next| == |x| && LayersBefore(|all|, ppSize, ppRank + 1) <= |all|
    ensures (newCaches, next) ==
      Compose(all[..LayersBefore(|all|, ppSize, ppRank + 1)], caches[..LayersBefore(|all|, ppSize, ppRank + 1)], x)
  {
    hide Compose, LayersBefore, StageOf, KeepsLength;
    StageBounds(|all|, ppSize, ppRank);
    var stage := StageOf(|all|, ppSize, ppRank);
    StagePrefix(all, caches, stage.startLayer, stage.layersOnDuty, x);
    var own := caches[stage.startLayer..stage.startLayer + stage.layersOnDuty];
    var block := new DecoderBlock(all[stage.startLayer..stage.startLayer + stage.layersOnDuty]);
    var inputBuf, outputBuf, attnOut := new real[|current|], new real[|current|], new real[|current|];
    var stageCaches := new C[|own|](k requires 0 <= k < |own| => own[k]);
    assert stageCaches[..] == own;
    Fill(inputBuf, current);
    block.Forward(inputBuf, outputBuf, attnOut, stageCaches);
    newCaches, next := done + stageCaches[..], outputBuf[..];
  }

  lemma StageBounds(layers: nat, ppSize: nat, ppRank: nat)
    requires ppRank < ppSize && layers % ppSize == 0
    ensures var s := StageOf(layers, ppSize, ppRank);
      && s.Stage? && s.startLayer == LayersBefore(layers, ppSize, ppRank)
      && s.startLayer + s.layersOnDuty == LayersBefore(layers, ppSize, ppRank + 1) <= layers
  {
    StagesTile(layers, ppSize, ppRank);
  }

  lemma AllDone(layers: nat, ppSize: nat)
    requires 0 < ppSize && layers % ppSize == 0
    ensures LayersBefore(layers, ppSize, ppSize) == layers
  {
  }
}
