// Taking tokens back: the crop that speculative decoding needs, how far it can reach, and the cache
// object that keeps one such layer per model layer.
module CacheRollback {
  import opened Quantizer
  import opened KVCache

  datatype Cropped = Cropped(layer: Layer) | WouldCut

  // Only the exact window can be cropped.
  function CropLayer(l: Layer, length: int): Cropped {
    if Length(l) <= length then Cropped(l)
    else
      var keep := length - BlockTokens(l.blocks);
      if keep < 0 then WouldCut else Cropped(l.(residual := l.residual[..keep]))
  }

  /** A crop succeeds exactly when it stays out of the quantized blocks, and then the layer encodes the
      history cut to that length, or all of it when it is no longer. */
  lemma CropHolds(cfg: Config, l: Layer, tokens: seq<Token>, q: nat, length: int)
    requires Holds(cfg, l, tokens, q)
    ensures CropLayer(l, length).Cropped? <==> q <= length
    ensures q <= length <= |tokens| ==> Holds(cfg, CropLayer(l, length).layer, tokens[..length], q)
    ensures length >= |tokens| ==> CropLayer(l, length).layer == l
  {
    hide QuantizeBlock, Whole;
    EncodedTokens(cfg, l.blocks, tokens, q);
    if q <= length <= |tokens| {
      assert tokens[..length][..q] == tokens[..q];
      EncodesLocal(cfg, l.blocks, tokens, tokens[..length], q);
      assert tokens[q..][..length - q] == tokens[..length][q..];
      assert length == |tokens| ==> tokens[..length] == tokens;
    }
  }

  // ---- speculative passes ---------------------------------------------------------------------------

  // One target pass: `fed` is what the cache lacked of the sequence and then the proposals; `kept` of those
  // positions stay, so at most a lookahead of them is taken back.
  datatype Pass = Pass(fed: seq<Token>, kept: nat)

  predicate Passes(cfg: Config, lookahead: nat, passes: seq<Pass>) {
    forall i :: 0 <= i < |passes| ==>
      1 <= passes[i].kept <= |passes[i].fed| <= passes[i].kept + lookahead && cfg.Shaped(passes[i].fed)
  }

  function RunPass(cfg: Config, l: Layer, pass: Pass): Cropped
    requires cfg.Valid() && cfg.Shaped(l.residual) && cfg.Shaped(pass.fed)
  {
    CropLayer(Append(cfg, l, pass.fed), Length(l) + pass.kept)
  }

  lemma CropKeepsShape(cfg: Config, l: Layer, length: int)
    requires cfg.Shaped(l.residual)
    ensures CropLayer(l, length).Cropped? ==> cfg.Shaped(CropLayer(l, length).layer.residual)
  {}

  function RunPasses(cfg: Config, l: Layer, passes: seq<Pass>): (r: Cropped)
    requires cfg.Valid() && cfg.Shaped(l.residual) && forall i :: 0 <= i < |passes| ==> cfg.Shaped(passes[i].fed)
    ensures r.Cropped? ==> cfg.Shaped(r.layer.residual)
  {
    if passes == [] then Cropped(l)
    else
      var before := RunPasses(cfg, l, passes[..|passes| - 1]);
      var last := passes[|passes| - 1];
      if before.WouldCut? then WouldCut
      else
        CropKeepsShape(cfg, Append(cfg, before.layer, last.fed), Length(before.layer) + last.kept);
        RunPass(cfg, before.layer, last)
  }

  // The tokens a run leaves in the cache.
  function KeptTokens(tokens: seq<Token>, passes: seq<Pass>): seq<Token>
    requires forall i :: 0 <= i < |passes| ==> passes[i].kept <= |passes[i].fed|
  {
    if passes == [] then tokens
    else
      var last := passes[|passes| - 1];
      KeptTokens(tokens, passes[..|passes| - 1]) + last.fed[..last.kept]
  }

  lemma HoldsLength(cfg: Config, l: Layer, tokens: seq<Token>, q: nat)
    requires Holds(cfg, l, tokens, q)
    ensures cfg.Valid() && cfg.Shaped(l.residual) && q <= |tokens| && Length(l) == |tokens| && BlockTokens(l.blocks) == q
  {
    EncodedTokens(cfg, l.blocks, tokens, q);
  }

  /** With a window at least as long as the rollback, a pass never reaches into a block. */
  lemma PassHolds(cfg: Config, l: Layer, tokens: seq<Token>, q: nat, pass: Pass)
    requires Holds(cfg, l, tokens, q) && cfg.Shaped(pass.fed) && 1 <= pass.kept <= |pass.fed|
    requires |pass.fed| - pass.kept <= cfg.residualLength
    ensures RunPass(cfg, l, pass).Cropped?
    ensures var q' := q + Take(cfg, |tokens| + |pass.fed| - q);
      q' <= |tokens| + pass.kept
      && Holds(cfg, RunPass(cfg, l, pass).layer, tokens + pass.fed[..pass.kept], q')
  {
    hide Take, Append, Holds, CropLayer, Length;
    HoldsLength(cfg, l, tokens, q);
    var all, take := tokens + pass.fed, Take(cfg, |tokens| + |pass.fed| - q);
    AppendHolds(cfg, l, tokens, q, pass.fed);
    CropHolds(cfg, Append(cfg, l, pass.fed), all, q + take, |tokens| + pass.kept);
    assert all[..|tokens| + pass.kept] == tokens + pass.fed[..pass.kept];
  }

  lemma {:induction false} PassesHold(cfg: Config, l: Layer, tokens: seq<Token>, q: nat, passes: seq<Pass>)
      returns (q': nat)
    requires Holds(cfg, l, tokens, q) && Passes(cfg, cfg.residualLength, passes)
    ensures RunPasses(cfg, l, passes).Cropped?
    ensures Holds(cfg, RunPasses(cfg, l, passes).layer, KeptTokens(tokens, passes), q')
    decreases |passes|
  {
    hide RunPass, Take, Holds;
    HoldsShaped(cfg, l, tokens, q);
    if passes == [] {
      q' := q;
    } else {
      var init, last := passes[..|passes| - 1], passes[|passes| - 1];
      var q0 := PassesHold(cfg, l, tokens, q, init);
      HoldsShaped(cfg, RunPasses(cfg, l, init).layer, KeptTokens(tokens, init), q0);
      PassHolds(cfg, RunPasses(cfg, l, init).layer, KeptTokens(tokens, init), q0, last);
      q' := q0 + Take(cfg, |KeptTokens(tokens, init)| + |last.fed| - q0);
    }
  }

  // A window shorter than the lookahead: prefill all but two of a group, then reject every proposal of a
  // pass one wider than the window.
  lemma DeepRollbackCuts(cfg: Config, lookahead: nat)
    requires cfg.Valid() && lookahead > cfg.residualLength
    ensures var prompt, pass := Blank(cfg, cfg.groupSize - 2), Pass(Blank(cfg, cfg.residualLength + 2), 1);
      && Passes(cfg, lookahead, [pass])
      && RunPasses(cfg, AppendAll(cfg, EMPTY, [prompt]), [pass]) == WouldCut
  {
    hide Blank, QuantizeBlock;
    var prompt, pass := Blank(cfg, cfg.groupSize - 2), Pass(Blank(cfg, cfg.residualLength + 2), 1);
    var chunks := [prompt];
    assert chunks[..0] == [] && Joined(chunks[..0]) == [] && Joined(chunks) == [] + prompt == prompt;
    AppendAllHolds(cfg, chunks);
    var l, all := AppendAll(cfg, EMPTY, chunks), prompt + pass.fed;
    assert Quantized(cfg, |prompt|) == 0;
    AppendHolds(cfg, l, prompt, 0, pass.fed);
    OneUpdate(cfg, 1);
    assert Take(cfg, |all|) == cfg.groupSize;
    EncodedTokens(cfg, l.blocks, prompt, 0);
    CropHolds(cfg, Append(cfg, l, pass.fed), all, cfg.groupSize, |prompt| + 1);
    var passes := [pass];
    assert passes[..0] == [];
    assert RunPasses(cfg, l, passes[..0]) == Cropped(l);
  }

  /** No run of speculative passes over any prompt, fed in any chunks, is ever asked to cut a quantized
      block, exactly when the window is at least as long as the largest lookahead. */
  lemma RollbackFitsExactly(cfg: Config, lookahead: nat)
    requires cfg.Valid()
    ensures (forall chunks: seq<seq<Token>>, passes: seq<Pass> :: Chunks(cfg, chunks) && Passes(cfg, lookahead, passes)
               ==> RunPasses(cfg, AppendAll(cfg, EMPTY, chunks), passes).Cropped?)
       <==> lookahead <= cfg.residualLength
  {
    hide Holds, RunPasses, Blank, Quantized;
    if lookahead <= cfg.residualLength {
      forall chunks: seq<seq<Token>>, passes: seq<Pass> | Chunks(cfg, chunks) && Passes(cfg, lookahead, passes)
        ensures RunPasses(cfg, AppendAll(cfg, EMPTY, chunks), passes).Cropped?
      {
        AppendAllHolds(cfg, chunks);
        var _ := PassesHold(cfg, AppendAll(cfg, EMPTY, chunks), Joined(chunks), Quantized(cfg, |Joined(chunks)|), passes);
      }
    } else {
      DeepRollbackCuts(cfg, lookahead);
      assert Chunks(cfg, [Blank(cfg, cfg.groupSize - 2)]);
    }
  }

  // ---- the cache object ------------------------------------------------------------------------------

  function Extended(layers: seq<Layer>, index: nat): (r: seq<Layer>)
    ensures index < |r| && layers <= r && forall i :: |layers| <= i < |r| ==> r[i] == EMPTY
  {
    if index < |layers| then layers else layers + seq(index + 1 - |layers|, _ => EMPTY)
  }

  // Crop the layers from `i` on. A negative length counts back from the end of the first one it meets.
  function CropFrom(layers: seq<Layer>, i: nat, length: int): (r: (seq<Layer>, bool, int))
    requires i <= |layers|
    ensures |r.0| == |layers|
    decreases |layers| - i
  {
    if i == |layers| then (layers, true, length)
    else
      var to := if length < 0 then Length(layers[i]) + length else length;
      var cropped := CropLayer(layers[i], to);
      if cropped.WouldCut? then (layers, false, to) else CropFrom(layers[i := cropped.layer], i + 1, to)
  }

  // Layers that have been fed together hold as many tokens, as many of them in blocks.
  predicate InStep(layers: seq<Layer>, n: nat, q: nat) {
    forall i :: 0 <= i < |layers| ==> BlockTokens(layers[i].blocks) == q && Length(layers[i]) == n
  }

  // The length a crop comes down to on `n` tokens; a negative one counts back from the end.
  function CropTo(n: nat, length: int): int {
    if length < 0 then n + length else length
  }

  /** On layers in step a crop is all or nothing: it cuts every window alike, or it refuses and changes
      no layer. */
  lemma {:induction false} CropAllOrNothing(layers: seq<Layer>, i: nat, n: nat, q: nat, length: int)
    requires i <= |layers| && q <= n
    requires forall k :: i <= k < |layers| ==> BlockTokens(layers[k].blocks) == q && Length(layers[k]) == n
    ensures var r, to := CropFrom(layers, i, length), CropTo(n, length);
      && r.2 == (if i == |layers| then length else to)
      && (r.1 <==> i == |layers| || q <= to)
      && (!r.1 ==> r.0 == layers)
      && (r.1 ==> forall k :: i <= k < |layers| ==> r.0[k] == CropLayer(layers[k], to).layer)
      && forall k :: 0 <= k < i ==> r.0[k] == layers[k]
    decreases |layers| - i
  {
    if i < |layers| && q <= CropTo(n, length) {
      var to := CropTo(n, length);
      CropAllOrNothing(layers[i := CropLayer(layers[i], to).layer], i + 1, n, q, to);
    }
  }

  // The token counter is the length of the first layer.
  predicate Counts(layers: seq<Layer>, seen: nat) {
    seen == if layers == [] then 0 else Length(layers[0])
  }

  lemma {:induction false} FirstIsDone(layers: seq<Layer>, i: nat, length: int)
    requires 0 < i <= |layers|
    ensures CropFrom(layers, i, length).0[0] == layers[0]
    ensures length >= 0 ==> CropFrom(layers, i, length).2 == length
    decreases |layers| - i
  {
    hide CropLayer;
    if i < |layers| {
      var to := if length < 0 then Length(layers[i]) + length else length;
      if CropLayer(layers[i], to).Cropped? { FirstIsDone(layers[i := CropLayer(layers[i], to).layer], i + 1, to); }
    }
  }

  // A crop that succeeds leaves the counter right.
  lemma CropCounts(layers: seq<Layer>, seen: nat, length: int)
    requires Counts(layers, seen) && CropFrom(layers, 0, length).1
    ensures var r := CropFrom(layers, 0, length); Counts(r.0, if r.2 < 0 then 0 else if r.2 < seen then r.2 else seen)
  {
    if layers != [] {
      var to := CropTo(Length(layers[0]), length);
      FirstIsDone(layers[0 := CropLayer(layers[0], to).layer], 1, to);
      assert BlockTokens(layers[0].blocks) >= 0;
    }
  }

  lemma UpdateCounts(cfg: Config, l: Layer, chunk: seq<Token>)
    requires cfg.Valid() && cfg.Shaped(l.residual) && cfg.Shaped(chunk)
    ensures Length(Append(cfg, l, chunk)) == Length(l) + |chunk|
  {
    hide Take, QuantizeBlock;
    var all := l.residual + chunk;
    var take := Take(cfg, |all|);
    if take > 0 {
      var block := QuantizeBlock(cfg, all[..take]);
      BlockIsLong(cfg, all[..take]);
      assert (l.blocks + [block])[..|l.blocks|] == l.blocks;
    }
  }

  lemma BlockIsLong(cfg: Config, tokens: seq<Token>)
    requires cfg.Valid() && cfg.Shaped(tokens)
    ensures QuantizeBlock(cfg, tokens).length == |tokens|
  {}

  /** Per-layer blocks and windows, appended to and cropped in place. */
  class QuantizedKVCache {
    const cfg: Config
    var layers: seq<Layer>
    var seen: nat
    var flushes: nat

    predicate Valid()
      reads this
    {
      cfg.Valid() && forall i :: 0 <= i < |layers| ==> cfg.Shaped(layers[i].residual)
    }

    constructor (cfg: Config)
      requires cfg.Valid()
      ensures this.cfg == cfg && layers == [] && seen == 0 && flushes == 0 && Valid()
    {
      this.cfg := cfg;
      layers, seen, flushes := [], 0, 0;
    }

    method Ensure(index: nat)
      modifies this`layers
      ensures layers == Extended(old(layers), index)
    {
      ghost var before := layers;
      while |layers| <= index
        invariant |before| <= |layers| && (|layers| <= index + 1 || layers == before)
        invariant layers == before + seq(|layers| - |before|, _ => EMPTY)
        decreases index + 1 - |layers|
      {
        layers := layers + [EMPTY];
      }
    }

    // Move whole groups of the oldest exact tokens into a block.
    method Flush(l: Layer) returns (r: Layer)
      requires cfg.Valid() && cfg.Shaped(l.residual)
      modifies this`flushes
      ensures r == KVCache.Flush(cfg, l) && flushes == old(flushes) + (|r.blocks| - |l.blocks|)
    {
      var take := Take(cfg, |l.residual|);
      if take == 0 {
        return l;
      }
      r := Layer(l.blocks + [QuantizeBlock(cfg, l.residual[..take])], l.residual[take..]);
      flushes := flushes + 1;
    }

    // Append one layer's new tokens and return its whole history.
    method Update(chunk: seq<Token>, index: nat) returns (history: Result<seq<Token>>)
      requires Valid() && cfg.Shaped(chunk)
      modifies this
      ensures Valid()
      ensures var before := Extended(old(layers), index);
        layers == before[index := Append(cfg, before[index], chunk)]
      ensures history == Read(cfg, layers[index])
      ensures seen == old(seen) + (if index == 0 then |chunk| else 0)
      ensures old(Counts(layers, seen)) ==> Counts(layers, seen)
    {
      hide Take, Read, KVCache.Flush, Length;
      if index == 0 {
        seen := seen + |chunk|;
      }
      Ensure(index);
      var l := layers[index];
      ghost var appended := Append(cfg, l, chunk);
      UpdateCounts(cfg, l, chunk);
      NothingLong();
      l := Flush(l.(residual := l.residual + chunk));
      assert l == appended;
      layers := layers[index := l];
      history := Read(cfg, l);
    }

    method Crop(maxLength: int) returns (ok: bool)
      requires Valid()
      modifies this
      ensures Valid()
      ensures var r := CropFrom(old(layers), 0, maxLength);
        && layers == r.0 && ok == r.1
        && seen == if ok then (if r.2 < 0 then 0 else if r.2 < old(seen) then r.2 else old(seen)) else old(seen)
      ensures old(Counts(layers, seen)) && ok ==> Counts(layers, seen)
    {
      hide CropFrom, CropLayer, Counts;
      ghost var before, count := layers, seen;
      var length, i := maxLength, 0;
      while i < |layers|
        invariant 0 <= i <= |layers| && Valid() && seen == old(seen)
        invariant CropFrom(old(layers), 0, maxLength) == CropFrom(layers, i, length)
      {
        CropStep(layers, i, length);
        if length < 0 {
          length := Length(layers[i]) + length;
        }
        var cropped := CropLayer(layers[i], length);
        if cropped.WouldCut? {
          return false;
        }
        CropKeepsShape(cfg, layers[i], length);
        layers := layers[i := cropped.layer];
        i := i + 1;
      }
      CropStep(layers, i, length);
      if length < 0 {
        seen := 0;
      } else if length < seen {
        seen := length;
      }
      if Counts(before, count) {
        CropCounts(before, count, maxLength);
      }
      return true;
    }

    function GetSeqLength(index: nat): nat
      reads this
    {
      if index >= |layers| then 0 else Length(layers[index])
    }

    /** A layer's length is the number of tokens it holds, in blocks and window together; the counter is the
        first one's. */
    lemma LengthIsHeld(index: nat, tokens: seq<Token>, q: nat)
      requires if index < |layers| then Holds(cfg, layers[index], tokens, q) else tokens == []
      ensures GetSeqLength(index) == |tokens|
      ensures Counts(layers, seen) <==> seen == GetSeqLength(0)
    {
      if index < |layers| { HoldsLength(cfg, layers[index], tokens, q); }
    }
  }

  lemma NothingLong()
    ensures Length(EMPTY) == 0
  {}

  lemma CropStep(layers: seq<Layer>, i: nat, length: int)
    requires i <= |layers|
    ensures i == |layers| ==> CropFrom(layers, i, length) == (layers, true, length)
    ensures i < |layers| ==>
      var to := if length < 0 then Length(layers[i]) + length else length;
      var cropped := CropLayer(layers[i], to);
      CropFrom(layers, i, length)
      == if cropped.WouldCut? then (layers, false, to) else CropFrom(layers[i := cropped.layer], i + 1, to)
  {
    hide CropLayer;
  }
}
