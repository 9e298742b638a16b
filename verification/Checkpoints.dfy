// Snapshots of the int4 cache, and that a restored cache carries on as the captured one would have.
module Checkpoints {
  import opened Options
  import opened Arithmetic
  import opened Quantizer
  import opened KVCache
  import opened HostCopies
  import opened BlockStore
  import opened CacheRollback

  // The identity of a live block: blocks are only ever appended, so it is where the block stands.
  datatype Place = Place(layer: nat, value: bool, index: nat)

  type Memo = map<Place, nat>

  datatype Snapshot = Snapshot(length: nat, blocks: seq<(seq<nat>, seq<nat>)>, residual: seq<seq<Token>>,
                               groupSize: nat, residualLength: nat)

  function HalfOf(b: Block, value: bool): Half {
    if value then ValueHalf(b.valueLanes) else KeyHalf(b.keyLanes, b.length)
  }

  // Bytes of a lane of `n` elements coded in groups of `group`: two codes a byte, and four bytes a group.
  function CodedBytes(n: nat, group: nat): nat
    requires group > 0
  {
    (n + 1) / 2 + 4 * GroupNo(n, group)
  }

  lemma LaneSize(lane: seq<real>, groupSize: nat)
    requires groupSize >= 2
    ensures var c := Encode(lane, groupSize);
      |c.packed| + 2 * |c.scale| + 2 * |c.zero|
      == CodedBytes(PaddedLength(|lane|, groupSize), GroupFor(|lane|, groupSize))
  {
    hide Codes, Pack, Pad, Padding, GroupNo, Scales, Zeros, Whole, GroupFor;
    var padded := Pad(lane, GroupFor(|lane|, groupSize));
    PackSize(Codes(padded, GroupFor(|lane|, groupSize)));
  }

  lemma PackSize(codes: seq<int>)
    ensures |Pack(codes)| == (|codes| + 1) / 2
  {}

  lemma {:induction false} AlikeLanes(lanes: seq<Coded>, bytes: nat)
    requires forall i :: 0 <= i < |lanes| ==> |lanes[i].packed| + 2 * |lanes[i].scale| + 2 * |lanes[i].zero| == bytes
    ensures LaneBytes(lanes) == |lanes| * bytes
    decreases |lanes|
  {
    if lanes != [] {
      AlikeLanes(lanes[1..], bytes);
      assert |lanes| * bytes == |lanes[1..]| * bytes + bytes;
    }
  }

  /** What a copied block occupies follows from its shape: a lane of its tokens for each key channel, a padded
      lane of the channels for each token's value. */
  lemma HalvesOccupy(cfg: Config, tokens: seq<Token>)
    requires cfg.Valid() && cfg.Shaped(tokens)
    ensures var b, n, g := QuantizeBlock(cfg, tokens), |tokens|, cfg.groupSize;
      && CopyOf(HalfOf(b, false)).nbytes == cfg.keyWidth * CodedBytes(PaddedLength(n, g), GroupFor(n, g))
      && CopyOf(HalfOf(b, true)).nbytes
         == n * CodedBytes(PaddedLength(cfg.valueWidth, g), GroupFor(cfg.valueWidth, g))
      && (n > 0 && Whole(n, g) ==> PaddedLength(n, g) == n && GroupFor(n, g) == g)
  {
    hide CodedBytes, Encode, Padding;
    var b, g := QuantizeBlock(cfg, tokens), cfg.groupSize;
    forall c | 0 <= c < cfg.keyWidth
      ensures |b.keyLanes[c].packed| + 2 * |b.keyLanes[c].scale| + 2 * |b.keyLanes[c].zero|
           == CodedBytes(PaddedLength(|tokens|, g), GroupFor(|tokens|, g))
    {
      LaneSize(Column(tokens, c), g);
    }
    forall t | 0 <= t < |tokens|
      ensures |b.valueLanes[t].packed| + 2 * |b.valueLanes[t].scale| + 2 * |b.valueLanes[t].zero|
           == CodedBytes(PaddedLength(cfg.valueWidth, g), GroupFor(cfg.valueWidth, g))
    {
      LaneSize(tokens[t].value, g);
    }
    AlikeLanes(b.keyLanes, CodedBytes(PaddedLength(|tokens|, g), GroupFor(|tokens|, g)));
    AlikeLanes(b.valueLanes, CodedBytes(PaddedLength(cfg.valueWidth, g), GroupFor(cfg.valueWidth, g)));
    if |tokens| > 0 && Whole(|tokens|, g) { WholeIsUnpadded(|tokens|, g); }
  }

  lemma WholeIsUnpadded(n: nat, group: nat)
    requires group >= 2 && n > 0 && Whole(n, group)
    ensures GroupFor(n, group) == group && Padding(n, group) == 0 && PaddedLength(n, group) == n
  {
    var r := Padding(n, group);
    if group > n { Divides(n, group, 0, n); }
    Divides(n + r, group, n / group, r);
  }

  function Rejoin(k: Half, v: Half): Option<Block> {
    if k.KeyHalf? && v.ValueHalf? then Some(Block(k.keyLanes, v.valueLanes, k.length)) else None
  }

  // ---- capture ----------------------------------------------------------------------------------------

  datatype Held = Held(store: Store<Payload>, memo: Memo, keys: seq<nat>)

  // The store key of one half, copying it only if no earlier snapshot did.
  function Hold(h: Held, place: Place, half: Half): Held {
    if place in h.memo then h.(keys := h.keys + [h.memo[place]])
    else Held(Insert(h.store, CopyOf(half), SizeOf(half)), h.memo[place := h.store.next], h.keys + [h.store.next])
  }

  // The halves of one side of one layer, from block `i` on.
  function HoldSide(h: Held, layer: nat, value: bool, blocks: seq<Block>, i: nat): Held
    requires i <= |blocks|
    decreases |blocks| - i
  {
    if i == |blocks| then h
    else HoldSide(Hold(h, Place(layer, value, i), HalfOf(blocks[i], value)), layer, value, blocks, i + 1)
  }

  datatype Taken = Taken(store: Store<Payload>, memo: Memo, blocks: seq<(seq<nat>, seq<nat>)>)

  function HoldLayer(t: Taken, layer: nat, l: Layer): Taken {
    var keys := HoldSide(Held(t.store, t.memo, []), layer, false, l.blocks, 0);
    var values := HoldSide(Held(keys.store, keys.memo, []), layer, true, l.blocks, 0);
    Taken(values.store, values.memo, t.blocks + [(keys.keys, values.keys)])
  }

  function HoldLayers(t: Taken, layers: seq<Layer>, i: nat): Taken
    requires i <= |layers|
    decreases |layers| - i
  {
    if i == |layers| then t else HoldLayers(HoldLayer(t, i, layers[i]), layers, i + 1)
  }

  function Windows(layers: seq<Layer>): seq<seq<Token>> {
    seq(|layers|, i requires 0 <= i < |layers| => layers[i].residual)
  }

  function Capture(cfg: Config, layers: seq<Layer>, store: Store<Payload>, memo: Memo): (Snapshot, Store<Payload>, Memo) {
    var t := HoldLayers(Taken(store, memo, []), layers, 0);
    (Snapshot(if layers == [] then 0 else Length(layers[0]), t.blocks, Windows(layers), cfg.groupSize, cfg.residualLength),
     t.store, t.memo)
  }

  // ---- restore --------------------------------------------------------------------------------------------

  datatype Restored = Restored(layers: seq<Layer>, seen: nat) | WrongBoundary | Missing

  function RestoreBlocks(store: Store<Payload>, keys: seq<nat>, values: seq<nat>): (r: Option<seq<Block>>)
    ensures r.Some? ==> |r.value| == |keys|
    decreases |keys|
  {
    if |keys| != |values| then None
    else if keys == [] then Some([])
    else
      var n := |keys| - 1;
      var before := RestoreBlocks(store, keys[..n], values[..n]);
      if before.None? || keys[n] !in store.slots || values[n] !in store.slots then None
      else
        var block := Rejoin(store.slots[keys[n]].payload.content, store.slots[values[n]].payload.content);
        if block.None? then None else Some(before.value + [block.value])
  }

  function RestoreLayers(store: Store<Payload>, s: Snapshot, n: nat): (r: Option<seq<Layer>>)
    requires n <= |s.blocks|
    ensures r.Some? ==> |r.value| == n
    decreases n
  {
    if n == 0 then Some([])
    else
      var before := RestoreLayers(store, s, n - 1);
      var blocks := RestoreBlocks(store, s.blocks[n - 1].0, s.blocks[n - 1].1);
      if before.None? || blocks.None? || n > |s.residual| then None
      else Some(before.value + [Layer(blocks.value, s.residual[n - 1])])
  }

  // Restored under a configuration of its own, or under none, when the boundary is taken as it is.
  function Restore(config: Option<Config>, s: Snapshot, store: Store<Payload>): Restored {
    if config.Some? && (config.value.groupSize != s.groupSize || config.value.residualLength != s.residualLength)
    then WrongBoundary
    else
      var layers := RestoreLayers(store, s, |s.blocks|);
      if layers.None? then Missing else Restored(layers.value, s.length)
  }

  // ---- the inverse ------------------------------------------------------------------------------------------

  // Every memo entry is of a block that stands in its place and names a key already handed out; where that key
  // is still held, it holds the block's copy.
  predicate Remembers(store: Store<Payload>, memo: Memo, layers: seq<Layer>) {
    forall p :: p in memo ==>
      && p.layer < |layers| && p.index < |layers[p.layer].blocks| && memo[p] < store.next
      && (memo[p] in store.slots ==>
            store.slots[memo[p]].payload.content == HalfOf(layers[p.layer].blocks[p.index], p.value))
  }

  // Everything the memo names is still held.
  predicate MemoLive(store: Store<Payload>, memo: Memo) {
    forall p :: p in memo ==> memo[p] in store.slots
  }

  // Nothing left and nothing changed; what is new has a new key.
  predicate Grown(s: Store<Payload>, r: Store<Payload>) {
    && s.next <= r.next
    && (forall k :: k in s.slots ==> k in r.slots && r.slots[k] == s.slots[k])
    && forall k :: k in r.slots && k < s.next ==> k in s.slots
  }

  predicate Fresh(s: Store<Payload>) {
    forall k :: k in s.slots ==> k < s.next
  }

  // The keys held so far name the halves of the first `n` blocks, as the memo has them.
  predicate Names(h: Held, layer: nat, value: bool, blocks: seq<Block>, n: nat) {
    && |h.keys| == n <= |blocks|
    && forall i :: 0 <= i < n ==>
         && Place(layer, value, i) in h.memo && h.memo[Place(layer, value, i)] == h.keys[i] < h.store.next
         && (h.keys[i] in h.store.slots ==> h.store.slots[h.keys[i]].payload.content == HalfOf(blocks[i], value))
  }

  // Only new copies were made, and every one is there.
  predicate Extended(s: Store<Payload>, m: Memo, r: Store<Payload>, n: Memo) {
    && Grown(s, r)
    && (forall p :: p in m ==> p in n && n[p] == m[p])
    && (forall p :: p in n ==> p in m || n[p] in r.slots)
  }

  lemma ExtendedTwice(a: Store<Payload>, l: Memo, b: Store<Payload>, m: Memo, c: Store<Payload>, n: Memo)
    requires Extended(a, l, b, m) && Extended(b, m, c, n)
    ensures Extended(a, l, c, n)
  {}

  // Holding one more half keeps what was held and adds its name.
  lemma HoldStep(h: Held, layers: seq<Layer>, layer: nat, value: bool, i: nat)
    requires layer < |layers| && i < |layers[layer].blocks|
    requires Fresh(h.store) && Remembers(h.store, h.memo, layers) && Names(h, layer, value, layers[layer].blocks, i)
    ensures var r := Hold(h, Place(layer, value, i), HalfOf(layers[layer].blocks[i], value));
      && Extended(h.store, h.memo, r.store, r.memo) && Fresh(r.store) && Remembers(r.store, r.memo, layers)
      && Names(r, layer, value, layers[layer].blocks, i + 1)
  {
    hide SizeOf, HalfOf, Hold, Names, Extended, Remembers;
    HoldExtends(h, Place(layer, value, i), HalfOf(layers[layer].blocks[i], value));
    HoldRemembers(h, layers, Place(layer, value, i));
    HoldNames(h, layers, layer, value, i);
  }

  lemma HoldExtends(h: Held, place: Place, half: Half)
    requires Fresh(h.store)
    ensures var r := Hold(h, place, half); Extended(h.store, h.memo, r.store, r.memo) && Fresh(r.store)
  {
    hide SizeOf;
  }

  lemma HoldRemembers(h: Held, layers: seq<Layer>, place: Place)
    requires place.layer < |layers| && place.index < |layers[place.layer].blocks|
    requires Fresh(h.store) && Remembers(h.store, h.memo, layers)
    ensures var r := Hold(h, place, HalfOf(layers[place.layer].blocks[place.index], place.value));
      Remembers(r.store, r.memo, layers)
  {
    hide SizeOf, HalfOf;
  }

  lemma HoldNames(h: Held, layers: seq<Layer>, layer: nat, value: bool, i: nat)
    requires layer < |layers| && i < |layers[layer].blocks|
    requires Fresh(h.store) && Remembers(h.store, h.memo, layers) && Names(h, layer, value, layers[layer].blocks, i)
    ensures var r := Hold(h, Place(layer, value, i), HalfOf(layers[layer].blocks[i], value));
      Names(r, layer, value, layers[layer].blocks, i + 1)
  {
    hide SizeOf, HalfOf;
    var r := Hold(h, Place(layer, value, i), HalfOf(layers[layer].blocks[i], value));
    assert forall k :: 0 <= k < i ==> r.keys[k] == h.keys[k] && Place(layer, value, k) in h.memo;
  }

  lemma {:induction false} HoldSideNames(h: Held, layers: seq<Layer>, layer: nat, value: bool, i: nat)
    requires layer < |layers| && i <= |layers[layer].blocks|
    requires Fresh(h.store) && Remembers(h.store, h.memo, layers) && Names(h, layer, value, layers[layer].blocks, i)
    ensures var r := HoldSide(h, layer, value, layers[layer].blocks, i);
      && Extended(h.store, h.memo, r.store, r.memo) && Fresh(r.store) && Remembers(r.store, r.memo, layers)
      && Names(r, layer, value, layers[layer].blocks, |layers[layer].blocks|)
    decreases |layers[layer].blocks| - i
  {
    hide Hold, HalfOf, Remembers, Fresh, Names, Extended;
    var blocks := layers[layer].blocks;
    if i < |blocks| {
      var next := Hold(h, Place(layer, value, i), HalfOf(blocks[i], value));
      HoldStep(h, layers, layer, value, i);
      HoldSideNames(next, layers, layer, value, i + 1);
      var r := HoldSide(next, layer, value, blocks, i + 1);
      ExtendedTwice(h.store, h.memo, next.store, next.memo, r.store, r.memo);
    } else {
      SameExtended(h.store, h.memo);
    }
  }

  lemma SameExtended(s: Store<Payload>, m: Memo)
    ensures Extended(s, m, s, m)
  {}

  lemma NamesLast(h: Held, r: Held, layer: nat, value: bool, blocks: seq<Block>, n: nat)
    requires Extended(h.store, h.memo, r.store, r.memo) && Names(h, layer, value, blocks, n) && r.keys == h.keys
    ensures Names(r, layer, value, blocks, n)
  {}

  // The first `n` layers' names, all of their blocks.
  predicate LayersNamed(t: Taken, layers: seq<Layer>, n: nat) {
    && |t.blocks| == n <= |layers|
    && forall i :: 0 <= i < n ==>
         && Names(Held(t.store, t.memo, t.blocks[i].0), i, false, layers[i].blocks, |layers[i].blocks|)
         && Names(Held(t.store, t.memo, t.blocks[i].1), i, true, layers[i].blocks, |layers[i].blocks|)
  }

  lemma HoldLayerNames(t: Taken, layers: seq<Layer>, i: nat)
    requires i < |layers| && Fresh(t.store) && Remembers(t.store, t.memo, layers) && LayersNamed(t, layers, i)
    ensures var r := HoldLayer(t, i, layers[i]);
      && Extended(t.store, t.memo, r.store, r.memo) && Fresh(r.store) && Remembers(r.store, r.memo, layers)
      && LayersNamed(r, layers, i + 1)
  {
    hide HoldSide, Names, Extended, Remembers, Fresh;
    var blocks := layers[i].blocks;
    NoneYet(t.store, t.memo, i, false, blocks);
    HoldSideNames(Held(t.store, t.memo, []), layers, i, false, 0);
    var keys := HoldSide(Held(t.store, t.memo, []), i, false, blocks, 0);
    NoneYet(keys.store, keys.memo, i, true, blocks);
    HoldSideNames(Held(keys.store, keys.memo, []), layers, i, true, 0);
    var values := HoldSide(Held(keys.store, keys.memo, []), i, true, blocks, 0);
    ExtendedTwice(t.store, t.memo, keys.store, keys.memo, values.store, values.memo);
    NamesLast(keys, values.(keys := keys.keys), i, false, blocks, |blocks|);
    forall k | 0 <= k < i
      ensures Names(values.(keys := t.blocks[k].0), k, false, layers[k].blocks, |layers[k].blocks|)
      ensures Names(values.(keys := t.blocks[k].1), k, true, layers[k].blocks, |layers[k].blocks|)
    {
      NamesLast(Held(t.store, t.memo, t.blocks[k].0), values.(keys := t.blocks[k].0), k, false, layers[k].blocks,
        |layers[k].blocks|);
      NamesLast(Held(t.store, t.memo, t.blocks[k].1), values.(keys := t.blocks[k].1), k, true, layers[k].blocks,
        |layers[k].blocks|);
    }
  }

  lemma NoneYet(store: Store<Payload>, memo: Memo, layer: nat, value: bool, blocks: seq<Block>)
    ensures Names(Held(store, memo, []), layer, value, blocks, 0)
  {}

  lemma {:induction false} HoldLayersNames(t: Taken, layers: seq<Layer>, i: nat)
    requires i <= |layers| && Fresh(t.store) && Remembers(t.store, t.memo, layers) && LayersNamed(t, layers, i)
    ensures var r := HoldLayers(t, layers, i);
      && Extended(t.store, t.memo, r.store, r.memo) && Fresh(r.store) && Remembers(r.store, r.memo, layers)
      && LayersNamed(r, layers, |layers|)
    decreases |layers| - i
  {
    hide HoldLayer, LayersNamed, Remembers, Extended;
    if i < |layers| {
      HoldLayerNames(t, layers, i);
      var next := HoldLayer(t, i, layers[i]);
      HoldLayersNames(next, layers, i + 1);
      var r := HoldLayers(next, layers, i + 1);
      ExtendedTwice(t.store, t.memo, next.store, next.memo, r.store, r.memo);
    } else {
      SameExtended(t.store, t.memo);
    }
  }

  // What a capture comes to.
  lemma CaptureIs(cfg: Config, layers: seq<Layer>, store: Store<Payload>, memo: Memo)
    requires Fresh(store) && Remembers(store, memo, layers)
    ensures var (s, after, memo') := Capture(cfg, layers, store, memo);
      && Extended(store, memo, after, memo') && Fresh(after) && Remembers(after, memo', layers)
      && LayersNamed(Taken(after, memo', s.blocks), layers, |layers|)
  {
    hide HoldLayers, Remembers, Extended;
    NoLayersYet(Taken(store, memo, []), layers);
    HoldLayersNames(Taken(store, memo, []), layers, 0);
    hide LayersNamed;
  }

  lemma NoLayersYet(t: Taken, layers: seq<Layer>)
    requires t.blocks == []
    ensures LayersNamed(t, layers, 0)
  {}

  // Every key of a snapshot.
  function KeysOf(blocks: seq<(seq<nat>, seq<nat>)>): seq<nat> {
    if blocks == [] then [] else KeysOf(blocks[..|blocks| - 1]) + blocks[|blocks| - 1].0 + blocks[|blocks| - 1].1
  }

  lemma {:induction false} KeysLive(store: Store<Payload>, blocks: seq<(seq<nat>, seq<nat>)>)
    ensures Live(store, KeysOf(blocks))
       <==> forall i :: 0 <= i < |blocks| ==> Live(store, blocks[i].0) && Live(store, blocks[i].1)
    decreases |blocks|
  {
    if blocks != [] {
      var n := |blocks| - 1;
      KeysLive(store, blocks[..n]);
      LiveJoin(store, KeysOf(blocks[..n]), blocks[n].0);
      LiveJoin(store, KeysOf(blocks[..n]) + blocks[n].0, blocks[n].1);
      hide Live;
      assert forall i :: 0 <= i < n ==> blocks[..n][i] == blocks[i];
    }
  }

  lemma LiveJoin(store: Store<Payload>, a: seq<nat>, b: seq<nat>)
    ensures Live(store, a + b) <==> Live(store, a) && Live(store, b)
  {
    if Live(store, a + b) {
      forall i | 0 <= i < |a| ensures a[i] in store.slots { assert (a + b)[i] == a[i]; }
      forall i | 0 <= i < |b| ensures b[i] in store.slots { assert (a + b)[|a| + i] == b[i]; }
    }
  }

  /** A capture names only copies that are held exactly when everything its memo names is still held: what
      an earlier capture copied is not copied again, even after it has been let go of. */
  lemma CaptureIsLive(cfg: Config, layers: seq<Layer>, store: Store<Payload>, memo: Memo)
    requires Fresh(store) && Remembers(store, memo, layers)
    ensures var (s, after, _) := Capture(cfg, layers, store, memo);
      Live(after, KeysOf(s.blocks)) <==> MemoLive(store, memo)
  {
    CaptureIs(cfg, layers, store, memo);
    var (s, after, memo') := Capture(cfg, layers, store, memo);
    hide Capture, HalfOf;
    KeysLive(after, s.blocks);
    if MemoLive(store, memo) {
      forall i | 0 <= i < |s.blocks| ensures Live(after, s.blocks[i].0) && Live(after, s.blocks[i].1) {}
    } else {
      var p :| p in memo && memo[p] !in store.slots;
      assert memo'[p] == memo[p] && memo[p] !in after.slots;
      var taken := s.blocks[p.layer];
      assert (if p.value then taken.1 else taken.0)[p.index] == memo[p];
      assert !Live(after, if p.value then taken.1 else taken.0);
    }
  }

  lemma {:induction false} NamedBlocksReturn(store: Store<Payload>, keys: seq<nat>, values: seq<nat>,
                                             blocks: seq<Block>, n: nat)
    requires n == |keys| == |values| <= |blocks|
    requires forall i :: 0 <= i < n && keys[i] in store.slots ==>
      store.slots[keys[i]].payload.content == HalfOf(blocks[i], false)
    requires forall i :: 0 <= i < n && values[i] in store.slots ==>
      store.slots[values[i]].payload.content == HalfOf(blocks[i], true)
    ensures RestoreBlocks(store, keys, values)
         == if Live(store, keys) && Live(store, values) then Some(blocks[..n]) else None
    decreases n
  {
    if n > 0 {
      NamedBlocksReturn(store, keys[..n - 1], values[..n - 1], blocks, n - 1);
      assert blocks[..n] == blocks[..n - 1] + [blocks[n - 1]];
      assert keys == keys[..n - 1] + [keys[n - 1]] && values == values[..n - 1] + [values[n - 1]];
      LiveJoin(store, keys[..n - 1], [keys[n - 1]]);
      LiveJoin(store, values[..n - 1], [values[n - 1]]);
      assert Live(store, [keys[n - 1]]) <==> keys[n - 1] in store.slots by { assert [keys[n - 1]][0] == keys[n - 1]; }
      assert Live(store, [values[n - 1]]) <==> values[n - 1] in store.slots by {
        assert [values[n - 1]][0] == values[n - 1];
      }
      hide Live;
    }
  }

  // A later store holds what these names say, where it holds anything.
  predicate Tells(store: Store<Payload>, taken: seq<(seq<nat>, seq<nat>)>, layers: seq<Layer>) {
    && |taken| == |layers|
    && forall i :: 0 <= i < |layers| ==>
         && |taken[i].0| == |taken[i].1| == |layers[i].blocks|
         && (forall k :: 0 <= k < |layers[i].blocks| ==>
               && (taken[i].0[k] in store.slots
                  ==> store.slots[taken[i].0[k]].payload.content == HalfOf(layers[i].blocks[k], false))
               && (taken[i].1[k] in store.slots
                  ==> store.slots[taken[i].1[k]].payload.content == HalfOf(layers[i].blocks[k], true)))
  }

  lemma {:induction false} NamedLayersReturn(store: Store<Payload>, s: Snapshot, layers: seq<Layer>, n: nat)
    requires Tells(store, s.blocks, layers) && s.residual == Windows(layers) && n <= |layers|
    ensures RestoreLayers(store, s, n)
         == if Live(store, KeysOf(s.blocks[..n])) then Some(layers[..n]) else None
    decreases n
  {
    hide RestoreBlocks, HalfOf, Live;
    if n > 0 {
      NamedLayersReturn(store, s, layers, n - 1);
      var l, taken := layers[n - 1], s.blocks[n - 1];
      NamedBlocksReturn(store, taken.0, taken.1, l.blocks, |l.blocks|);
      assert l.blocks[..|l.blocks|] == l.blocks;
      assert layers[..n] == layers[..n - 1] + [l];
      assert s.blocks[..n][..n - 1] == s.blocks[..n - 1];
      LiveJoin(store, KeysOf(s.blocks[..n - 1]), taken.0);
      LiveJoin(store, KeysOf(s.blocks[..n - 1]) + taken.0, taken.1);
    } else {
      NothingToHold(store);
    }
  }

  lemma NothingToHold(store: Store<Payload>)
    ensures Live(store, [])
  {}

  lemma TellsLater(t: Taken, layers: seq<Layer>, later: Store<Payload>)
    requires LayersNamed(t, layers, |layers|) && Grown(t.store, later)
    ensures Tells(later, t.blocks, layers)
    ensures Live(later, KeysOf(t.blocks)) <==> Live(t.store, KeysOf(t.blocks))
  {
    hide HalfOf;
    forall i | 0 <= i < |layers|
      ensures Live(later, t.blocks[i].0) <==> Live(t.store, t.blocks[i].0)
      ensures Live(later, t.blocks[i].1) <==> Live(t.store, t.blocks[i].1)
    {
      assert Names(Held(t.store, t.memo, t.blocks[i].0), i, false, layers[i].blocks, |layers[i].blocks|);
      assert Names(Held(t.store, t.memo, t.blocks[i].1), i, true, layers[i].blocks, |layers[i].blocks|);
    }
    KeysLive(later, t.blocks);
    KeysLive(t.store, t.blocks);
  }

  /** Restoring what was just captured, under the same configuration or none, gives back every block and
      window, from any store the copies are still in, exactly when the capture's memo named only what was
      held; otherwise a copy is missing. */
  lemma RestoreCapture(cfg: Config, config: Option<Config>, layers: seq<Layer>, store: Store<Payload>, memo: Memo,
                       later: Store<Payload>)
    requires Fresh(store) && Remembers(store, memo, layers)
    requires Grown(Capture(cfg, layers, store, memo).1, later) && (config.Some? ==> config.value == cfg)
    ensures var (s, after, memo') := Capture(cfg, layers, store, memo);
      && Restore(config, s, later)
         == (if MemoLive(store, memo) then Restored(layers, if layers == [] then 0 else Length(layers[0])) else Missing)
      && Grown(store, after) && Fresh(after) && Remembers(after, memo', layers)
  {
    hide HoldLayers, Names, Remembers, LayersNamed, MemoLive, Live, Tells, Fresh, Grown;
    CaptureIs(cfg, layers, store, memo);
    CaptureIsLive(cfg, layers, store, memo);
    var (s, after, memo') := Capture(cfg, layers, store, memo);
    TellsLater(Taken(after, memo', s.blocks), layers, later);
    TellsLength(later, s.blocks, layers);
    NamedLayersReturn(later, s, layers, |layers|);
    assert layers[..|layers|] == layers && s.blocks[..|layers|] == s.blocks;
  }

  lemma TellsLength(store: Store<Payload>, taken: seq<(seq<nat>, seq<nat>)>, layers: seq<Layer>)
    requires Tells(store, taken, layers)
    ensures |taken| == |layers|
  {}

  /** A restore is refused exactly when it is given a configuration under which the split would fall
      elsewhere. */
  lemma OtherConfigRefused(cfg: Config, other: Option<Config>, layers: seq<Layer>, store: Store<Payload>, memo: Memo,
                           later: Store<Payload>)
    ensures Restore(other, Capture(cfg, layers, store, memo).0, later) == WrongBoundary
       <==> other.Some? && (other.value.groupSize != cfg.groupSize || other.value.residualLength != cfg.residualLength)
  {}

  // ---- carrying on ------------------------------------------------------------------------------------------

  lemma {:induction false} AppendAllJoin(cfg: Config, l: Layer, a: seq<seq<Token>>, b: seq<seq<Token>>)
    requires cfg.Valid() && cfg.Shaped(l.residual) && Chunks(cfg, a) && Chunks(cfg, b)
    ensures Chunks(cfg, a + b) && AppendAll(cfg, l, a + b) == AppendAll(cfg, AppendAll(cfg, l, a), b)
    decreases |b|
  {
    hide Append;
    if b == [] {
      assert a + b == a;
    } else {
      var n := |b| - 1;
      AppendAllJoin(cfg, l, a, b[..n]);
      assert (a + b)[..|a + b| - 1] == a + b[..n];
    }
  }

  /** Capture after `a`, restore, feed `b`: every layer is the one that was fed `a` then `b` throughout,
      block for block, so every history it returns is too. It comes to that exactly when what the memo names
      is still held. `fed[i]` is what layer `i` was given before. */
  lemma RestoredCarriesOn(cfg: Config, fed: seq<seq<seq<Token>>>, store: Store<Payload>, memo: Memo, later: Store<Payload>,
                          i: nat, b: seq<seq<Token>>)
    requires cfg.Valid() && (forall k :: 0 <= k < |fed| ==> Chunks(cfg, fed[k])) && i < |fed| && Chunks(cfg, b)
    requires Fresh(store) && Remembers(store, memo, LayersFed(cfg, fed))
    requires Grown(Capture(cfg, LayersFed(cfg, fed), store, memo).1, later)
    ensures var r := Restore(Some(cfg), Capture(cfg, LayersFed(cfg, fed), store, memo).0, later);
      && (r.Restored? <==> MemoLive(store, memo))
      && (r.Restored? ==>
            && |r.layers| == |fed| && cfg.Shaped(r.layers[i].residual)
            && AppendAll(cfg, r.layers[i], b) == AppendAll(cfg, EMPTY, fed[i] + b)
            && (Even(cfg) ==> var tokens := Joined(fed[i] + b);
                  && cfg.Shaped(tokens)
                  && Read(cfg, AppendAll(cfg, r.layers[i], b)) == Ok(View(cfg, tokens, Quantized(cfg, |tokens|)))))
  {
    hide Capture, Restore, View, Quantized, Read, Append, Remembers, Even, MemoLive;
    RestoreCapture(cfg, Some(cfg), LayersFed(cfg, fed), store, memo, later);
    AppendAllJoin(cfg, EMPTY, fed[i], b);
    if Even(cfg) {
      HistoryIsView(cfg, fed[i] + b);
    }
  }

  function LayersFed(cfg: Config, fed: seq<seq<seq<Token>>>): (layers: seq<Layer>)
    requires cfg.Valid() && (forall k :: 0 <= k < |fed| ==> Chunks(cfg, fed[k]))
    ensures |layers| == |fed| && forall k :: 0 <= k < |fed| ==> layers[k] == AppendAll(cfg, EMPTY, fed[k])
  {
    seq(|fed|, k requires 0 <= k < |fed| => AppendAll(cfg, EMPTY, fed[k]))
  }

  /** An update leaves every block in its place, so what the memo remembers stays true. */
  lemma UpdatesKeepMemo(cfg: Config, layers: seq<Layer>, i: nat, chunk: seq<Token>, store: Store<Payload>, memo: Memo)
    requires cfg.Valid() && i < |layers| && cfg.Shaped(layers[i].residual) && cfg.Shaped(chunk)
    requires Remembers(store, memo, layers)
    ensures Remembers(store, memo, layers[i := Append(cfg, layers[i], chunk)])
  {
    hide QuantizeBlock, Take;
    var grown := Append(cfg, layers[i], chunk).blocks;
    assert forall k :: 0 <= k < |layers[i].blocks| ==> grown[k] == layers[i].blocks[k];
  }

  /** A later capture of the same generation copies no block an earlier one already has. */
  lemma SecondCaptureSharesAll(cfg: Config, layers: seq<Layer>, store: Store<Payload>, memo: Memo)
    requires Fresh(store) && Remembers(store, memo, layers)
    ensures var (_, after, memo') := Capture(cfg, layers, store, memo);
      Capture(cfg, layers, after, memo').1 == after
  {
    CaptureIs(cfg, layers, store, memo);
    var t := HoldLayers(Taken(store, memo, []), layers, 0);
    hide HoldLayers, Remembers;
    forall i, value, k | 0 <= i < |layers| && 0 <= k < |layers[i].blocks| ensures Place(i, value, k) in t.memo {
      assert Names(Held(t.store, t.memo, t.blocks[i].0), i, false, layers[i].blocks, |layers[i].blocks|);
      assert Names(Held(t.store, t.memo, t.blocks[i].1), i, true, layers[i].blocks, |layers[i].blocks|);
    }
    NothingToCopy(Taken(t.store, t.memo, []), layers, 0);
  }

  predicate Covered(memo: Memo, layers: seq<Layer>, from: nat, to: nat)
    requires to <= |layers|
  {
    forall i, value, k :: from <= i < to && 0 <= k < |layers[i].blocks| ==> Place(i, value, k) in memo
  }

  lemma {:induction false} SideIsHeld(h: Held, layer: nat, value: bool, blocks: seq<Block>, i: nat)
    requires i <= |blocks| && forall k :: i <= k < |blocks| ==> Place(layer, value, k) in h.memo
    ensures var r := HoldSide(h, layer, value, blocks, i); r.store == h.store && r.memo == h.memo
    decreases |blocks| - i
  {
    if i < |blocks| {
      SideIsHeld(Hold(h, Place(layer, value, i), HalfOf(blocks[i], value)), layer, value, blocks, i + 1);
    }
  }

  lemma {:induction false} NothingToCopy(t: Taken, layers: seq<Layer>, i: nat)
    requires i <= |layers| && Covered(t.memo, layers, 0, |layers|)
    ensures HoldLayers(t, layers, i).store == t.store
    decreases |layers| - i
  {
    hide HoldSide;
    if i < |layers| {
      SideIsHeld(Held(t.store, t.memo, []), i, false, layers[i].blocks, 0);
      SideIsHeld(Held(t.store, t.memo, []), i, true, layers[i].blocks, 0);
      NothingToCopy(HoldLayer(t, i, layers[i]), layers, i + 1);
    }
  }
}
