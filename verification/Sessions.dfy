// One generation's use of the prefix cache: checkpoints captured as it runs and put where the next turn finds
// them, in a store shared with everybody else.
module Sessions {
  import opened Options
  import opened HostCopies
  import opened BlockStore
  import opened PrefixHash
  import opened PrefixCache
  import opened PrefixLookup
  import opened PrefixHistory
  import opened PrefixKept
  import KVCache
  import CacheRollback
  import Checkpoints

  // The cache's configuration, the model's, and what an exact window occupies on the host.
  datatype Setup = Setup(cache: Config, kv: KVCache.Config, bytesOf: seq<KVCache.Token> -> nat)

  // The running tokens, the live int4 cache, the host copies this generation knows of, and the lengths it has
  // tried to checkpoint.
  datatype Session = Session(tokens: seq<nat>, layers: seq<KVCache.Layer>, memo: Checkpoints.Memo, tried: set<nat>,
                             promptLength: nat)

  // Not a length to come back to; what `put` answered; or its failure, which ends the generation.
  datatype Outcome = Skipped | Answered(kept: bool) | Raised

  function LengthOf(s: Session): nat {
    if s.layers == [] then 0 else KVCache.Length(s.layers[0])
  }

  predicate Wanted(setup: Setup, s: Session, force: bool)
    requires setup.cache.hashing.blockSize >= 1
  {
    var length := LengthOf(s);
    && setup.cache.capacity > 0 && 0 < length <= |s.tokens| && length !in s.tried
    && (force || length == s.promptLength || length % setup.cache.hashing.blockSize == 0)
  }

  function WindowBytes(setup: Setup, windows: seq<seq<KVCache.Token>>): nat {
    if windows == [] then 0 else WindowBytes(setup, windows[..|windows| - 1]) + setup.bytesOf(windows[|windows| - 1])
  }

  function Captured(setup: Setup, st: State, s: Session): (Checkpoints.Snapshot, Store<Payload>, Checkpoints.Memo) {
    Checkpoints.Capture(setup.kv, s.layers, st.store, s.memo)
  }

  // The checkpoint of what the cache holds now.
  function CheckpointOf(setup: Setup, st: State, s: Session): Checkpoint
    requires LengthOf(s) <= |s.tokens|
  {
    var snapshot := Captured(setup, st, s).0;
    Checkpoint(s.tokens[..LengthOf(s)], Checkpoints.KeysOf(snapshot.blocks), WindowBytes(setup, snapshot.residual))
  }

  // The cache once the blocks it lacked have been copied.
  function Copied(setup: Setup, st: State, s: Session): State {
    st.(store := Captured(setup, st, s).1)
  }

  predicate SessionOk(setup: Setup, st: State, s: Session) {
    && setup.kv.Valid() && setup.cache.hashing.blockSize >= 1 && AreTokens(s.tokens)
    && (forall i :: 0 <= i < |s.layers| ==> setup.kv.Shaped(s.layers[i].residual))
    && Checkpoints.Remembers(st.store, s.memo, s.layers)
  }

  // Checkpoint this length if it is worth coming back to. A put of a name already resident asks for nothing;
  // any other counts its blocks, and fails on one that is not there.
  function Attempt(setup: Setup, st: State, s: Session, force: bool, disk: Disk): (State, Session, Outcome)
    requires Wf(setup.cache, st) && SessionOk(setup, st, s)
  {
    if !Wanted(setup, s, force) then (st, s, Skipped)
    else
      CopiedWf(setup, st, s);
      var held, cp := Copied(setup, st, s), CheckpointOf(setup, st, s);
      var after := s.(memo := Captured(setup, st, s).2, tried := s.tried + {LengthOf(s)});
      var key := setup.cache.hashing.KeyFor(s.tokens, LengthOf(s));
      if Find(held.entries, key).None? && !Live(held.store, cp.blocks) then
        (held.(store := AcquireOrRaise(held.store, cp.blocks).0), after, Raised)
      else
        var put := PutNamed(setup.cache, held, s.tokens, cp, disk);
        (put.0, after, Answered(put.1))
  }

  // `put`, for a checkpoint whose blocks need only be there if its name is new.
  function PutNamed(cfg: Config, st: State, tokens: seq<nat>, cp: Checkpoint, disk: Disk): (r: (State, bool))
    requires Wf(cfg, st) && cfg.hashing.blockSize >= 1 && AreTokens(tokens) && cp.covers <= tokens
    requires Live(st.store, cp.blocks) || Find(st.entries, cfg.hashing.KeyFor(tokens, |cp.covers|)).Some?
    ensures Wf(cfg, r.0)
  {
    if Live(st.store, cp.blocks) then Put(cfg, st, tokens, cp, disk)
    else
      var at := Find(st.entries, cfg.hashing.KeyFor(tokens, |cp.covers|));
      TouchKeeps(cfg, st, at.value);
      (st.(entries := ToEnd(st.entries, at.value)), false)
  }

  // ---- capturing into the shared store --------------------------------------------------------------------

  // Copies were added, held by nobody yet.
  ghost predicate Topped(s: Store<Payload>, r: Store<Payload>) {
    && Checkpoints.Grown(s, r) && (Valid(s) ==> Valid(r))
    && forall k :: k in r.slots && k !in s.slots ==> r.slots[k].refs == 0 && r.slots[k].size == r.slots[k].payload.nbytes
  }

  lemma ToppedTwice(a: Store<Payload>, b: Store<Payload>, c: Store<Payload>)
    requires Topped(a, b) && Topped(b, c)
    ensures Topped(a, c)
  {}

  lemma InsertTops(s: Store<Payload>, half: Half)
    requires Valid(s)
    ensures Topped(s, Insert(s, CopyOf(half), SizeOf(half)))
  {
    PutValid(s, CopyOf(half), SizeOf(half));
  }

  lemma {:induction false} SideTops(h: Checkpoints.Held, layer: nat, value: bool, blocks: seq<KVCache.Block>, i: nat)
    requires i <= |blocks| && Valid(h.store)
    ensures Topped(h.store, Checkpoints.HoldSide(h, layer, value, blocks, i).store)
    decreases |blocks| - i
  {
    if i < |blocks| {
      var half, place := Checkpoints.HalfOf(blocks[i], value), Checkpoints.Place(layer, value, i);
      var next := Checkpoints.Hold(h, place, half);
      if place !in h.memo { InsertTops(h.store, half); }
      hide Valid, Insert;
      SideTops(next, layer, value, blocks, i + 1);
      ToppedTwice(h.store, next.store, Checkpoints.HoldSide(next, layer, value, blocks, i + 1).store);
    }
  }

  lemma {:induction false} LayersTop(t: Checkpoints.Taken, layers: seq<KVCache.Layer>, i: nat)
    requires i <= |layers| && Valid(t.store)
    ensures Topped(t.store, Checkpoints.HoldLayers(t, layers, i).store)
    decreases |layers| - i
  {
    hide Valid, Checkpoints.HoldSide, Checkpoints.Grown;
    if i < |layers| {
      var blocks := layers[i].blocks;
      SideTops(Checkpoints.Held(t.store, t.memo, []), i, false, blocks, 0);
      var keys := Checkpoints.HoldSide(Checkpoints.Held(t.store, t.memo, []), i, false, blocks, 0);
      SideTops(Checkpoints.Held(keys.store, keys.memo, []), i, true, blocks, 0);
      var next := Checkpoints.HoldLayer(t, i, layers[i]);
      ToppedTwice(t.store, keys.store, next.store);
      LayersTop(next, layers, i + 1);
      ToppedTwice(t.store, next.store, Checkpoints.HoldLayers(next, layers, i + 1).store);
    } else {
      SameTopped(t.store);
    }
  }

  lemma SameTopped(s: Store<Payload>)
    ensures Topped(s, s)
  {}

  lemma ToppedCounted(s: Store<Payload>, r: Store<Payload>, held: multiset<nat>)
    requires Counted(s, held) && Topped(s, r)
    ensures Counted(r, held)
  {
    forall k | k in r.slots && k !in s.slots ensures held[k] == 0 {}
  }

  lemma CopiedWf(setup: Setup, st: State, s: Session)
    requires Wf(setup.cache, st)
    ensures Wf(setup.cache, Copied(setup, st, s)) && Topped(st.store, Copied(setup, st, s).store)
    ensures Checkpoints.Fresh(st.store)
  {
    hide NamesOnly, Named, Held, FileBytes, Checkpoints.HoldLayers, Topped;
    LayersTop(Checkpoints.Taken(st.store, s.memo, []), s.layers, 0);
    ToppedCounted(st.store, Copied(setup, st, s).store, Held(st.entries));
  }

  /** A checkpoint fails exactly when it is wanted under a new name and some block that was copied for an
      earlier checkpoint of the generation has been let go of since. */
  lemma RaisesExactly(setup: Setup, st: State, s: Session, force: bool, disk: Disk)
    requires Wf(setup.cache, st) && SessionOk(setup, st, s)
    ensures Attempt(setup, st, s, force, disk).2.Raised?
       <==> && Wanted(setup, s, force) && !Checkpoints.MemoLive(st.store, s.memo)
            && Find(st.entries, setup.cache.hashing.KeyFor(s.tokens, LengthOf(s))).None?
  {
    hide Wf, Find, Hashing.KeyFor, Checkpoints.MemoLive, Live, Checkpoints.Remembers, PutNamed, AcquireOrRaise;
    CopiedWf(setup, st, s);
    Checkpoints.CaptureIsLive(setup.kv, s.layers, st.store, s.memo);
  }

  /** A length is passed over exactly when there is nowhere to keep it, nothing to keep, more in the cache than
      tokens are known for, or it was tried before, or it is neither asked for, nor the prompt's, nor a whole number
      of blocks. Any other is tried this once: from then on it is passed over. */
  lemma TriedOnce(setup: Setup, st: State, s: Session, force: bool, disk: Disk)
    requires Wf(setup.cache, st) && SessionOk(setup, st, s)
    ensures var (r, after, outcome) := Attempt(setup, st, s, force, disk);
      var n := if s.layers == [] then 0 else KVCache.Length(s.layers[0]);
      && (outcome.Skipped? <==>
            || setup.cache.capacity == 0 || n == 0 || n > |s.tokens| || n in s.tried
            || (!force && n != s.promptLength && n % setup.cache.hashing.blockSize != 0))
      && (outcome.Skipped? ==> r == st && after == s)
      && (!outcome.Skipped? ==> after == s.(memo := after.memo, tried := s.tried + {n}))
  {
    hide Wf, PutNamed, Find, Hashing.KeyFor, AcquireOrRaise, Live, Checkpoints.Remembers;
    if Wanted(setup, s, force) { CopiedWf(setup, st, s); }
  }

  /** A checkpoint that was kept, and fits the cache by itself, is there for the next turn: a lookup of any text
      that goes on from it finds it, or something longer. */
  lemma NextTurnFinds(setup: Setup, st: State, s: Session, force: bool, disk: Disk, more: seq<nat>, again: Disk)
    requires Wf(setup.cache, st) && SessionOk(setup, st, s) && setup.cache.hashing.Ideal() && AreTokens(more)
    requires Attempt(setup, st, s, force, disk).2 == Answered(true)
    requires LengthOf(s) <= |s.tokens| && s.tokens[..LengthOf(s)] <= more
    requires Wf(setup.cache, Copied(setup, st, s))
      && OwnBytes(Copied(setup, st, s).store, CheckpointOf(setup, st, s)) <= setup.cache.capacity
    ensures Wf(setup.cache, Attempt(setup, st, s, force, disk).0)
    ensures var m := Lookup(setup.cache, Attempt(setup, st, s, force, disk).0, more, again).1;
      m.Some? && LengthOf(s) <= m.value.length
  {
    hide Wf, Hashing.Ideal, Attempt, Lookup, OwnBytes, Put, SessionOk, CheckpointOf, Copied, LengthOf;
    AnsweredIsPut(setup, st, s, force, disk);
    KeptPutFound(setup.cache, Copied(setup, st, s), s.tokens, CheckpointOf(setup, st, s), disk, more, again);
  }

  lemma AnsweredIsPut(setup: Setup, st: State, s: Session, force: bool, disk: Disk)
    requires Wf(setup.cache, st) && SessionOk(setup, st, s) && LengthOf(s) <= |s.tokens|
    requires Attempt(setup, st, s, force, disk).2 == Answered(true)
    ensures var held, cp := Copied(setup, st, s), CheckpointOf(setup, st, s);
      && setup.cache.capacity > 0 && setup.cache.hashing.blockSize >= 1 && AreTokens(s.tokens)
      && cp.covers == s.tokens[..LengthOf(s)] && cp.covers != [] && Wf(setup.cache, held) && Live(held.store, cp.blocks)
      && Put(setup.cache, held, s.tokens, cp, disk) == (Attempt(setup, st, s, force, disk).0, true)
  {
    hide Wf, Find, Hashing.KeyFor, AcquireOrRaise, Live, Checkpoints.Remembers, Put;
    CopiedWf(setup, st, s);
  }

  lemma KeptPutFound(cfg: Config, st: State, tokens: seq<nat>, cp: Checkpoint, disk: Disk, more: seq<nat>, again: Disk)
    requires Wf(cfg, st) && cfg.hashing.Ideal() && cfg.capacity > 0 && cfg.hashing.blockSize >= 1 && AreTokens(tokens)
    requires cp.covers <= tokens && cp.covers != [] && Live(st.store, cp.blocks) && Put(cfg, st, tokens, cp, disk).1
    requires AreTokens(more) && cp.covers <= more && OwnBytes(st.store, cp) <= cfg.capacity
    ensures var m := Lookup(cfg, Put(cfg, st, tokens, cp, disk).0, more, again).1;
      m.Some? && |cp.covers| <= m.value.length
  {
    hide Wf, Find, Hashing.KeyFor, Hashing.Ideal, Live, Put, Lookup, OwnBytes, Listed, FindFile, OnlyNewest, Filed, LeadsTo;
    var n, r := |cp.covers|, Put(cfg, st, tokens, cp, disk).0;
    var key := cfg.hashing.KeyFor(tokens, n);
    KeptIsStoredExactly(cfg, st, tokens, cp, disk);
    KeptFollows(cfg, st, PutOp(tokens, cp, disk), key, n);
    ListedLeads(st.index, key, n, key, n);
    LeadsToIs(r.index, key, n);
    KeyLocal(cfg.hashing, tokens, n);
    KeyLocal(cfg.hashing, more, n);
    assert tokens[..n] == cp.covers == more[..n];
    LookupIsLongest(cfg, r, more, again, n);
  }

  lemma LeadsToIs(index: map<Digest, map<nat, Digest>>, key: Key, n: nat)
    ensures LeadsTo(index, key, n) <==> key.chain in index && n in index[key.chain] && index[key.chain][n] == key.tail
  {}

  // ---- what others do to the store ----------------------------------------------------------------------------

  // Keys are never handed out twice, and what is still held has not changed.
  ghost predicate Aged(s: Store<Payload>, r: Store<Payload>) {
    s.next <= r.next
    && forall k :: k in r.slots && k < s.next ==> k in s.slots && r.slots[k].payload == s.slots[k].payload
  }

  lemma AgedTwice(a: Store<Payload>, b: Store<Payload>, c: Store<Payload>)
    requires Aged(a, b) && Aged(b, c)
    ensures Aged(a, c)
  {}

  lemma {:induction false} ReleaseNext(s: Store<Payload>, keys: seq<nat>)
    ensures Release(s, keys).next == s.next
    decreases |keys|
  {
    if keys != [] { ReleaseNext(ReleaseOne(s, keys[0]), keys[1..]); }
  }

  lemma ReleaseAges(s: Store<Payload>, keys: seq<nat>)
    ensures Aged(s, Release(s, keys))
  {
    ReleaseUnchanged(s, keys);
    ReleaseNext(s, keys);
    hide Release;
  }

  lemma AcquireAges(s: Store<Payload>, held: multiset<nat>, keys: seq<nat>)
    requires Counted(s, held)
    ensures Aged(s, Acquire(s, keys))
  {
    AcquireRaises(s, keys);
    hide Acquire;
  }

  lemma {:induction false} EvictionAges(cfg: Config, st: State, protect: Option<Key>, disk: Disk)
    requires Wf(cfg, st)
    ensures Aged(st.store, EvictToFit(cfg, st, protect, disk).store)
    decreases |st.entries|
  {
    hide Wf, EvictOldest, Aged;
    if !(st.entries == [] || Bytes(st) <= cfg.capacity || protect == Some(st.entries[0].key)) {
      EvictOldestKeeps(cfg, st, disk);
      SpillStore(cfg, st, disk);
      ReleaseAges(st.store, st.entries[0].checkpoint.blocks);
      var next := EvictOldest(cfg, st, disk);
      EvictionAges(cfg, next, protect, disk);
      AgedTwice(st.store, next.store, EvictToFit(cfg, next, protect, disk).store);
    } else {
      SameAged(st.store);
    }
  }

  lemma SameAged(s: Store<Payload>)
    ensures Aged(s, s)
  {}

  lemma {:induction false} PutAllAges(s: Store<Payload>, payloads: seq<Payload>)
    ensures Aged(s, PutAll(s, payloads))
    decreases |payloads|
  {
    if payloads != [] { PutAllAges(s, payloads[..|payloads| - 1]); }
  }

  lemma LoadAges(cfg: Config, st: State, key: Key, disk: Disk)
    requires Wf(cfg, st) && Find(st.entries, key).None?
    ensures Aged(st.store, LoadSpilled(cfg, st, key, disk).0.store)
  {
    hide Wf, Find, FindFile, EvictToFit, PutAll, Acquire, ToEnd, Without, Aged;
    SameAged(st.store);
    var at := FindFile(st.spilled, key);
    if at.Some? && disk.readable(key) {
      var file := st.spilled[at.value];
      var filled, keys := PutAll(st.store, file.payloads), NewKeys(st.store, |file.payloads|);
      var admitted := Admit(cfg, st.(store := filled), key, Checkpoint(file.covers, keys, file.residentBytes))
                        .(spilled := ToEnd(st.spilled, at.value));
      LoadKeeps(cfg, st, at.value);
      IsCounted(cfg, st);
      PutAllIs(st.store, Held(st.entries), file.payloads);
      PutAllAges(st.store, file.payloads);
      AcquireAges(filled, Held(st.entries), keys);
      AgedTwice(st.store, filled, admitted.store);
      EvictionAges(cfg, admitted, Some(key), disk);
      AgedTwice(st.store, admitted.store, EvictToFit(cfg, admitted, Some(key), disk).store);
    }
  }

  lemma TryAges(cfg: Config, st: State, tokens: seq<nat>, d: nat, m: nat, disk: Disk)
    requires Wf(cfg, st) && cfg.hashing.At(d) <= |tokens| && m <= |tokens|
    ensures Aged(st.store, TryLength(cfg, st, tokens, d, m, disk).0.store)
  {
    hide Wf, Find, LoadSpilled, Hashing.Chain, Hashing.At, SliceTail, Aged;
    SameAged(st.store);
    var link := cfg.hashing.Chain(tokens, d);
    if link in st.index && m in st.index[link]
      && SliceTail(cfg.hashing, tokens, cfg.hashing.At(d), m) == st.index[link][m] {
      var tried := Key(link, st.index[link][m]);
      if Find(st.entries, tried).None? { LoadAges(cfg, st, tried, disk); }
    }
  }

  lemma {:induction false} LengthsAge(cfg: Config, st: State, tokens: seq<nat>, d: nat, m: nat, disk: Disk)
    requires Wf(cfg, st) && cfg.hashing.At(d) <= |tokens| && m <= |tokens| + 1
    ensures Aged(st.store, ScanLengths(cfg, st, tokens, d, m, disk).0.store)
    decreases m
  {
    hide Wf, TryLength, Hashing.At, Aged;
    if m == 0 {
      SameAged(st.store);
    } else {
      TryAges(cfg, st, tokens, d, m - 1, disk);
      var tried := TryLength(cfg, st, tokens, d, m - 1, disk);
      if tried.1.None? {
        LengthsAge(cfg, tried.0, tokens, d, m - 1, disk);
        AgedTwice(st.store, tried.0.store, ScanLengths(cfg, tried.0, tokens, d, m - 1, disk).0.store);
      }
    }
  }

  lemma {:induction false} DepthsAge(cfg: Config, st: State, tokens: seq<nat>, d: nat, disk: Disk)
    requires Wf(cfg, st) && cfg.hashing.At(d) <= |tokens|
    ensures Aged(st.store, ScanDepths(cfg, st, tokens, d, disk).0.store)
    decreases d
  {
    hide Wf, ScanLengths, Hashing.At, Aged;
    LengthsAge(cfg, st, tokens, d, |tokens| + 1, disk);
    var found := ScanLengths(cfg, st, tokens, d, |tokens| + 1, disk);
    if found.1.None? && d > 0 {
      Grows(cfg.hashing, d - 1, d);
      DepthsAge(cfg, found.0, tokens, d - 1, disk);
      AgedTwice(st.store, found.0.store, ScanDepths(cfg, found.0, tokens, d - 1, disk).0.store);
    }
  }

  lemma PutAges(cfg: Config, st: State, tokens: seq<nat>, cp: Checkpoint, disk: Disk)
    requires Wf(cfg, st) && cfg.hashing.blockSize >= 1 && AreTokens(tokens) && cp.covers <= tokens
      && Live(st.store, cp.blocks)
    ensures Aged(st.store, Put(cfg, st, tokens, cp, disk).0.store)
  {
    hide Wf, Find, EvictToFit, Hashing.KeyFor, Acquire, Aged, Listed, ToEnd;
    SameAged(st.store);
    var key := cfg.hashing.KeyFor(tokens, |cp.covers|);
    if cfg.capacity > 0 && cp.covers != [] && Find(st.entries, key).None? {
      PutKeeps(cfg, st, tokens, cp);
      IsCounted(cfg, st);
      AcquireAges(st.store, Held(st.entries), cp.blocks);
      var admitted := Admit(cfg, st, key, cp).(index := Listed(st.index, key, |cp.covers|));
      EvictionAges(cfg, admitted, None, disk);
      AgedTwice(st.store, admitted.store, EvictToFit(cfg, admitted, None, disk).store);
    }
  }

  lemma {:induction false} ReleaseAllAges(s: Store<Payload>, entries: seq<Entry>)
    ensures Aged(s, ReleaseAll(s, entries))
    decreases |entries|
  {
    hide Aged, Release;
    if entries == [] {
      SameAged(s);
    } else {
      var next := Release(s, entries[0].checkpoint.blocks);
      ReleaseAges(s, entries[0].checkpoint.blocks);
      ReleaseAllAges(next, entries[1..]);
      AgedTwice(s, next, ReleaseAll(next, entries[1..]));
    }
  }

  lemma StepAges(cfg: Config, st: State, op: Op)
    requires Wf(cfg, st) && cfg.hashing.blockSize >= 1 && Allowed(st, op)
    ensures Aged(st.store, Step(cfg, st, op).store)
  {
    hide Wf, Put, ScanDepths, ReleaseAll;
    match op
    case StoreBlock(payload) =>
    case PutOp(tokens, cp, disk) => PutAges(cfg, st, tokens, cp, disk);
    case LookupOp(tokens, disk) =>
      if cfg.capacity > 0 { DepthsAge(cfg, st, tokens, cfg.hashing.Depth(|tokens|), disk); }
    case ClearOp(drop) => ReleaseAllAges(st.store, st.entries);
  }

  lemma AgedRemembers(s: Store<Payload>, r: Store<Payload>, memo: Checkpoints.Memo, layers: seq<KVCache.Layer>)
    requires Checkpoints.Remembers(s, memo, layers) && Aged(s, r)
    ensures Checkpoints.Remembers(r, memo, layers)
  {
    hide Checkpoints.HalfOf;
  }

  // ---- whole generations ----------------------------------------------------------------------------------------

  /** What happens during a generation: tokens are sampled, the cache is fed, a checkpoint is tried, and other
      requests use the prefix cache. */
  datatype Event =
    | Observe(ids: seq<nat>)
    | Feed(chunks: seq<seq<KVCache.Token>>)
    | Try(force: bool, disk: Disk)
    | Elsewhere(op: Op)

  // One chunk for every layer, starting the layers if there are none yet.
  predicate Fits(setup: Setup, s: Session, chunks: seq<seq<KVCache.Token>>) {
    (s.layers == [] || |chunks| == |s.layers|) && forall i :: 0 <= i < |chunks| ==> setup.kv.Shaped(chunks[i])
  }

  function Fed(setup: Setup, s: Session, chunks: seq<seq<KVCache.Token>>): Session
    requires setup.kv.Valid() && Fits(setup, s, chunks)
    requires forall i :: 0 <= i < |s.layers| ==> setup.kv.Shaped(s.layers[i].residual)
  {
    s.(layers := seq(|chunks|, i requires 0 <= i < |chunks| =>
                   KVCache.Append(setup.kv, if s.layers == [] then KVCache.EMPTY else s.layers[i], chunks[i])))
  }

  ghost predicate Possible(setup: Setup, st: State, s: Session, e: Event) {
    match e
    case Observe(ids) => AreTokens(ids)
    case Feed(chunks) => Fits(setup, s, chunks)
    case Try(_, _) => true
    case Elsewhere(op) => Allowed(st, op)
  }

  function Next(setup: Setup, st: State, s: Session, e: Event): (State, Session, Outcome)
    requires Wf(setup.cache, st) && SessionOk(setup, st, s) && Possible(setup, st, s, e)
  {
    match e
    case Observe(ids) => (st, s.(tokens := s.tokens + ids), Skipped)
    case Feed(chunks) => (st, Fed(setup, s, chunks), Skipped)
    case Try(force, disk) => Attempt(setup, st, s, force, disk)
    case Elsewhere(op) => (Step(setup.cache, st, op), s, Skipped)
  }

  lemma FedRemembers(setup: Setup, store: Store<Payload>, s: Session, chunks: seq<seq<KVCache.Token>>)
    requires setup.kv.Valid() && Fits(setup, s, chunks) && Checkpoints.Remembers(store, s.memo, s.layers)
    requires forall i :: 0 <= i < |s.layers| ==> setup.kv.Shaped(s.layers[i].residual)
    ensures Checkpoints.Remembers(store, s.memo, Fed(setup, s, chunks).layers)
  {
    hide KVCache.QuantizeBlock, KVCache.Take, Checkpoints.HalfOf;
    var r := Fed(setup, s, chunks);
    forall i, k | 0 <= i < |s.layers| && 0 <= k < |s.layers[i].blocks|
      ensures k < |r.layers[i].blocks| && r.layers[i].blocks[k] == s.layers[i].blocks[k]
    {}
  }

  // Unless it fails, an event leaves what the generation knows of its copies true.
  lemma NextOk(setup: Setup, st: State, s: Session, e: Event)
    requires Wf(setup.cache, st) && SessionOk(setup, st, s) && Possible(setup, st, s, e)
    requires !Next(setup, st, s, e).2.Raised?
    ensures var (r, s', _) := Next(setup, st, s, e); Wf(setup.cache, r) && SessionOk(setup, r, s')
  {
    hide Wf, Checkpoints.Remembers, Step, PutNamed, Find, Hashing.KeyFor, AcquireOrRaise, Live, Aged;
    match e
    case Observe(ids) =>
    case Feed(chunks) => FedRemembers(setup, st.store, s, chunks);
    case Try(force, disk) =>
      if Wanted(setup, s, force) {
        CopiedWf(setup, st, s);
        Checkpoints.CaptureIs(setup.kv, s.layers, st.store, s.memo);
        var held, cp := Copied(setup, st, s), CheckpointOf(setup, st, s);
        PutNamedAges(setup.cache, held, s.tokens, cp, disk);
        AgedRemembers(held.store, Next(setup, st, s, e).0.store, Captured(setup, st, s).2, s.layers);
      }
    case Elsewhere(op) =>
      StepAges(setup.cache, st, op);
      AgedRemembers(st.store, Step(setup.cache, st, op).store, s.memo, s.layers);
  }

  lemma PutNamedAges(cfg: Config, st: State, tokens: seq<nat>, cp: Checkpoint, disk: Disk)
    requires Wf(cfg, st) && cfg.hashing.blockSize >= 1 && AreTokens(tokens) && cp.covers <= tokens
    requires Live(st.store, cp.blocks) || Find(st.entries, cfg.hashing.KeyFor(tokens, |cp.covers|)).Some?
    ensures Aged(st.store, PutNamed(cfg, st, tokens, cp, disk).0.store)
  {
    hide Wf, Put, Find, Hashing.KeyFor;
    if Live(st.store, cp.blocks) { PutAges(cfg, st, tokens, cp, disk); }
  }

  // ---- when the next checkpoint can be taken --------------------------------------------------------------------

  lemma {:induction false} KeyAmong(blocks: seq<(seq<nat>, seq<nat>)>, k: nat)
    ensures k in Checkpoints.KeysOf(blocks) <==> exists i :: 0 <= i < |blocks| && (k in blocks[i].0 || k in blocks[i].1)
    decreases |blocks|
  {
    if blocks != [] {
      var n := |blocks| - 1;
      KeyAmong(blocks[..n], k);
      assert forall i :: 0 <= i < n ==> blocks[..n][i] == blocks[i];
    }
  }

  // A capture's keys are what its memo names.
  lemma MemoIsNamed(setup: Setup, st: State, s: Session, k: nat)
    requires Checkpoints.Fresh(st.store) && Checkpoints.Remembers(st.store, s.memo, s.layers)
    ensures var (snapshot, _, memo) := Captured(setup, st, s);
      k in Checkpoints.KeysOf(snapshot.blocks) <==> exists p :: p in memo && memo[p] == k
  {
    Checkpoints.CaptureIs(setup.kv, s.layers, st.store, s.memo);
    var (snapshot, after, memo) := Captured(setup, st, s);
    hide Checkpoints.Capture, Checkpoints.HalfOf, Checkpoints.KeysOf, Captured;
    KeyAmong(snapshot.blocks, k);
    forall i | 0 <= i < |s.layers|
      ensures k in snapshot.blocks[i].0 ==> exists p :: p in memo && memo[p] == k
      ensures k in snapshot.blocks[i].1 ==> exists p :: p in memo && memo[p] == k
    {
      assert Checkpoints.Names(Checkpoints.Held(after, memo, snapshot.blocks[i].0), i, false, s.layers[i].blocks,
        |s.layers[i].blocks|);
      assert Checkpoints.Names(Checkpoints.Held(after, memo, snapshot.blocks[i].1), i, true, s.layers[i].blocks,
        |s.layers[i].blocks|);
      if k in snapshot.blocks[i].0 {
        var j :| 0 <= j < |snapshot.blocks[i].0| && snapshot.blocks[i].0[j] == k;
        assert memo[Checkpoints.Place(i, false, j)] == k;
      }
      if k in snapshot.blocks[i].1 {
        var j :| 0 <= j < |snapshot.blocks[i].1| && snapshot.blocks[i].1[j] == k;
        assert memo[Checkpoints.Place(i, true, j)] == k;
      }
    }
    forall p | p in memo && memo[p] == k
      ensures k in snapshot.blocks[p.layer].0 || k in snapshot.blocks[p.layer].1
    {
      var taken := snapshot.blocks[p.layer];
      assert Checkpoints.Names(Checkpoints.Held(after, memo, taken.0), p.layer, false, s.layers[p.layer].blocks, |taken.0|);
      assert Checkpoints.Names(Checkpoints.Held(after, memo, taken.1), p.layer, true, s.layers[p.layer].blocks, |taken.1|);
      assert (if p.value then taken.1 else taken.0)[p.index] == k;
    }
  }

  // The last checkpoint evicted takes all its blocks with it.
  lemma NewestFrees(cfg: Config, st: State, disk: Disk, k: nat)
    requires Wf(cfg, st) && |st.entries| == 1 && k in st.entries[0].checkpoint.blocks
    ensures Live(st.store, st.entries[0].checkpoint.blocks) && k !in EvictOldest(cfg, st, disk).store.slots
  {
    EvictedStore(cfg, st, disk);
    hide EvictOldest, Wf;
    assert Held(st.entries) == multiset(st.entries[0].checkpoint.blocks) + Held(st.entries[1..]);
    assert k in multiset(st.entries[0].checkpoint.blocks);
  }

  // What becomes of a kept checkpoint's blocks: all there, or all gone and nothing resident.
  lemma KeptBlocks(cfg: Config, st: State, tokens: seq<nat>, cp: Checkpoint, disk: Disk)
    requires Wf(cfg, st) && cfg.hashing.blockSize >= 1 && AreTokens(tokens) && cp.covers <= tokens
      && Live(st.store, cp.blocks)
    requires Put(cfg, st, tokens, cp, disk).1
    ensures var r := Put(cfg, st, tokens, cp, disk).0;
      if OwnBytes(st.store, cp) <= cfg.capacity then Live(r.store, cp.blocks)
      else r.entries == [] && forall k :: k in cp.blocks ==> k !in r.store.slots
  {
    hide Wf, Find, Hashing.KeyFor, EvictToFit, OnlyNewest, OwnBytes, Acquire, EvictOldest, Bytes, Listed, Live;
    var key := cfg.hashing.KeyFor(tokens, |cp.covers|);
    PutKeeps(cfg, st, tokens, cp);
    var admitted := Admit(cfg, st, key, cp).(index := Listed(st.index, key, |cp.covers|));
    IsCounted(cfg, st);
    AdmittedOwnBytes(st.store, Held(st.entries), cp);
    NewestBytes(cfg, admitted, disk);
    EvictionReaches(cfg, admitted, disk);
    EvictionEnds(cfg, admitted, None, disk);
    var r, alone := EvictToFit(cfg, admitted, None, disk), OnlyNewest(cfg, admitted, disk);
    assert admitted.entries[|admitted.entries| - 1] == Entry(key, cp);
    if OwnBytes(st.store, cp) <= cfg.capacity {
      LastIsLive(cfg, r);
    } else {
      EvictOldestKeeps(cfg, alone, disk);
      forall k | k in cp.blocks ensures k !in r.store.slots { NewestFrees(cfg, alone, disk, k); }
    }
  }

  /** After a checkpoint was kept, the blocks it copied are all still there for the next one exactly when it had
      none or fits within the capacity by itself; otherwise nothing is resident any more. */
  lemma NextNeedsTheLast(setup: Setup, st: State, s: Session, force: bool, disk: Disk)
    requires Wf(setup.cache, st) && SessionOk(setup, st, s) && Attempt(setup, st, s, force, disk).2 == Answered(true)
    ensures LengthOf(s) <= |s.tokens|
    ensures var (r, s', _) := Attempt(setup, st, s, force, disk);
      var cp := CheckpointOf(setup, st, s);
      && (Checkpoints.MemoLive(r.store, s'.memo) <==>
            cp.blocks == [] || OwnBytes(Copied(setup, st, s).store, cp) <= setup.cache.capacity)
      && (OwnBytes(Copied(setup, st, s).store, cp) > setup.cache.capacity ==> r.entries == [])
  {
    hide Wf, Find, Hashing.KeyFor, Checkpoints.Remembers, Put, AcquireOrRaise, OwnBytes;
    CopiedWf(setup, st, s);
    var held, cp, memo := Copied(setup, st, s), CheckpointOf(setup, st, s), Captured(setup, st, s).2;
    KeptBlocks(setup.cache, held, s.tokens, cp, disk);
    var r := Attempt(setup, st, s, force, disk).0;
    hide Attempt, Live;
    forall p | p in memo ensures memo[p] in cp.blocks { MemoIsNamed(setup, st, s, memo[p]); }
    if cp.blocks != [] {
      MemoIsNamed(setup, st, s, cp.blocks[0]);
    }
    AllThere(r.store, cp.blocks);
  }

  lemma AllThere(store: Store<Payload>, keys: seq<nat>)
    ensures Live(store, keys) <==> forall k :: k in keys ==> k in store.slots
  {
    if Live(store, keys) {
      forall k | k in keys ensures k in store.slots {
        var i :| 0 <= i < |keys| && keys[i] == k;
      }
    }
  }

  /** Once that happened every later checkpoint that is wanted fails, as long as nobody else puts anything. */
  lemma EveryLaterOneFails(setup: Setup, st: State, s: Session, e: Event)
    requires Wf(setup.cache, st) && SessionOk(setup, st, s) && Possible(setup, st, s, e) && !e.Elsewhere?
    requires st.entries == [] && !Checkpoints.MemoLive(st.store, s.memo)
    ensures var (r, s', outcome) := Next(setup, st, s, e);
      && (outcome.Raised? <==> e.Try? && Wanted(setup, s, e.force))
      && (!outcome.Raised? ==> r.entries == [] && !Checkpoints.MemoLive(r.store, s'.memo))
  {
    hide Wf, Find, Hashing.KeyFor, Checkpoints.Remembers, PutNamed, AcquireOrRaise, Checkpoints.MemoLive, Wanted;
    NoneFound(setup.cache.hashing.KeyFor(s.tokens, if LengthOf(s) <= |s.tokens| then LengthOf(s) else 0));
    if e.Try? {
      RaisesExactly(setup, st, s, e.force, e.disk);
      hide Attempt;
      if !Wanted(setup, s, e.force) { SkippedIsSame(setup, st, s, e.force, e.disk); }
    }
  }

  lemma SkippedIsSame(setup: Setup, st: State, s: Session, force: bool, disk: Disk)
    requires Wf(setup.cache, st) && SessionOk(setup, st, s) && !Wanted(setup, s, force)
    ensures Attempt(setup, st, s, force, disk) == (st, s, Skipped)
  {}

  // A checkpoint that was kept has no blocks or fits within the capacity by itself.
  predicate FitsAlone(setup: Setup, st: State, s: Session, e: Event)
    requires Wf(setup.cache, st) && SessionOk(setup, st, s)
  {
    e.Try? && Attempt(setup, st, s, e.force, e.disk).2 == Answered(true) ==>
      && LengthOf(s) <= |s.tokens|
      && var cp := CheckpointOf(setup, st, s);
      cp.blocks == [] || OwnBytes(Copied(setup, st, s).store, cp) <= setup.cache.capacity
  }

  // With everything it copied still held a generation does not fail, and everything is held still exactly when
  // what it kept fits by itself.
  lemma StaysAble(setup: Setup, st: State, s: Session, e: Event)
    requires Wf(setup.cache, st) && SessionOk(setup, st, s) && Possible(setup, st, s, e) && !e.Elsewhere?
    requires Checkpoints.MemoLive(st.store, s.memo)
    ensures var (r, s', outcome) := Next(setup, st, s, e);
      !outcome.Raised? && (Checkpoints.MemoLive(r.store, s'.memo) <==> FitsAlone(setup, st, s, e))
  {
    hide Wf, Checkpoints.Remembers, Checkpoints.MemoLive, OwnBytes, Attempt, Wanted;
    if e.Try? {
      RaisesExactly(setup, st, s, e.force, e.disk);
      if Attempt(setup, st, s, e.force, e.disk).2 == Answered(true) {
        NextNeedsTheLast(setup, st, s, e.force, e.disk);
      } else {
        RefusedStaysAble(setup, st, s, e.force, e.disk);
      }
    }
  }

  lemma RefusedStaysAble(setup: Setup, st: State, s: Session, force: bool, disk: Disk)
    requires Wf(setup.cache, st) && SessionOk(setup, st, s) && Checkpoints.MemoLive(st.store, s.memo)
    requires !Attempt(setup, st, s, force, disk).2.Raised? && Attempt(setup, st, s, force, disk).2 != Answered(true)
    ensures var (r, s', _) := Attempt(setup, st, s, force, disk); Checkpoints.MemoLive(r.store, s'.memo)
  {
    hide Wf, Find, Hashing.KeyFor, AcquireOrRaise, EvictToFit, Live, ToEnd;
    if Wanted(setup, s, force) {
      CopiedWf(setup, st, s);
      Checkpoints.CaptureIs(setup.kv, s.layers, st.store, s.memo);
      hide Checkpoints.Capture, Checkpoints.HalfOf, Checkpoints.LayersNamed;
      assert Attempt(setup, st, s, force, disk).0.store == Copied(setup, st, s).store;
    }
  }

  // The state a generation on an empty prefix cache reaches; None once it has failed.
  ghost function Play(setup: Setup, ids: seq<nat>, events: seq<Event>): (r: Option<(State, Session)>)
    requires setup.kv.Valid() && setup.cache.hashing.blockSize >= 1 && AreTokens(ids)
    ensures r.Some? ==> Wf(setup.cache, r.value.0) && SessionOk(setup, r.value.0, r.value.1)
    decreases |events|
  {
    if events == [] then
      Opens(setup, ids);
      Some((INITIAL, Opening(ids)))
    else
      var before, e := Play(setup, ids, events[..|events| - 1]), events[|events| - 1];
      if before.None? || !Possible(setup, before.value.0, before.value.1, e) then None
      else
        var next := Next(setup, before.value.0, before.value.1, e);
        if next.2.Raised? then None
        else
          NextOk(setup, before.value.0, before.value.1, e);
          Some((next.0, next.1))
  }

  // Every event is this generation's own, makes sense when it comes, and what it keeps fits by itself.
  ghost predicate AllFit(setup: Setup, ids: seq<nat>, events: seq<Event>)
    requires setup.kv.Valid() && setup.cache.hashing.blockSize >= 1 && AreTokens(ids)
  {
    forall i :: 0 <= i < |events| ==>
      && !events[i].Elsewhere?
      && var before := Play(setup, ids, events[..i]);
      before.Some? ==>
        && Possible(setup, before.value.0, before.value.1, events[i])
        && FitsAlone(setup, before.value.0, before.value.1, events[i])
  }

  /** A generation each of whose kept checkpoints fits within the capacity by itself never fails. */
  lemma {:induction false} GenerationSurvives(setup: Setup, ids: seq<nat>, events: seq<Event>)
    requires setup.kv.Valid() && setup.cache.hashing.blockSize >= 1 && AreTokens(ids) && AllFit(setup, ids, events)
    ensures var r := Play(setup, ids, events); r.Some? && Checkpoints.MemoLive(r.value.0.store, r.value.1.memo)
    decreases |events|
  {
    hide Wf, SessionOk, Next, Checkpoints.MemoLive, FitsAlone, Possible;
    if events == [] {
      NothingRemembered();
    } else {
      var n := |events| - 1;
      forall i | 0 <= i < n
        ensures !events[..n][i].Elsewhere?
        ensures var before := Play(setup, ids, events[..n][..i]);
          before.Some? ==>
            && Possible(setup, before.value.0, before.value.1, events[..n][i])
            && FitsAlone(setup, before.value.0, before.value.1, events[..n][i])
      {
        assert events[..n][..i] == events[..i];
      }
      GenerationSurvives(setup, ids, events[..n]);
      var before := Play(setup, ids, events[..n]).value;
      StaysAble(setup, before.0, before.1, events[n]);
    }
  }

  lemma NothingRemembered()
    ensures Checkpoints.MemoLive(INITIAL.store, map[])
  {}

  /** The checkpoint that keeps the next one possible: while one that names every copied block is resident, they
      are all held, whatever anybody else does. */
  lemma ResidentKeepsMemo(setup: Setup, st: State, s: Session, i: nat)
    requires Wf(setup.cache, st) && i < |st.entries|
    requires forall p :: p in s.memo ==> s.memo[p] in st.entries[i].checkpoint.blocks
    ensures Checkpoints.MemoLive(st.store, s.memo)
  {
    IsCounted(setup.cache, st);
    ResidentIsLive(st, i);
    AllThere(st.store, st.entries[i].checkpoint.blocks);
  }

  /** A failed checkpoint raises the counts of the blocks named before the missing one, so the counts stop being
      the mentions in resident checkpoints exactly when its first block was there. */
  lemma FailureOvercounts(setup: Setup, st: State, s: Session, force: bool, disk: Disk)
    requires Wf(setup.cache, st) && SessionOk(setup, st, s) && Attempt(setup, st, s, force, disk).2.Raised?
    ensures LengthOf(s) <= |s.tokens| && CheckpointOf(setup, st, s).blocks != []
    ensures var r := Attempt(setup, st, s, force, disk).0;
      Counted(r.store, Held(r.entries)) <==> CheckpointOf(setup, st, s).blocks[0] !in Copied(setup, st, s).store.slots
  {
    hide Wf, Find, Hashing.KeyFor, Checkpoints.Remembers, PutNamed;
    CopiedWf(setup, st, s);
    var held, keys := Copied(setup, st, s), CheckpointOf(setup, st, s).blocks;
    IsCounted(setup.cache, held);
    var n := AcquireRaisesOrStops(held.store, keys);
    var r := Attempt(setup, st, s, force, disk).0;
    hide Attempt, AcquireOrRaise, Acquire;
    if n > 0 {
      assert keys[0] == keys[..n][0] && keys[0] in multiset(keys[..n]);
      assert r.store.slots[keys[0]].refs > Held(r.entries)[keys[0]];
    }
  }

  // ---- a generation that fails ------------------------------------------------------------------------------------

  // A generation about to start on these tokens.
  function Opening(ids: seq<nat>): Session {
    Session(ids, [], map[], {}, 0)
  }

  lemma FirstChunk(setup: Setup, chunk: seq<KVCache.Token>)
    requires setup.kv.Valid() && setup.kv.Shaped(chunk)
    ensures var l := KVCache.Append(setup.kv, KVCache.EMPTY, chunk);
      && KVCache.Length(l) == |chunk| && (|chunk| >= setup.kv.residualLength + setup.kv.groupSize ==> l.blocks != [])
  {
    hide KVCache.Append, KVCache.Holds;
    KVCache.NothingHeld(setup.kv);
    KVCache.AppendHolds(setup.kv, KVCache.EMPTY, [], 0, chunk);
    assert [] + chunk == chunk;
    CacheRollback.HoldsLength(setup.kv, KVCache.Append(setup.kv, KVCache.EMPTY, chunk), chunk,
      KVCache.Take(setup.kv, |chunk|));
    hide KVCache.Take;
  }

  lemma SecondChunk(setup: Setup, a: seq<KVCache.Token>, b: seq<KVCache.Token>)
    requires setup.kv.Valid() && setup.kv.Shaped(a) && setup.kv.Shaped(b)
    ensures KVCache.Length(KVCache.Append(setup.kv, KVCache.Append(setup.kv, KVCache.EMPTY, a), b)) == |a| + |b|
  {
    hide KVCache.Append, KVCache.Holds;
    var cfg := setup.kv;
    KVCache.NothingHeld(cfg);
    KVCache.AppendHolds(cfg, KVCache.EMPTY, [], 0, a);
    assert [] + a == a;
    var l, q := KVCache.Append(cfg, KVCache.EMPTY, a), KVCache.Take(cfg, |a|);
    KVCache.AppendHolds(cfg, l, a, q, b);
    CacheRollback.HoldsLength(cfg, KVCache.Append(cfg, l, b), a + b, q + KVCache.Take(cfg, |a| + |b| - q));
  }

  lemma Opens(setup: Setup, ids: seq<nat>)
    requires setup.kv.Valid() && setup.cache.hashing.blockSize >= 1 && AreTokens(ids)
    ensures Wf(setup.cache, INITIAL) && SessionOk(setup, INITIAL, Opening(ids))
  {
    assert Held([]) == multiset{};
  }

  // The first checkpoint, of a cache with some block, under a capacity its window alone exceeds.
  lemma FirstIsKeptAndGone(setup: Setup, s: Session, disk: Disk)
    requires Wf(setup.cache, INITIAL) && SessionOk(setup, INITIAL, s) && s.memo == map[] && s.tried == {}
    requires |s.layers| == 1 && s.layers[0].blocks != [] && 0 < LengthOf(s) <= |s.tokens|
    requires 0 < setup.cache.capacity < setup.bytesOf(s.layers[0].residual)
    ensures var (r, s', outcome) := Attempt(setup, INITIAL, s, true, disk);
      && outcome == Answered(true) && r.entries == [] && !Checkpoints.MemoLive(r.store, s'.memo)
      && s'.tried == {LengthOf(s)} && s'.layers == s.layers && s'.tokens == s.tokens
  {
    hide Wf, Hashing.KeyFor, Checkpoints.Remembers, EvictToFit, AcquireOrRaise, Checkpoints.HoldLayers, Acquire;
    CopiedWf(setup, INITIAL, s);
    RaisesExactly(setup, INITIAL, s, true, disk);
    Checkpoints.CaptureIsLive(setup.kv, s.layers, INITIAL.store, s.memo);
    NoneFound(setup.cache.hashing.KeyFor(s.tokens, LengthOf(s)));
    var cp, snapshot := CheckpointOf(setup, INITIAL, s), Captured(setup, INITIAL, s).0;
    assert Attempt(setup, INITIAL, s, true, disk).2 == Answered(true);
    NextNeedsTheLast(setup, INITIAL, s, true, disk);
    HasKeys(setup, INITIAL, s);
    assert snapshot.residual == [s.layers[0].residual];
    OneWindow(setup, s.layers[0].residual);
    hide Attempt;
  }

  lemma OneWindow(setup: Setup, window: seq<KVCache.Token>)
    ensures WindowBytes(setup, [window]) == setup.bytesOf(window)
  {
    assert [window][..0] == [];
  }

  lemma HasKeys(setup: Setup, st: State, s: Session)
    requires Checkpoints.Fresh(st.store) && Checkpoints.Remembers(st.store, s.memo, s.layers)
    requires |s.layers| == 1 && s.layers[0].blocks != []
    ensures Checkpoints.KeysOf(Captured(setup, st, s).0.blocks) != []
  {
    Checkpoints.CaptureIs(setup.kv, s.layers, st.store, s.memo);
    var (snapshot, after, memo) := Captured(setup, st, s);
    hide Checkpoints.Capture, Captured;
    assert Checkpoints.Names(Checkpoints.Held(after, memo, snapshot.blocks[0].0), 0, false, s.layers[0].blocks,
      |s.layers[0].blocks|);
    KeyAmong(snapshot.blocks, snapshot.blocks[0].0[0]);
  }

  /** A generation whose first checkpoint is larger than the whole capacity fails at its second: the first is
      kept, evicted at once and freed, and the second names what it copied. */
  lemma SecondCheckpointFails(setup: Setup, ids: seq<nat>, a: seq<KVCache.Token>, b: seq<KVCache.Token>, disk: Disk)
    requires setup.kv.Valid() && setup.cache.hashing.blockSize >= 1 && AreTokens(ids)
    requires setup.kv.Shaped(a) && setup.kv.Shaped(b) && b != [] && |a| + |b| <= |ids|
    requires |a| >= setup.kv.residualLength + setup.kv.groupSize
    requires 0 < setup.cache.capacity < setup.bytesOf(KVCache.Append(setup.kv, KVCache.EMPTY, a).residual)
    ensures Wf(setup.cache, INITIAL) && SessionOk(setup, INITIAL, Opening(ids)) && Fits(setup, Opening(ids), [a])
    ensures var s := Fed(setup, Opening(ids), [a]);
      && SessionOk(setup, INITIAL, s)
      && var (r, s', first) := Attempt(setup, INITIAL, s, true, disk);
      && first == Answered(true) && Wf(setup.cache, r) && SessionOk(setup, r, s') && Fits(setup, s', [b])
      && SessionOk(setup, r, Fed(setup, s', [b]))
      && Attempt(setup, r, Fed(setup, s', [b]), true, disk).2 == Raised
  {
    hide Wf, Attempt, KVCache.Append, Checkpoints.Remembers, Checkpoints.MemoLive;
    Opens(setup, ids);
    NextOk(setup, INITIAL, Opening(ids), Feed([a]));
    var s := Fed(setup, Opening(ids), [a]);
    FirstChunk(setup, a);
    FirstIsKeptAndGone(setup, s, disk);
    var (r, s', _) := Attempt(setup, INITIAL, s, true, disk);
    NextOk(setup, INITIAL, s, Try(true, disk));
    NextOk(setup, r, s', Feed([b]));
    SecondChunk(setup, a, b);
    EveryLaterOneFails(setup, r, Fed(setup, s', [b]), Try(true, disk));
  }
}
