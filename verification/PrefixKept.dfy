// When a checkpoint that `put` says it kept is still there once room has been made for it.
module PrefixKept {
  import opened Options
  import opened HostCopies
  import opened BlockStore
  import opened PrefixHash
  import opened PrefixCache
  import opened PrefixLookup
  import opened PrefixHistory

  // The blocks that stay when everything else resident goes: the checkpoint's own, and those nobody holds.
  function Staying(slots: map<nat, Slot<Payload>>, blocks: seq<nat>): map<nat, Slot<Payload>> {
    map k | k in slots && (k in blocks || slots[k].refs == 0) :: slots[k]
  }

  // What a checkpoint takes up by itself.
  function OwnBytes(store: Store<Payload>, cp: Checkpoint): nat {
    SizeBelow(Staying(store.slots, cp.blocks), store.next) + cp.residentBytes
  }

  // Evict all but the newest.
  function OnlyNewest(cfg: Config, st: State, disk: Disk): (r: State)
    requires Wf(cfg, st)
    ensures Wf(cfg, r)
    decreases |st.entries|
  {
    if |st.entries| <= 1 then st
    else
      EvictOldestKeeps(cfg, st, disk);
      OnlyNewest(cfg, EvictOldest(cfg, st, disk), disk)
  }

  // ---- bytes -------------------------------------------------------------------------------------------------

  lemma EvictedStore(cfg: Config, st: State, disk: Disk)
    requires Wf(cfg, st) && st.entries != []
    ensures Live(st.store, st.entries[0].checkpoint.blocks)
    ensures var r := EvictOldest(cfg, st, disk);
      && Lowered(st.store, r.store, st.entries[0].checkpoint.blocks)
      && Counted(st.store, Held(st.entries)) && Counted(r.store, Held(st.entries[1..])) && r.entries == st.entries[1..]
  {
    EvictOldestKeeps(cfg, st, disk);
    var keys := st.entries[0].checkpoint.blocks;
    assert Held(st.entries) == multiset(keys) + Held(st.entries[1..]);
    ReleaseLowers(st.store, keys);
    SpillStore(cfg, st, disk);
    hide Spill, Release, Forget, Held, Named, NamesOnly, FindFile, FileBytes;
  }

  lemma SpillStore(cfg: Config, st: State, disk: Disk)
    requires st.entries != [] && Live(st.store, st.entries[0].checkpoint.blocks)
    ensures EvictOldest(cfg, st, disk).store == Release(st.store, st.entries[0].checkpoint.blocks)
  {
    hide Release, Forget, Trim;
  }

  // Fewer slots of the same sizes take up less.
  lemma {:induction false} FewerBytes(a: map<nat, Slot<Payload>>, b: map<nat, Slot<Payload>>, n: nat)
    requires forall k :: k in a ==> k in b && a[k].size == b[k].size
    ensures SizeBelow(a, n) <= SizeBelow(b, n)
    decreases n
  {
    if n > 0 { FewerBytes(a, b, n - 1); }
  }

  lemma EvictionShrinks(cfg: Config, st: State, disk: Disk)
    requires Wf(cfg, st) && st.entries != []
    ensures Live(st.store, st.entries[0].checkpoint.blocks) && Bytes(EvictOldest(cfg, st, disk)) <= Bytes(st)
  {
    EvictedStore(cfg, st, disk);
    FewerBytes(EvictOldest(cfg, st, disk).store.slots, st.store.slots, st.store.next);
    hide EvictOldest, Wf, Held;
  }

  lemma {:induction false} OnlyNewestShrinks(cfg: Config, st: State, disk: Disk)
    requires Wf(cfg, st)
    ensures Bytes(OnlyNewest(cfg, st, disk)) <= Bytes(st)
    decreases |st.entries|
  {
    hide Wf, EvictOldest, Bytes;
    if |st.entries| > 1 {
      EvictOldestKeeps(cfg, st, disk);
      EvictionShrinks(cfg, st, disk);
      OnlyNewestShrinks(cfg, EvictOldest(cfg, st, disk), disk);
    }
  }

  // A slot is left when it is the newest checkpoint's own or nobody's.
  lemma {:induction false} OnlyNewestSlots(cfg: Config, st: State, disk: Disk, k: nat)
    requires Wf(cfg, st) && st.entries != []
    ensures var r, e := OnlyNewest(cfg, st, disk), st.entries[|st.entries| - 1];
      && r.entries == [e] && r.store.next == st.store.next
      && (k in r.store.slots <==> k in st.store.slots && (k in e.checkpoint.blocks || st.store.slots[k].refs == 0))
      && (k in r.store.slots ==> r.store.slots[k].size == st.store.slots[k].size)
    decreases |st.entries|
  {
    hide Wf, EvictOldest;
    if |st.entries| > 1 {
      EvictOldestKeeps(cfg, st, disk);
      EvictedStore(cfg, st, disk);
      var next := EvictOldest(cfg, st, disk);
      OnlyNewestSlots(cfg, next, disk, k);
      var e := st.entries[|st.entries| - 1];
      if k in st.store.slots && k in e.checkpoint.blocks {
        HeldAt(next.entries, |next.entries| - 1);
        assert k in multiset(e.checkpoint.blocks);
      }
    } else {
      assert st.entries == [st.entries[0]];
      OneHeld(cfg, st, k);
    }
  }

  lemma OneHeld(cfg: Config, st: State, k: nat)
    requires Wf(cfg, st) && |st.entries| == 1
    ensures k in st.store.slots ==> k in st.entries[0].checkpoint.blocks || st.store.slots[k].refs == 0
  {
    assert Held(st.entries) == multiset(st.entries[0].checkpoint.blocks) + Held(st.entries[1..]);
    assert k in multiset(st.entries[0].checkpoint.blocks) ==> k in st.entries[0].checkpoint.blocks;
  }

  lemma NewestBytes(cfg: Config, st: State, disk: Disk)
    requires Wf(cfg, st) && st.entries != []
    ensures var r, e := OnlyNewest(cfg, st, disk), st.entries[|st.entries| - 1];
      r.entries == [e] && Bytes(r) == OwnBytes(st.store, e.checkpoint)
  {
    hide OnlyNewest, Held;
    var r, e := OnlyNewest(cfg, st, disk), st.entries[|st.entries| - 1];
    forall k: nat
      ensures k in r.store.slots <==> k in Staying(st.store.slots, e.checkpoint.blocks)
      ensures k in r.store.slots ==> r.store.slots[k].size == Staying(st.store.slots, e.checkpoint.blocks)[k].size
    {
      OnlyNewestSlots(cfg, st, disk, k);
    }
    OnlyNewestSlots(cfg, st, disk, 0);
    SameSizes(r.store.slots, Staying(st.store.slots, e.checkpoint.blocks), st.store.next);
    assert ResidentBytes([e]) == e.checkpoint.residentBytes;
    assert r.store.bytes == SizeBelow(r.store.slots, r.store.next);
  }

  // ---- the eviction that makes room -----------------------------------------------------------------------------

  // Evictions reach the newest entry, and take it, exactly when it does not fit by itself.
  lemma {:induction false} EvictionReaches(cfg: Config, st: State, disk: Disk)
    requires Wf(cfg, st) && st.entries != []
    ensures var alone := OnlyNewest(cfg, st, disk);
      && (Bytes(alone) <= cfg.capacity ==> EvictToFit(cfg, st, None, disk).entries != [])
      && (Bytes(alone) > cfg.capacity ==>
            alone.entries != [] && Live(alone.store, alone.entries[0].checkpoint.blocks)
            && EvictToFit(cfg, st, None, disk) == EvictOldest(cfg, alone, disk))
    decreases |st.entries|
  {
    hide Wf, EvictOldest, Bytes;
    EvictOldestKeeps(cfg, st, disk);
    OnlyNewestShrinks(cfg, st, disk);
    if |st.entries| > 1 {
      if Bytes(st) > cfg.capacity { EvictionReaches(cfg, EvictOldest(cfg, st, disk), disk); }
    }
  }

  // Storage takes it: it is there already, or its file is written and fits.
  predicate Filed(cfg: Config, files: seq<OnDisk>, key: Key, disk: Disk) {
    || FindFile(files, key).Some?
    || (cfg.hasSpillDir && cfg.spillCapacity > 0 && disk.written(key).Some? && disk.written(key).value <= cfg.spillCapacity)
  }

  lemma {:induction false} TrimDropsAll(cfg: Config, files: seq<OnDisk>, last: OnDisk, bytes: int)
    requires last.size > cfg.spillCapacity && bytes == FileBytes(files) + last.size
    ensures Trim(cfg, files + [last], bytes).0 == []
    decreases |files|
  {
    if files != [] {
      assert (files + [last])[1..] == files[1..] + [last];
      TrimDropsAll(cfg, files[1..], last, bytes - files[0].size);
    }
  }

  lemma SpilledExactly(cfg: Config, st: State, e: Entry, disk: Disk)
    requires Live(st.store, e.checkpoint.blocks) && st.spilledBytes == FileBytes(st.spilled)
    ensures FindFile(Spill(cfg, st, e, disk).spilled, e.key).Some? <==> Filed(cfg, st.spilled, e.key, disk)
  {
    hide FindFile, Trim, FileBytes;
    var at := FindFile(st.spilled, e.key);
    if cfg.hasSpillDir && cfg.spillCapacity > 0 {
      if at.Some? {
        MovedFile(st.spilled, at.value, e.key);
      } else if disk.written(e.key).Some? {
        var file := OnDisk(e.key, disk.written(e.key).value, e.checkpoint.covers,
                           Payloads(st.store, e.checkpoint.blocks), e.checkpoint.residentBytes);
        if file.size <= cfg.spillCapacity {
          TrimLeavesLast(cfg, st.spilled, file, st.spilledBytes + file.size);
        } else {
          TrimDropsAll(cfg, st.spilled, file, st.spilledBytes + file.size);
          NoneFound(e.key);
        }
      }
    }
  }

  lemma EvictedIsFiled(cfg: Config, st: State, disk: Disk)
    requires Wf(cfg, st) && |st.entries| == 1 && Live(st.store, st.entries[0].checkpoint.blocks)
    ensures var r := EvictOldest(cfg, st, disk);
      r.entries == [] && (FindFile(r.spilled, st.entries[0].key).Some? <==> Filed(cfg, st.spilled, st.entries[0].key, disk))
  {
    hide FindFile, Forget, Release, Counted, Held, NamesOnly, Named;
    SpillKeeps(cfg, st.(entries := st.entries[1..]), st.entries[0], disk);
    SpilledExactly(cfg, st.(entries := st.entries[1..]), st.entries[0], disk);
    hide Spill, FilesWf;
  }

  // Evicting the others files no other name.
  lemma {:induction false} OthersFileTheirOwn(cfg: Config, st: State, disk: Disk)
    requires Wf(cfg, st) && st.entries != []
    requires FindFile(st.spilled, st.entries[|st.entries| - 1].key).None?
    ensures FindFile(OnlyNewest(cfg, st, disk).spilled, st.entries[|st.entries| - 1].key).None?
    decreases |st.entries|
  {
    hide FindFile, Wf, EvictOldest;
    if |st.entries| > 1 {
      EvictOldestKeeps(cfg, st, disk);
      var key, next := st.entries[|st.entries| - 1].key, EvictOldest(cfg, st, disk);
      FilesAmong(cfg, st, disk, key);
      OthersFileTheirOwn(cfg, next, disk);
    }
  }

  lemma FilesAmong(cfg: Config, st: State, disk: Disk, key: Key)
    requires Wf(cfg, st) && |st.entries| > 1 && Live(st.store, st.entries[0].checkpoint.blocks)
    requires key == st.entries[|st.entries| - 1].key && FindFile(st.spilled, key).None?
    ensures FindFile(EvictOldest(cfg, st, disk).spilled, key).None?
  {
    hide FindFile, Forget, Release, Counted, Held, NamesOnly, Named, Trim;
    assert st.entries[0].key != key;
    var spilled := Spill(cfg, st.(entries := st.entries[1..]), st.entries[0], disk).spilled;
    if FindFile(spilled, key).Some? {
      TrimSubset(cfg, st, st.entries[0], disk, FindFile(spilled, key).value);
    }
  }

  // ---- kept and stored --------------------------------------------------------------------------------------------

  lemma AdmittedOwnBytes(store: Store<Payload>, held: multiset<nat>, cp: Checkpoint)
    requires Counted(store, held) && Live(store, cp.blocks)
    ensures OwnBytes(Acquire(store, cp.blocks), cp) == OwnBytes(store, cp)
  {
    AcquireRaises(store, cp.blocks);
    var a, b := Staying(store.slots, cp.blocks), Staying(Acquire(store, cp.blocks).slots, cp.blocks);
    forall k: nat ensures (k in a <==> k in b) && (k in a ==> a[k].size == b[k].size) {
      assert k in cp.blocks <==> k in multiset(cp.blocks);
    }
    SameSizes(a, b, store.next);
  }

  lemma LastEntry(entries: seq<Entry>, suffix: seq<Entry>, key: Key)
    requires DistinctEntries(entries) && entries != [] && entries[|entries| - 1].key == key
    requires |suffix| <= |entries| && suffix == entries[|entries| - |suffix|..]
    ensures Find(suffix, key).Some? <==> suffix != []
  {
    hide Find;
    if suffix != [] { assert suffix[|suffix| - 1].key == key; }
  }

  /** A checkpoint `put` kept is resident afterwards exactly when it fits within the capacity by itself, beside
      blocks nobody holds, and is stored exactly when it is resident or storage took it: it was on disk still
      when its turn came, or its file was written and fits the spill cap. A name that was not on disk before
      has no file of its own when its turn comes. */
  lemma KeptIsStoredExactly(cfg: Config, st: State, tokens: seq<nat>, cp: Checkpoint, disk: Disk)
    requires Wf(cfg, st) && cfg.hashing.blockSize >= 1 && AreTokens(tokens) && cp.covers <= tokens
      && Live(st.store, cp.blocks)
    requires Put(cfg, st, tokens, cp, disk).1
    ensures var key := cfg.hashing.KeyFor(tokens, |cp.covers|);
      Wf(cfg, Admit(cfg, st, key, cp).(index := Listed(st.index, key, |cp.covers|)))
    ensures var r, key := Put(cfg, st, tokens, cp, disk).0, cfg.hashing.KeyFor(tokens, |cp.covers|);
      var files := OnlyNewest(cfg, Admit(cfg, st, key, cp).(index := Listed(st.index, key, |cp.covers|)), disk).spilled;
      && (Find(r.entries, key).Some? <==> OwnBytes(st.store, cp) <= cfg.capacity)
      && (Stored(r, key) <==> OwnBytes(st.store, cp) <= cfg.capacity || Filed(cfg, files, key, disk))
      && (FindFile(st.spilled, key).None? ==> FindFile(files, key).None?)
  {
    hide Wf, Find, FindFile, Hashing.KeyFor, EvictToFit, OnlyNewest, OwnBytes, Acquire, EvictOldest, Filed, Bytes, Listed;
    var key := cfg.hashing.KeyFor(tokens, |cp.covers|);
    PutKeeps(cfg, st, tokens, cp);
    var admitted := Admit(cfg, st, key, cp).(index := Listed(st.index, key, |cp.covers|));
    var alone, r := OnlyNewest(cfg, admitted, disk), EvictToFit(cfg, admitted, None, disk);
    IsCounted(cfg, st);
    AdmittedOwnBytes(st.store, Held(st.entries), cp);
    NewestBytes(cfg, admitted, disk);
    EvictionReaches(cfg, admitted, disk);
    EvictionEnds(cfg, admitted, None, disk);
    IsCounted(cfg, admitted);
    LastEntry(admitted.entries, r.entries, key);
    if FindFile(st.spilled, key).None? { OthersFileTheirOwn(cfg, admitted, disk); }
    if OwnBytes(st.store, cp) > cfg.capacity { EvictedIsFiled(cfg, alone, disk); }
  }

  lemma IsCounted(cfg: Config, st: State)
    requires Wf(cfg, st)
    ensures Counted(st.store, Held(st.entries)) && DistinctEntries(st.entries)
  {}

  /** With no storage to fall back on, a checkpoint larger than the whole capacity is said to be kept and is
      nowhere. */
  lemma KeptButGone(cfg: Config, tokens: seq<nat>, disk: Disk)
    requires cfg.capacity > 0 && !cfg.hasSpillDir && cfg.hashing.blockSize >= 1 && AreTokens(tokens) && tokens != []
    ensures Wf(cfg, INITIAL)
    ensures var cp := Checkpoint(tokens, [], cfg.capacity + 1);
      var (r, kept) := Put(cfg, INITIAL, tokens, cp, disk);
      kept && !Stored(r, cfg.hashing.KeyFor(tokens, |tokens|))
  {
    hide Hashing.KeyFor;
    assert Held([]) == multiset{};
    var cp := Checkpoint(tokens, [], cfg.capacity + 1);
    var key := cfg.hashing.KeyFor(tokens, |tokens|);
    NoneFound(key);
    KeptIsStoredExactly(cfg, INITIAL, tokens, cp, disk);
    assert OwnBytes(INITIAL.store, cp) > cfg.capacity;
  }
}
