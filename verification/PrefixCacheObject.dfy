// The prefix cache as the object it is: dictionaries, counters and recency order updated in place.
module PrefixCacheObject {
  import opened Options
  import opened HostCopies
  import opened BlockStore
  import opened PrefixHash
  import opened PrefixCache

  class Cache {
    const cfg: Config
    var store: Store<Payload>
    var entries: seq<Entry>
    var index: map<Digest, map<nat, Digest>>
    var spilled: seq<OnDisk>
    var spilledBytes: int

    function St(): State
      reads this
    {
      State(store, entries, index, spilled, spilledBytes)
    }

    constructor (cfg: Config)
      requires cfg.hashing.blockSize >= 1
      ensures this.cfg == cfg && St() == INITIAL && Wf(cfg, St())
    {
      this.cfg := cfg;
      store, entries, index, spilled, spilledBytes := BlockStore.Empty(), [], map[], [], 0;
      new;
      assert Held([]) == multiset{};
    }

    // Write an evicted checkpoint to storage and drop the oldest files until the rest fit.
    method Spill(e: Entry, disk: Disk)
      requires Live(store, e.checkpoint.blocks)
      modifies this`spilled, this`spilledBytes
      ensures St() == PrefixCache.Spill(cfg, old(St()), e, disk)
    {
      if !cfg.hasSpillDir || cfg.spillCapacity == 0 {
        return;
      }
      var at := FindFile(spilled, e.key);
      if at.Some? {
        spilled := ToEnd(spilled, at.value);
        return;
      }
      var size := disk.written(e.key);
      if size.None? {
        return;
      }
      spilled := spilled + [OnDisk(e.key, size.value, e.checkpoint.covers, Payloads(store, e.checkpoint.blocks),
                                   e.checkpoint.residentBytes)];
      spilledBytes := spilledBytes + size.value;
      ghost var goal := Trim(cfg, spilled, spilledBytes);
      while spilled != [] && spilledBytes > cfg.spillCapacity
        invariant Trim(cfg, spilled, spilledBytes) == goal
        decreases |spilled|
      {
        spilledBytes, spilled := spilledBytes - spilled[0].size, spilled[1..];
      }
    }

    // Pop checkpoints, oldest first, until the rest fit or the protected one is next.
    method EvictToFit(protect: Option<Key>, disk: Disk)
      requires Wf(cfg, St())
      modifies this
      ensures St() == PrefixCache.EvictToFit(cfg, old(St()), protect, disk)
    {
      hide Wf, PrefixCache.Spill, Release, Forget, FindFile;
      ghost var goal := PrefixCache.EvictToFit(cfg, St(), protect, disk);
      while entries != [] && Bytes(St()) > cfg.capacity
        invariant Wf(cfg, St()) && PrefixCache.EvictToFit(cfg, St(), protect, disk) == goal
        decreases |entries|
      {
        var e := entries[0];
        if protect == Some(e.key) {
          break;
        }
        EvictOldestKeeps(cfg, St(), disk);
        ghost var next := EvictOldest(cfg, St(), disk);
        entries := entries[1..];
        Spill(e, disk);
        store := Release(store, e.checkpoint.blocks);
        if FindFile(spilled, e.key).None? {
          index := Forget(index, e.key, |e.checkpoint.covers|);
        }
        assert St() == next;
      }
    }

    /** Store a checkpoint under the tokens it covers; says whether its name was new. */
    method Put(tokens: seq<nat>, cp: Checkpoint, disk: Disk) returns (kept: bool)
      requires Wf(cfg, St()) && cfg.hashing.blockSize >= 1
      requires AreTokens(tokens) && cp.covers <= tokens && Live(store, cp.blocks)
      modifies this
      ensures (St(), kept) == PrefixCache.Put(cfg, old(St()), tokens, cp, disk) && Wf(cfg, St())
    {
      hide Wf, Find, PrefixCache.EvictToFit, Hashing.KeyFor, Acquire;
      if cfg.capacity == 0 || cp.covers == [] {
        return false;
      }
      var key := cfg.hashing.KeyFor(tokens, |cp.covers|);
      var at := Find(entries, key);
      if at.Some? {
        entries := ToEnd(entries, at.value);
        return false;
      }
      PutKeeps(cfg, St(), tokens, cp);
      store := Acquire(store, cp.blocks);
      entries := entries + [Entry(key, cp)];
      index := Listed(index, key, |cp.covers|);
      EvictToFit(None, disk);
      return true;
    }

    // Bring a spilled checkpoint back, holding on to it while others make room.
    method LoadSpilled(key: Key, disk: Disk) returns (cp: Option<Checkpoint>)
      requires Wf(cfg, St()) && Find(entries, key).None?
      modifies this
      ensures (St(), cp) == PrefixCache.LoadSpilled(cfg, old(St()), key, disk) && Wf(cfg, St())
    {
      hide Wf, Find, FindFile, PrefixCache.EvictToFit, PutAll, Acquire;
      var at := FindFile(spilled, key);
      if at.None? {
        return None;
      }
      var file := spilled[at.value];
      if !disk.readable(key) {
        spilled, spilledBytes := Without(spilled, at.value), spilledBytes - file.size;
        return None;
      }
      LoadKeeps(cfg, St(), at.value);
      var keys := NewKeys(store, |file.payloads|);
      store := Acquire(PutAll(store, file.payloads), keys);
      var loaded := Checkpoint(file.covers, keys, file.residentBytes);
      entries := entries + [Entry(key, loaded)];
      spilled := ToEnd(spilled, at.value);
      EvictToFit(Some(key), disk);
      return Some(loaded);
    }

    method TryLength(tokens: seq<nat>, link: Digest, d: nat, n: nat, disk: Disk) returns (cp: Option<Checkpoint>)
      requires Wf(cfg, St()) && cfg.hashing.At(d) <= |tokens| && n <= |tokens| && link == cfg.hashing.Chain(tokens, d)
      modifies this
      ensures (St(), cp) == PrefixCache.TryLength(cfg, old(St()), tokens, d, n, disk) && Wf(cfg, St())
    {
      hide Wf, Find, PrefixCache.LoadSpilled, Hashing.Chain, Hashing.At, SliceTail;
      if link !in index || n !in index[link] || SliceTail(cfg.hashing, tokens, cfg.hashing.At(d), n) != index[link][n] {
        return None;
      }
      var key := Key(link, index[link][n]);
      var at := Find(entries, key);
      if at.Some? {
        cp := Some(entries[at.value].checkpoint);
      } else {
        cp := LoadSpilled(key, disk);
      }
      if cp.None? || |cp.value.covers| != n {
        return None;
      }
      at := Find(entries, key);
      if at.Some? {
        entries := ToEnd(entries, at.value);
      }
    }

    /** The longest stored prefix: the deepest link first, and at one link the longest tail first. */
    method Lookup(tokens: seq<nat>, disk: Disk) returns (m: Option<Match>)
      requires Wf(cfg, St()) && cfg.hashing.blockSize >= 1
      modifies this
      ensures (St(), m) == PrefixCache.Lookup(cfg, old(St()), tokens, disk) && Wf(cfg, St())
    {
      hide Wf, PrefixCache.TryLength, Hashing.Chain, Hashing.At, Hashing.Depth;
      if cfg.capacity == 0 {
        return None;
      }
      ghost var goal := PrefixCache.Lookup(cfg, St(), tokens, disk);
      var hashes := ChainHashes(cfg.hashing, tokens);
      var d := |hashes| - 1;
      while true
        invariant 0 <= d < |hashes| && Wf(cfg, St()) && cfg.hashing.At(d) <= |tokens|
        invariant ScanDepths(cfg, St(), tokens, d, disk) == goal
        decreases d
      {
        var n := |tokens| + 1;
        ghost var before := St();
        while n > 0
          invariant 0 <= n <= |tokens| + 1 && Wf(cfg, St())
          invariant ScanLengths(cfg, St(), tokens, d, n, disk) == ScanLengths(cfg, before, tokens, d, |tokens| + 1, disk)
          decreases n
        {
          n := n - 1;
          var cp := TryLength(tokens, hashes[d], d, n, disk);
          if cp.Some? {
            return Some(Match(n, d, cp.value));
          }
        }
        if d == 0 {
          return None;
        }
        Grows(cfg.hashing, d - 1, d);
        d := d - 1;
      }
    }

    method Clear(dropSpilled: bool)
      requires Wf(cfg, St())
      modifies this
      ensures St() == PrefixCache.Clear(cfg, old(St()), dropSpilled) && Wf(cfg, St())
    {
      hide Wf, Release;
      ClearKeeps(cfg, St(), dropSpilled);
      var i := 0;
      ghost var goal := ReleaseAll(store, entries);
      assert entries[0..] == entries;
      while i < |entries|
        invariant 0 <= i <= |entries| && ReleaseAll(store, entries[i..]) == goal
        invariant St() == old(St()).(store := store)
      {
        assert entries[i..][1..] == entries[i + 1..];
        store := Release(store, entries[i].checkpoint.blocks);
        i := i + 1;
      }
      entries := [];
      if dropSpilled && cfg.hasSpillDir {
        spilled, spilledBytes := [], 0;
      }
    }
  }
}
