// What the prefix cache returns: the right checkpoint, the longest one the index leads to, and the
// payloads that were stored. The index may list a prefix whose checkpoint is gone or on disk; a lookup
// tries the lengths downwards and reads back what it can.
module PrefixLookup {
  import opened Options
  import opened HostCopies
  import opened BlockStore
  import opened PrefixHash
  import opened PrefixCache

  // ---- what a lookup returns -------------------------------------------------------------------------------------

  // A length hangs only off the link of its own depth, and a confirmed tail makes the whole name.
  lemma ConfirmedName(cfg: Config, st: State, tokens: seq<nat>, d: nat, n: nat)
    requires Wf(cfg, st) && cfg.hashing.Ideal() && AreTokens(tokens) && cfg.hashing.At(d) <= |tokens| && n <= |tokens|
    requires var link := cfg.hashing.Chain(tokens, d); link in st.index && n in st.index[link]
    ensures 0 < n && d == cfg.hashing.Depth(n) && cfg.hashing.At(d) <= n
    ensures var link := cfg.hashing.Chain(tokens, d);
      SliceTail(cfg.hashing, tokens, cfg.hashing.At(d), n) == st.index[link][n]
      ==> Key(link, st.index[link][n]) == cfg.hashing.KeyFor(tokens, n)
  {
    hide Hashing.At, Hashing.Chain, Counted, Held, Hashing.Ideal, Hashing.Depth;
    var link := cfg.hashing.Chain(tokens, d);
    assert Named(cfg, link, n, st.index[link][n]);
    var covers :| |covers| == n && NamesOnly(cfg, Key(link, st.index[link][n]), covers);
    ChainInjective(cfg.hashing, tokens, d, covers, cfg.hashing.Depth(n));
  }

  // An entry under the name of a prefix covers that prefix.
  lemma NameCovers(cfg: Config, key: Key, covers: seq<nat>, tokens: seq<nat>, n: nat)
    requires cfg.hashing.Ideal() && AreTokens(tokens) && n <= |tokens|
    requires NamesOnly(cfg, key, covers) && key == cfg.hashing.KeyFor(tokens, n)
    ensures covers == tokens[..n]
  {
    hide Hashing.KeyFor, Hashing.Ideal;
    KeyInjective(cfg.hashing, covers, |covers|, tokens, n);
    assert covers[..|covers|] == covers;
  }

  // The checkpoint read back is still resident, its blocks with it.
  lemma LoadedIsLive(cfg: Config, st: State, key: Key, disk: Disk)
    requires Wf(cfg, st) && Find(st.entries, key).None? && LoadSpilled(cfg, st, key, disk).1.Some?
    ensures var (r, cp) := LoadSpilled(cfg, st, key, disk);
      && Live(r.store, cp.value.blocks) && r.entries != [] && r.entries[|r.entries| - 1] == Entry(key, cp.value)
    ensures FindFile(st.spilled, key).Some?
      && var file := st.spilled[FindFile(st.spilled, key).value];
      LoadSpilled(cfg, st, key, disk).1.value.covers == file.covers
  {
    hide Wf, PutAll, Acquire, Find, FindFile, EvictToFit;
    var at := FindFile(st.spilled, key).value;
    var file := st.spilled[at];
    var cp := Checkpoint(file.covers, NewKeys(st.store, |file.payloads|), file.residentBytes);
    LoadKeeps(cfg, st, at);
    var admitted := Admit(cfg, st.(store := PutAll(st.store, file.payloads)), key, cp).(spilled := ToEnd(st.spilled, at));
    EvictionEnds(cfg, admitted, Some(key), disk);
    var r := EvictToFit(cfg, admitted, Some(key), disk);
    assert admitted.entries[|admitted.entries| - 1] == Entry(key, cp);
    LastIsLive(cfg, r);
  }

  lemma LastIsLive(cfg: Config, st: State)
    requires Wf(cfg, st) && st.entries != []
    ensures Live(st.store, st.entries[|st.entries| - 1].checkpoint.blocks)
  {
    ResidentIsLive(st, |st.entries| - 1);
  }

  lemma TriedIsRight(cfg: Config, st: State, tokens: seq<nat>, d: nat, n: nat, disk: Disk)
    requires Wf(cfg, st) && cfg.hashing.Ideal() && AreTokens(tokens) && cfg.hashing.At(d) <= |tokens| && n <= |tokens|
    ensures var (r, cp) := TryLength(cfg, st, tokens, d, n, disk);
      cp.Some? ==>
        && 0 < n && d == cfg.hashing.Depth(n) && cp.value.covers == tokens[..n] && Live(r.store, cp.value.blocks)
  {
    hide Hashing.At, Hashing.Chain, Hashing.Ideal, Hashing.Depth, Hashing.KeyFor, Counted, Held, NamesOnly,
      LoadSpilled, SliceTail, Named;
    var (r, cp) := TryLength(cfg, st, tokens, d, n, disk);
    if cp.Some? {
      ConfirmedName(cfg, st, tokens, d, n);
      var key := Key(cfg.hashing.Chain(tokens, d), st.index[cfg.hashing.Chain(tokens, d)][n]);
      var at := Find(st.entries, key);
      if at.Some? {
        NameCovers(cfg, key, st.entries[at.value].checkpoint.covers, tokens, n);
        ResidentIsLive(st, at.value);
      } else {
        LoadedIsLive(cfg, st, key, disk);
        var file := st.spilled[FindFile(st.spilled, key).value];
        NameCovers(cfg, key, file.covers, tokens, n);
      }
    }
  }

  lemma {:induction false} ScannedIsRight(cfg: Config, st: State, tokens: seq<nat>, d: nat, n: nat, disk: Disk)
    requires Wf(cfg, st) && cfg.hashing.Ideal() && AreTokens(tokens) && cfg.hashing.At(d) <= |tokens| && n <= |tokens| + 1
    ensures var (r, m) := ScanLengths(cfg, st, tokens, d, n, disk); m.Some? ==> RightMatch(cfg, r, tokens, m.value)
    decreases n
  {
    hide Hashing.At, Hashing.Ideal, Hashing.Depth, Wf, TryLength;
    if n > 0 {
      TriedIsRight(cfg, st, tokens, d, n - 1, disk);
      var tried := TryLength(cfg, st, tokens, d, n - 1, disk);
      if tried.1.None? {
        ScannedIsRight(cfg, tried.0, tokens, d, n - 1, disk);
      }
    }
  }

  // The match covers exactly the first `length` tokens, and what it needs to be restored is held.
  predicate RightMatch(cfg: Config, st: State, tokens: seq<nat>, m: Match) {
    && 0 < m.length <= |tokens| && cfg.hashing.blockSize >= 1 && m.blocks == cfg.hashing.Depth(m.length)
    && m.checkpoint.covers == tokens[..m.length]
    && Live(st.store, m.checkpoint.blocks)
  }

  lemma {:induction false} DepthsAreRight(cfg: Config, st: State, tokens: seq<nat>, d: nat, disk: Disk)
    requires Wf(cfg, st) && cfg.hashing.Ideal() && AreTokens(tokens) && cfg.hashing.At(d) <= |tokens|
    ensures var (r, m) := ScanDepths(cfg, st, tokens, d, disk); m.Some? ==> RightMatch(cfg, r, tokens, m.value)
    decreases d
  {
    hide Hashing.At, Hashing.Ideal, Wf, ScanLengths, RightMatch;
    ScannedIsRight(cfg, st, tokens, d, |tokens| + 1, disk);
    var found := ScanLengths(cfg, st, tokens, d, |tokens| + 1, disk);
    if found.1.None? && d > 0 {
      Grows(cfg.hashing, d - 1, d);
      DepthsAreRight(cfg, found.0, tokens, d - 1, disk);
    }
  }

  /** A lookup returns only a checkpoint of exactly the tokens it claims, its blocks still held. */
  lemma LookupIsRight(cfg: Config, st: State, tokens: seq<nat>, disk: Disk)
    requires Wf(cfg, st) && cfg.hashing.Ideal() && AreTokens(tokens)
    ensures var (r, m) := Lookup(cfg, st, tokens, disk); m.Some? ==> RightMatch(cfg, r, tokens, m.value)
  {
    hide Wf, ScanDepths, RightMatch;
    if cfg.capacity > 0 {
      DepthsAreRight(cfg, st, tokens, cfg.hashing.Depth(|tokens|), disk);
    }
  }

  // ---- the longest one -----------------------------------------------------------------------------------------

  // The index leads to this name at this length, and its checkpoint is resident or can be read back.
  predicate Reachable(st: State, key: Key, n: nat, disk: Disk) {
    && key.chain in st.index && n in st.index[key.chain] && st.index[key.chain][n] == key.tail
    && (Find(st.entries, key).Some? || (FindFile(st.spilled, key).Some? && disk.readable(key)))
  }

  predicate Candidate(cfg: Config, st: State, tokens: seq<nat>, n: nat, disk: Disk) {
    && cfg.hashing.blockSize >= 1 && 0 < n <= |tokens|
    && Reachable(st, cfg.hashing.KeyFor(tokens, n), n, disk)
  }

  lemma {:induction false} DroppedFile(files: seq<OnDisk>, at: nat, key: Key)
    requires DistinctFiles(files) && at < |files|
    ensures FindFile(Without(files, at), key).Some? <==> FindFile(files, key).Some? && key != files[at].key
  {
    hide FindFile;
    var rest := Without(files, at);
    if FindFile(files, key).Some? && key != files[at].key {
      var i := FindFile(files, key).value;
      assert rest[if i < at then i else i - 1].key == key;
    }
    if FindFile(rest, key).Some? {
      var i := FindFile(rest, key).value;
      assert files[if i < at then i else i + 1].key == key;
    }
  }

  // A try that comes to nothing changes no name's standing.
  lemma FailedTryKeeps(cfg: Config, st: State, tokens: seq<nat>, d: nat, n: nat, disk: Disk, key: Key, length: nat)
    requires Wf(cfg, st) && cfg.hashing.Ideal() && AreTokens(tokens) && cfg.hashing.At(d) <= |tokens| && n <= |tokens|
    requires TryLength(cfg, st, tokens, d, n, disk).1.None?
    ensures Reachable(TryLength(cfg, st, tokens, d, n, disk).0, key, length, disk) <==> Reachable(st, key, length, disk)
  {
    hide Hashing.At, Hashing.Chain, Hashing.Ideal, Hashing.Depth, Hashing.KeyFor, Counted, Held, NamesOnly, SliceTail,
      Named;
    hide EvictToFit, PutAll, Admit;
    var link := cfg.hashing.Chain(tokens, d);
    if link in st.index && n in st.index[link]
      && SliceTail(cfg.hashing, tokens, cfg.hashing.At(d), n) == st.index[link][n] {
      ConfirmedName(cfg, st, tokens, d, n);
      var tried := Key(link, st.index[link][n]);
      var at := Find(st.entries, tried);
      if at.Some? {
        NameCovers(cfg, tried, st.entries[at.value].checkpoint.covers, tokens, n);
      } else {
        FailedLoadKeeps(cfg, st, tokens, n, disk, key, length);
      }
    }
  }

  lemma FailedLoadKeeps(cfg: Config, st: State, tokens: seq<nat>, n: nat, disk: Disk, key: Key, length: nat)
    requires Wf(cfg, st) && cfg.hashing.Ideal() && AreTokens(tokens) && n <= |tokens|
    requires Find(st.entries, cfg.hashing.KeyFor(tokens, n)).None?
    requires var cp := LoadSpilled(cfg, st, cfg.hashing.KeyFor(tokens, n), disk).1; cp.None? || |cp.value.covers| != n
    ensures Reachable(LoadSpilled(cfg, st, cfg.hashing.KeyFor(tokens, n), disk).0, key, length, disk)
       <==> Reachable(st, key, length, disk)
  {
    hide Hashing.Ideal, Hashing.KeyFor, Counted, Held, NamesOnly, Named, EvictToFit, PutAll, Admit, Find, FindFile;
    BlocksAreReal(cfg);
    var tried := cfg.hashing.KeyFor(tokens, n);
    var at := FindFile(st.spilled, tried);
    if at.Some? {
      if disk.readable(tried) {
        NameCovers(cfg, tried, st.spilled[at.value].covers, tokens, n);
      } else {
        DroppedFile(st.spilled, at.value, key);
      }
    }
  }

  // A candidate is found when its link and length are tried.
  lemma CandidateIsFound(cfg: Config, st: State, tokens: seq<nat>, n: nat, disk: Disk)
    requires Wf(cfg, st) && cfg.hashing.Ideal() && AreTokens(tokens) && Candidate(cfg, st, tokens, n, disk)
    ensures cfg.hashing.At(cfg.hashing.Depth(n)) <= |tokens|
    ensures TryLength(cfg, st, tokens, cfg.hashing.Depth(n), n, disk).1.Some?
  {
    hide Hashing.At, Hashing.Chain, Hashing.Ideal, Hashing.Depth, Counted, Held, NamesOnly, Named, EvictToFit, PutAll,
      Admit;
    var key := cfg.hashing.KeyFor(tokens, n);
    var at := Find(st.entries, key);
    if at.Some? {
      NameCovers(cfg, key, st.entries[at.value].checkpoint.covers, tokens, n);
    } else {
      NameCovers(cfg, key, st.spilled[FindFile(st.spilled, key).value].covers, tokens, n);
    }
  }

  // Only a listed name is ever returned.
  lemma FoundIsCandidate(cfg: Config, st: State, tokens: seq<nat>, d: nat, n: nat, disk: Disk)
    requires Wf(cfg, st) && cfg.hashing.Ideal() && AreTokens(tokens) && cfg.hashing.At(d) <= |tokens| && n <= |tokens|
    requires TryLength(cfg, st, tokens, d, n, disk).1.Some?
    ensures Candidate(cfg, st, tokens, n, disk) && d == cfg.hashing.Depth(n)
  {
    hide Hashing.At, Hashing.Chain, Hashing.Ideal, Hashing.Depth, Hashing.KeyFor, Counted, Held, NamesOnly, SliceTail,
      Named;
    hide EvictToFit, PutAll, Admit;
    ConfirmedName(cfg, st, tokens, d, n);
    BlocksAreReal(cfg);
  }

  lemma BlocksAreReal(cfg: Config)
    requires cfg.hashing.Ideal()
    ensures cfg.hashing.blockSize >= 1
  {}

  lemma {:induction false} LongestAtLink(cfg: Config, st: State, tokens: seq<nat>, d: nat, bound: nat, disk: Disk, n: nat)
    requires Wf(cfg, st) && cfg.hashing.Ideal() && AreTokens(tokens) && cfg.hashing.At(d) <= |tokens|
      && bound <= |tokens| + 1
    ensures var (r, m) := ScanLengths(cfg, st, tokens, d, bound, disk);
      && (m.None? ==> (Candidate(cfg, r, tokens, n, disk) <==> Candidate(cfg, st, tokens, n, disk))
                      && !(n < bound && Candidate(cfg, st, tokens, n, disk) && d == cfg.hashing.Depth(n)))
      && (m.Some? ==> Candidate(cfg, st, tokens, m.value.length, disk) && d == cfg.hashing.Depth(m.value.length)
                      && (n < bound && Candidate(cfg, st, tokens, n, disk) && d == cfg.hashing.Depth(n)
                         ==> n <= m.value.length))
    decreases bound
  {
    hide Hashing.At, Hashing.Ideal, Hashing.Depth, Hashing.KeyFor, Wf, TryLength, Reachable;
    BlocksAreReal(cfg);
    if bound > 0 {
      var tried := TryLength(cfg, st, tokens, d, bound - 1, disk);
      if n == bound - 1 && Candidate(cfg, st, tokens, n, disk) && d == cfg.hashing.Depth(n) {
        CandidateIsFound(cfg, st, tokens, n, disk);
      }
      if tried.1.Some? {
        FoundIsCandidate(cfg, st, tokens, d, bound - 1, disk);
      } else {
        LongestAtLink(cfg, tried.0, tokens, d, bound - 1, disk, n);
        if 0 < n <= |tokens| {
          FailedTryKeeps(cfg, st, tokens, d, bound - 1, disk, cfg.hashing.KeyFor(tokens, n), n);
        }
        var m := ScanLengths(cfg, tried.0, tokens, d, bound - 1, disk).1;
        if m.Some? {
          var l := m.value.length;
          FailedTryKeeps(cfg, st, tokens, d, bound - 1, disk, cfg.hashing.KeyFor(tokens, l), l);
        }
      }
    }
  }

  lemma DeeperIsLonger(s: Hashing, m: nat, n: nat)
    requires s.blockSize >= 1 && s.Depth(n) < s.Depth(m)
    ensures n < m
  {
    hide Hashing.At, Hashing.Depth;
    Steps(s, s.Depth(n) + 1);
    Grows(s, s.Depth(n) + 1, s.Depth(m));
  }

  lemma {:induction false} LongestFrom(cfg: Config, st: State, tokens: seq<nat>, d: nat, disk: Disk, n: nat)
    requires Wf(cfg, st) && cfg.hashing.Ideal() && AreTokens(tokens) && cfg.hashing.At(d) <= |tokens|
    ensures var m := ScanDepths(cfg, st, tokens, d, disk).1;
      && (m.Some? ==> Candidate(cfg, st, tokens, m.value.length, disk))
      && (Candidate(cfg, st, tokens, n, disk) && cfg.hashing.Depth(n) <= d ==> m.Some? && n <= m.value.length)
    decreases d
  {
    hide Hashing.At, Hashing.Ideal, Hashing.Depth, Hashing.KeyFor, Wf, ScanLengths, Reachable;
    BlocksAreReal(cfg);
    LongestAtLink(cfg, st, tokens, d, |tokens| + 1, disk, n);
    var found := ScanLengths(cfg, st, tokens, d, |tokens| + 1, disk);
    if found.1.Some? {
      if cfg.hashing.Depth(n) < d { DeeperIsLonger(cfg.hashing, found.1.value.length, n); }
    } else if d > 0 {
      Grows(cfg.hashing, d - 1, d);
      LongestFrom(cfg, found.0, tokens, d - 1, disk, n);
      var m := ScanDepths(cfg, found.0, tokens, d - 1, disk).1;
      if m.Some? {
        LongestAtLink(cfg, st, tokens, d, |tokens| + 1, disk, m.value.length);
      }
    }
  }

  /** What a lookup returns is reachable, and nothing longer is: a stored prefix is passed over exactly
      when the index no longer leads to it or its file cannot be read. */
  lemma LookupIsLongest(cfg: Config, st: State, tokens: seq<nat>, disk: Disk, n: nat)
    requires Wf(cfg, st) && cfg.hashing.Ideal() && AreTokens(tokens) && cfg.capacity > 0
    ensures var m := Lookup(cfg, st, tokens, disk).1;
      && (m.Some? ==> Candidate(cfg, st, tokens, m.value.length, disk))
      && (Candidate(cfg, st, tokens, n, disk) ==> m.Some? && n <= m.value.length)
  {
    hide Hashing.At, Hashing.Ideal, Hashing.Depth, Hashing.KeyFor, Wf, ScanDepths, Reachable;
    BlocksAreReal(cfg);
    if n <= |tokens| && cfg.hashing.Depth(|tokens|) < cfg.hashing.Depth(n) {
      DeeperIsLonger(cfg.hashing, n, |tokens|);
    }
    LongestFrom(cfg, st, tokens, cfg.hashing.Depth(|tokens|), disk, n);
  }

  // ---- what evictions and puts do to the index ------------------------------------------------------------------

  predicate LeadsTo(index: map<Digest, map<nat, Digest>>, key: Key, n: nat) {
    key.chain in index && n in index[key.chain] && index[key.chain][n] == key.tail
  }

  predicate Stored(st: State, key: Key) {
    Find(st.entries, key).Some? || FindFile(st.spilled, key).Some?
  }

  lemma ForgetsOnly(index: map<Digest, map<nat, Digest>>, key: Key, length: nat, other: Key, n: nat)
    ensures LeadsTo(Forget(index, key, length), other, n) ==> LeadsTo(index, other, n)
    ensures LeadsTo(index, other, n) && (other != key || n != length) ==> LeadsTo(Forget(index, key, length), other, n)
  {
    if LeadsTo(index, other, n) && other.chain == key.chain && n != length {
      assert n in index[key.chain] - {length};
    }
  }

  lemma EvictOldestIndex(cfg: Config, st: State, disk: Disk, key: Key, n: nat)
    requires Wf(cfg, st) && st.entries != [] && Live(st.store, st.entries[0].checkpoint.blocks)
    ensures var r := EvictOldest(cfg, st, disk);
      && (LeadsTo(r.index, key, n) ==> LeadsTo(st.index, key, n))
      && (LeadsTo(st.index, key, n) && Stored(r, key) ==> LeadsTo(r.index, key, n))
  {
    hide Spill, Release, Forget, Named, Counted, NamesOnly, Held, FileBytes;
    var e := st.entries[0];
    SpillKeeps(cfg, st.(entries := st.entries[1..]), e, disk);
    ForgetsOnly(st.index, e.key, |e.checkpoint.covers|, key, n);
    hide LeadsTo;
  }

  /** Evictions list nothing new, and unlist only what they leave stored nowhere. */
  lemma {:induction false} EvictionIndex(cfg: Config, st: State, protect: Option<Key>, disk: Disk, key: Key, n: nat)
    requires Wf(cfg, st)
    ensures var r := EvictToFit(cfg, st, protect, disk);
      && (LeadsTo(r.index, key, n) ==> LeadsTo(st.index, key, n))
      && (LeadsTo(st.index, key, n) && Stored(r, key) ==> LeadsTo(r.index, key, n))
    decreases |st.entries|
  {
    hide EvictOldest, Wf, LeadsTo, Find, FindFile;
    if !(st.entries == [] || Bytes(st) <= cfg.capacity || protect == Some(st.entries[0].key)) {
      EvictOldestKeeps(cfg, st, disk);
      EvictOldestIndex(cfg, st, disk, key, n);
      var next := EvictOldest(cfg, st, disk);
      EvictionIndex(cfg, next, protect, disk, key, n);
      StoredBefore(cfg, next, protect, disk, key);
    }
  }

  // Evictions move a checkpoint to storage or drop it; they bring none back.
  lemma {:induction false} StoredBefore(cfg: Config, st: State, protect: Option<Key>, disk: Disk, key: Key)
    requires Wf(cfg, st)
    ensures Stored(EvictToFit(cfg, st, protect, disk), key) ==> Stored(st, key)
    decreases |st.entries|
  {
    hide EvictOldest, Wf, Find, FindFile;
    if !(st.entries == [] || Bytes(st) <= cfg.capacity || protect == Some(st.entries[0].key)) {
      EvictOldestKeeps(cfg, st, disk);
      StoredBefore(cfg, EvictOldest(cfg, st, disk), protect, disk, key);
      OldestStored(cfg, st, disk, key);
    }
  }

  lemma OldestStored(cfg: Config, st: State, disk: Disk, key: Key)
    requires st.entries != [] && Live(st.store, st.entries[0].checkpoint.blocks)
    ensures Stored(EvictOldest(cfg, st, disk), key) ==> Stored(st, key)
  {
    hide Release, Forget, Trim;
    var e := st.entries[0];
    var spilled := Spill(cfg, st.(entries := st.entries[1..]), e, disk).spilled;
    if FindFile(spilled, key).Some? {
      TrimSubset(cfg, st, e, disk, FindFile(spilled, key).value);
    }
  }

  lemma TrimSubset(cfg: Config, st: State, e: Entry, disk: Disk, i: nat)
    requires st.entries != [] && Live(st.store, e.checkpoint.blocks)
    requires i < |Spill(cfg, st.(entries := st.entries[1..]), e, disk).spilled|
    ensures var f := Spill(cfg, st.(entries := st.entries[1..]), e, disk).spilled[i];
      f.key == e.key || exists j :: 0 <= j < |st.spilled| && st.spilled[j].key == f.key
  {
    hide FindFile, Trim, Payloads, ToEnd;
    var at, files := FindFile(st.spilled, e.key), st.spilled;
    if cfg.hasSpillDir && cfg.spillCapacity > 0 {
      if at.Some? {
        MovedFrom(files, at.value, i);
      } else if disk.written(e.key).Some? {
        var file := OnDisk(e.key, disk.written(e.key).value, e.checkpoint.covers, Payloads(st.store, e.checkpoint.blocks),
                           e.checkpoint.residentBytes);
        TrimmedFrom(cfg, files, file, st.spilledBytes + file.size, i);
      }
    }
  }

  lemma MovedFrom(files: seq<OnDisk>, at: nat, i: nat)
    requires at < |files| && i < |ToEnd(files, at)|
    ensures exists j :: 0 <= j < |files| && files[j].key == ToEnd(files, at)[i].key
  {
    var j := if i < at then i else if i == |files| - 1 then at else i + 1;
    assert files[j].key == ToEnd(files, at)[i].key;
  }

  lemma TrimmedFrom(cfg: Config, files: seq<OnDisk>, file: OnDisk, bytes: int, i: nat)
    requires i < |Trim(cfg, files + [file], bytes).0|
    ensures var f := Trim(cfg, files + [file], bytes).0[i];
      f.key == file.key || exists j :: 0 <= j < |files| && files[j].key == f.key
  {
    hide Trim;
    TrimIsSuffix(cfg, files + [file], bytes);
    var kept := Trim(cfg, files + [file], bytes).0;
    var j := |files| + 1 - |kept| + i;
    assert (files + [file])[j] == kept[i];
    if j < |files| { assert files[j].key == kept[i].key; }
  }

  lemma {:induction false} TrimIsSuffix(cfg: Config, files: seq<OnDisk>, bytes: int)
    ensures var (kept, left) := Trim(cfg, files, bytes); |kept| <= |files| && kept == files[|files| - |kept|..]
    decreases |files|
  {
    if files != [] && bytes > cfg.spillCapacity { TrimIsSuffix(cfg, files[1..], bytes - files[0].size); }
  }

  // ---- payloads never change ---------------------------------------------------------------------------------------

  // Everything still in `r` is as it was in `s`.
  predicate Unchanged(s: Store<Payload>, r: Store<Payload>) {
    forall k :: k in r.slots ==> k in s.slots && r.slots[k].payload == s.slots[k].payload
  }

  lemma {:induction false} ReleaseUnchanged(s: Store<Payload>, keys: seq<nat>)
    ensures Unchanged(s, Release(s, keys))
    decreases |keys|
  {
    if keys != [] { ReleaseUnchanged(ReleaseOne(s, keys[0]), keys[1..]); }
  }

  lemma {:induction false} EvictionUnchanged(cfg: Config, st: State, protect: Option<Key>, disk: Disk)
    requires Wf(cfg, st)
    ensures Unchanged(st.store, EvictToFit(cfg, st, protect, disk).store)
    decreases |st.entries|
  {
    hide Wf;
    if !(st.entries == [] || Bytes(st) <= cfg.capacity || protect == Some(st.entries[0].key)) {
      EvictOldestKeeps(cfg, st, disk);
      ReleaseUnchanged(st.store, st.entries[0].checkpoint.blocks);
      EvictionUnchanged(cfg, EvictOldest(cfg, st, disk), protect, disk);
    }
  }

  /** A checkpoint read back from storage has the tokens, the payloads and the size that were written. */
  lemma LoadRebuilds(cfg: Config, st: State, key: Key, disk: Disk)
    requires Wf(cfg, st) && Find(st.entries, key).None? && LoadSpilled(cfg, st, key, disk).1.Some?
    ensures FindFile(st.spilled, key).Some?
    ensures var (r, cp) := LoadSpilled(cfg, st, key, disk);
      var file := st.spilled[FindFile(st.spilled, key).value];
      && Live(r.store, cp.value.blocks) && Payloads(r.store, cp.value.blocks) == file.payloads
      && cp.value.covers == file.covers && cp.value.residentBytes == file.residentBytes
  {
    hide PutAll, Acquire, Find, FindFile, EvictToFit, NamesOnly, Counted, Held, Named, FileBytes;
    LoadedIsLive(cfg, st, key, disk);
    var at := FindFile(st.spilled, key).value;
    var file := st.spilled[at];
    var keys := NewKeys(st.store, |file.payloads|);
    var cp := Checkpoint(file.covers, keys, file.residentBytes);
    PutAllIs(st.store, Held(st.entries), file.payloads);
    LoadKeeps(cfg, st, at);
    var filled := PutAll(st.store, file.payloads);
    var admitted := Admit(cfg, st.(store := filled), key, cp).(spilled := ToEnd(st.spilled, at));
    EvictionUnchanged(cfg, admitted, Some(key), disk);
    AcquireKeepsPayloads(filled, Held(st.entries), keys);
    var r := EvictToFit(cfg, admitted, Some(key), disk);
    forall i | 0 <= i < |keys| ensures r.store.slots[keys[i]].payload == file.payloads[i] {
      assert Payloads(filled, keys)[i] == file.payloads[i];
    }
  }

  lemma AcquireKeepsPayloads(store: Store<Payload>, held: multiset<nat>, keys: seq<nat>)
    requires Counted(store, held)
    ensures Unchanged(store, Acquire(store, keys))
  {
    AcquireRaises(store, keys);
  }

  /** And evicting a checkpoint writes its payloads out as they stand. */
  lemma SpillWrites(cfg: Config, st: State, e: Entry, disk: Disk)
    requires Live(st.store, e.checkpoint.blocks) && cfg.hasSpillDir && FindFile(st.spilled, e.key).None?
    requires disk.written(e.key).Some? && disk.written(e.key).value <= cfg.spillCapacity && cfg.spillCapacity > 0
    requires st.spilledBytes == FileBytes(st.spilled)
    ensures var r := Spill(cfg, st, e, disk);
      r.spilled != []
      && r.spilled[|r.spilled| - 1]
         == OnDisk(e.key, disk.written(e.key).value, e.checkpoint.covers, Payloads(st.store, e.checkpoint.blocks),
                   e.checkpoint.residentBytes)
  {
    hide FindFile;
    var file := OnDisk(e.key, disk.written(e.key).value, e.checkpoint.covers, Payloads(st.store, e.checkpoint.blocks),
                       e.checkpoint.residentBytes);
    FileBytesJoin(st.spilled, [file]);
    assert FileBytes([file]) == file.size;
    TrimLeavesLast(cfg, st.spilled, file, st.spilledBytes + file.size);
  }

  lemma {:induction false} TrimLeavesLast(cfg: Config, files: seq<OnDisk>, last: OnDisk, bytes: int)
    requires last.size <= cfg.spillCapacity && bytes == FileBytes(files) + last.size
    ensures var kept := Trim(cfg, files + [last], bytes).0; kept != [] && kept[|kept| - 1] == last
    decreases |files|
  {
    if files != [] && bytes > cfg.spillCapacity {
      assert (files + [last])[1..] == files[1..] + [last];
      TrimLeavesLast(cfg, files[1..], last, bytes - files[0].size);
    }
  }
}
