// Checkpoints of prefixes in two tiers: resident ones under a byte cap in recency order, and the ones
// evicted from it written to storage under a cap of its own. Every resident checkpoint holds its blocks
// in the store; a checkpoint on disk holds none and gets new ones when it is read back.
module PrefixCache {
  import opened Options
  import opened HostCopies
  import opened BlockStore
  import opened PrefixHash

  // `covers` is the tokens the cache held when the checkpoint was taken.
  datatype Checkpoint = Checkpoint(covers: seq<nat>, blocks: seq<nat>, residentBytes: nat)

  datatype Entry = Entry(key: Key, checkpoint: Checkpoint)

  // A checkpoint in storage, its blocks written out.
  datatype OnDisk = OnDisk(key: Key, size: nat, covers: seq<nat>, payloads: seq<Payload>, residentBytes: nat)

  datatype Config = Config(hashing: Hashing, capacity: nat, spillCapacity: nat, hasSpillDir: bool)

  // How storage behaves during one operation: what size a file comes to, None when writing it fails,
  // and which files can be read back.
  datatype Disk = Disk(written: Key -> Option<nat>, readable: Key -> bool)

  /** Entries and spilled files oldest first; for each link of the chain, the tail stored at each length. */
  datatype State = State(store: Store<Payload>, entries: seq<Entry>, index: map<Digest, map<nat, Digest>>,
                         spilled: seq<OnDisk>, spilledBytes: int)

  const INITIAL := State(Store(map[], 0, 0), [], map[], [], 0)

  // ---- ordered dictionaries ---------------------------------------------------------------------------

  function Find(entries: seq<Entry>, key: Key): (r: Option<nat>)
    ensures r.Some? ==> r.value < |entries| && entries[r.value].key == key
    ensures r.None? ==> forall i :: 0 <= i < |entries| ==> entries[i].key != key
  {
    if entries == [] then None
    else if entries[0].key == key then Some(0)
    else
      var r := Find(entries[1..], key);
      if r.Some? then Some(r.value + 1) else None
  }

  function FindFile(files: seq<OnDisk>, key: Key): (r: Option<nat>)
    ensures r.Some? ==> r.value < |files| && files[r.value].key == key
    ensures r.None? ==> forall i :: 0 <= i < |files| ==> files[i].key != key
  {
    if files == [] then None
    else if files[0].key == key then Some(0)
    else
      var r := FindFile(files[1..], key);
      if r.Some? then Some(r.value + 1) else None
  }

  function Without<T>(s: seq<T>, i: nat): seq<T>
    requires i < |s|
  {
    s[..i] + s[i + 1..]
  }

  function ToEnd<T>(s: seq<T>, i: nat): seq<T>
    requires i < |s|
  {
    Without(s, i) + [s[i]]
  }

  function ResidentBytes(entries: seq<Entry>): nat {
    if entries == [] then 0 else entries[0].checkpoint.residentBytes + ResidentBytes(entries[1..])
  }

  function FileBytes(files: seq<OnDisk>): nat {
    if files == [] then 0 else files[0].size + FileBytes(files[1..])
  }

  function Bytes(st: State): int {
    st.store.bytes + ResidentBytes(st.entries)
  }

  // Every mention of a block by a resident checkpoint.
  function Held(entries: seq<Entry>): multiset<nat> {
    if entries == [] then multiset{} else multiset(entries[0].checkpoint.blocks) + Held(entries[1..])
  }

  // ---- the invariant -------------------------------------------------------------------------------------

  predicate DistinctEntries(entries: seq<Entry>) {
    forall i, j :: 0 <= i < j < |entries| ==> entries[i].key != entries[j].key
  }

  predicate DistinctFiles(files: seq<OnDisk>) {
    forall i, j :: 0 <= i < j < |files| ==> files[i].key != files[j].key
  }

  // Each block's count is its mentions in resident checkpoints, and nothing mentioned is gone.
  ghost predicate Counted(store: Store<Payload>, held: multiset<nat>) {
    && Valid(store)
    && (forall k :: k in store.slots ==> store.slots[k].refs == held[k])
    && (forall k :: k in held ==> k in store.slots)
    && forall k :: k in store.slots ==> store.slots[k].size == store.slots[k].payload.nbytes
  }

  predicate NamesOnly(cfg: Config, key: Key, covers: seq<nat>) {
    cfg.hashing.blockSize >= 1 && AreTokens(covers) && covers != [] && key == cfg.hashing.KeyFor(covers, |covers|)
  }

  ghost predicate Named(cfg: Config, link: Digest, length: nat, tail: Digest)
  {
    exists covers: seq<nat> :: |covers| == length && NamesOnly(cfg, Key(link, tail), covers)
  }

  ghost predicate Wf(cfg: Config, st: State) {
    && Counted(st.store, Held(st.entries))
    && DistinctEntries(st.entries) && DistinctFiles(st.spilled)
    && st.spilledBytes == FileBytes(st.spilled) && st.spilledBytes <= cfg.spillCapacity
    && (forall i :: 0 <= i < |st.entries| ==> NamesOnly(cfg, st.entries[i].key, st.entries[i].checkpoint.covers))
    && (forall i :: 0 <= i < |st.spilled| ==> NamesOnly(cfg, st.spilled[i].key, st.spilled[i].covers))
    && (forall link, length :: link in st.index && length in st.index[link] ==>
          Named(cfg, link, length, st.index[link][length]))
  }

  // ---- spilling ------------------------------------------------------------------------------------------

  // Drop the oldest files until the rest fit.
  function Trim(cfg: Config, files: seq<OnDisk>, bytes: int): (seq<OnDisk>, int)
    decreases |files|
  {
    if files != [] && bytes > cfg.spillCapacity then Trim(cfg, files[1..], bytes - files[0].size) else (files, bytes)
  }

  // Write an evicted checkpoint out, unless it is there already.
  function Spill(cfg: Config, st: State, e: Entry, disk: Disk): State
    requires Live(st.store, e.checkpoint.blocks)
  {
    if !cfg.hasSpillDir || cfg.spillCapacity == 0 then st
    else
      var at := FindFile(st.spilled, e.key);
      if at.Some? then st.(spilled := ToEnd(st.spilled, at.value))
      else
        var size := disk.written(e.key);
        if size.None? then st
        else
          var file := OnDisk(e.key, size.value, e.checkpoint.covers, Payloads(st.store, e.checkpoint.blocks),
                             e.checkpoint.residentBytes);
          var (files, bytes) := Trim(cfg, st.spilled + [file], st.spilledBytes + size.value);
          st.(spilled := files, spilledBytes := bytes)
  }

  // Unlist a name, if the index still leads to it.
  function Forget(index: map<Digest, map<nat, Digest>>, key: Key, length: nat): map<Digest, map<nat, Digest>> {
    if key.chain in index && length in index[key.chain] && index[key.chain][length] == key.tail then
      var bucket := index[key.chain] - {length};
      if bucket == map[] then index - {key.chain} else index[key.chain := bucket]
    else index
  }

  function EvictOldest(cfg: Config, st: State, disk: Disk): State
    requires st.entries != [] && Live(st.store, st.entries[0].checkpoint.blocks)
  {
    var e := st.entries[0];
    var spilled := Spill(cfg, st.(entries := st.entries[1..]), e, disk);
    var released := spilled.(store := Release(spilled.store, e.checkpoint.blocks));
    if FindFile(released.spilled, e.key).Some? then released
    else released.(index := Forget(released.index, e.key, |e.checkpoint.covers|))
  }

  // ---- the invariant through an eviction ---------------------------------------------------------------------

  lemma {:induction false} HeldAt(entries: seq<Entry>, i: nat)
    requires i < |entries|
    ensures multiset(entries[i].checkpoint.blocks) <= Held(entries)
    decreases |entries|
  {
    if i > 0 { HeldAt(entries[1..], i - 1); }
  }

  // A resident checkpoint's blocks are all there.
  lemma ResidentIsLive(st: State, i: nat)
    requires Counted(st.store, Held(st.entries)) && i < |st.entries|
    ensures Live(st.store, st.entries[i].checkpoint.blocks)
  {
    HeldAt(st.entries, i);
    var blocks := st.entries[i].checkpoint.blocks;
    forall k | 0 <= k < |blocks| ensures blocks[k] in st.store.slots {
      assert blocks[k] in multiset(blocks);
    }
  }

  lemma ReleaseCounted(store: Store<Payload>, held: multiset<nat>, keys: seq<nat>)
    requires Counted(store, held + multiset(keys))
    ensures Counted(Release(store, keys), held)
  {
    ReleaseLowers(store, keys);
    var r := Release(store, keys);
    forall k | k in held ensures k in r.slots {
      assert k in held + multiset(keys);
    }
    forall k | k in store.slots && k !in r.slots ensures held[k] == 0 {}
  }

  lemma {:induction false} TrimKeeps(cfg: Config, files: seq<OnDisk>, bytes: int)
    requires bytes == FileBytes(files)
    ensures var (kept, left) := Trim(cfg, files, bytes);
      && left == FileBytes(kept) && |kept| <= |files| && kept == files[|files| - |kept|..]
      && left <= cfg.spillCapacity
    decreases |files|
  {
    if files != [] && bytes > cfg.spillCapacity {
      TrimKeeps(cfg, files[1..], bytes - files[0].size);
    }
  }

  lemma {:induction false} FileBytesJoin(a: seq<OnDisk>, b: seq<OnDisk>)
    ensures FileBytes(a + b) == FileBytes(a) + FileBytes(b)
    decreases |a|
  {
    if a == [] {
      assert a + b == b;
    } else {
      assert (a + b)[1..] == a[1..] + b;
      FileBytesJoin(a[1..], b);
    }
  }

  lemma {:induction false} HeldJoin(a: seq<Entry>, b: seq<Entry>)
    ensures Held(a + b) == Held(a) + Held(b)
    decreases |a|
  {
    if a == [] {
      assert a + b == b;
    } else {
      assert (a + b)[1..] == a[1..] + b;
      HeldJoin(a[1..], b);
    }
  }

  lemma AroundOne<T>(s: seq<T>, i: nat)
    requires i < |s|
    ensures s == s[..i] + ([s[i]] + s[i + 1..])
    ensures ToEnd(s, i) == (s[..i] + s[i + 1..]) + [s[i]]
  {}

  lemma FileAmong(a: seq<OnDisk>, f: OnDisk, b: seq<OnDisk>)
    ensures FileBytes(a + ([f] + b)) == FileBytes(a + b) + f.size
    ensures FileBytes((a + b) + [f]) == FileBytes(a + b) + f.size
  {
    FileBytesJoin(a, [f] + b);
    FileBytesJoin([f], b);
    FileBytesJoin(a, b);
    FileBytesJoin(a + b, [f]);
    assert FileBytes([f]) == f.size;
  }

  lemma FileAt(files: seq<OnDisk>, i: nat)
    requires i < |files|
    ensures FileBytes(files) == FileBytes(Without(files, i)) + files[i].size
    ensures FileBytes(ToEnd(files, i)) == FileBytes(files)
  {
    hide FileBytes, ToEnd;
    AroundOne(files, i);
    FileAmong(files[..i], files[i], files[i + 1..]);
  }

  lemma HeldAmong(a: seq<Entry>, e: Entry, b: seq<Entry>)
    ensures Held(a + ([e] + b)) == Held((a + b) + [e])
  {
    HeldJoin(a, [e] + b);
    HeldJoin([e], b);
    HeldJoin(a, b);
    HeldJoin(a + b, [e]);
    hide Held;
  }

  lemma HeldToEnd(entries: seq<Entry>, i: nat)
    requires i < |entries|
    ensures Held(ToEnd(entries, i)) == Held(entries)
  {
    hide Held, ToEnd;
    AroundOne(entries, i);
    HeldAmong(entries[..i], entries[i], entries[i + 1..]);
  }

  // What spilling may do to the files: the invariant holds of them, and no other file comes or changes.
  predicate FilesWf(cfg: Config, files: seq<OnDisk>, bytes: int) {
    && DistinctFiles(files) && bytes == FileBytes(files)
    && forall i :: 0 <= i < |files| ==> NamesOnly(cfg, files[i].key, files[i].covers)
  }

  lemma FilesMoved(cfg: Config, files: seq<OnDisk>, bytes: int, i: nat)
    requires FilesWf(cfg, files, bytes) && i < |files|
    ensures FilesWf(cfg, ToEnd(files, i), bytes)
    ensures FilesWf(cfg, Without(files, i), bytes - files[i].size)
  {
    hide NamesOnly, FileBytes;
    FileAt(files, i);
  }

  lemma FilesAdded(cfg: Config, files: seq<OnDisk>, bytes: int, file: OnDisk)
    requires FilesWf(cfg, files, bytes) && FindFile(files, file.key).None? && NamesOnly(cfg, file.key, file.covers)
    ensures FilesWf(cfg, files + [file], bytes + file.size)
  {
    hide NamesOnly, FindFile;
    FileBytesJoin(files, [file]);
    assert FileBytes([file]) == file.size;
  }

  lemma FilesTrimmed(cfg: Config, files: seq<OnDisk>, bytes: int)
    requires FilesWf(cfg, files, bytes)
    ensures var (kept, left) := Trim(cfg, files, bytes); FilesWf(cfg, kept, left) && left <= cfg.spillCapacity
  {
    hide NamesOnly, FileBytes, Trim;
    TrimKeeps(cfg, files, bytes);
  }

  lemma SpillKeeps(cfg: Config, st: State, e: Entry, disk: Disk)
    requires Live(st.store, e.checkpoint.blocks) && FilesWf(cfg, st.spilled, st.spilledBytes)
    requires NamesOnly(cfg, e.key, e.checkpoint.covers)
    ensures var r := Spill(cfg, st, e, disk);
      && r == st.(spilled := r.spilled, spilledBytes := r.spilledBytes)
      && FilesWf(cfg, r.spilled, r.spilledBytes)
      && (st.spilledBytes <= cfg.spillCapacity ==> r.spilledBytes <= cfg.spillCapacity)
  {
    hide NamesOnly, FilesWf, Trim, FindFile, ToEnd;
    if cfg.hasSpillDir && cfg.spillCapacity > 0 {
      var at := FindFile(st.spilled, e.key);
      if at.Some? {
        FilesMoved(cfg, st.spilled, st.spilledBytes, at.value);
      } else if disk.written(e.key).Some? {
        var file := OnDisk(e.key, disk.written(e.key).value, e.checkpoint.covers,
                           Payloads(st.store, e.checkpoint.blocks), e.checkpoint.residentBytes);
        FilesAdded(cfg, st.spilled, st.spilledBytes, file);
        FilesTrimmed(cfg, st.spilled + [file], st.spilledBytes + file.size);
      }
    }
  }

  ghost predicate IndexNamed(cfg: Config, index: map<Digest, map<nat, Digest>>) {
    forall link, length :: link in index && length in index[link] ==> Named(cfg, link, length, index[link][length])
  }

  lemma ForgetKeeps(cfg: Config, index: map<Digest, map<nat, Digest>>, key: Key, length: nat)
    requires IndexNamed(cfg, index)
    ensures IndexNamed(cfg, Forget(index, key, length))
  {
    hide Named;
  }

  lemma HeldFirst(entries: seq<Entry>)
    requires entries != []
    ensures Held(entries) == Held(entries[1..]) + multiset(entries[0].checkpoint.blocks)
  {}

  /** Evicting the oldest checkpoint keeps every count, sum and name. */
  lemma EvictOldestKeeps(cfg: Config, st: State, disk: Disk)
    requires Wf(cfg, st) && st.entries != []
    ensures Live(st.store, st.entries[0].checkpoint.blocks)
    ensures Wf(cfg, EvictOldest(cfg, st, disk))
    ensures EvictOldest(cfg, st, disk).entries == st.entries[1..]
  {
    hide Spill, Release, Forget, Named, Counted, NamesOnly, FindFile, Held, FileBytes;
    ResidentIsLive(st, 0);
    var e := st.entries[0];
    SpillKeeps(cfg, st.(entries := st.entries[1..]), e, disk);
    HeldFirst(st.entries);
    ReleaseCounted(st.store, Held(st.entries[1..]), e.checkpoint.blocks);
    var spilled := Spill(cfg, st.(entries := st.entries[1..]), e, disk);
    ForgetKeeps(cfg, spilled.index, e.key, |e.checkpoint.covers|);
  }

  // Evict, oldest first, until what is left fits; stop at the protected entry.
  function EvictToFit(cfg: Config, st: State, protect: Option<Key>, disk: Disk): (r: State)
    requires Wf(cfg, st)
    ensures Wf(cfg, r)
    decreases |st.entries|
  {
    if st.entries == [] || Bytes(st) <= cfg.capacity || protect == Some(st.entries[0].key) then st
    else
      EvictOldestKeeps(cfg, st, disk);
      EvictToFit(cfg, EvictOldest(cfg, st, disk), protect, disk)
  }

  /** An eviction ends within the capacity, or with nothing resident, or at the protected entry, and takes
      only the oldest. */
  lemma {:induction false} EvictionEnds(cfg: Config, st: State, protect: Option<Key>, disk: Disk)
    requires Wf(cfg, st)
    ensures var r := EvictToFit(cfg, st, protect, disk);
      && (r.entries == [] || Bytes(r) <= cfg.capacity || protect == Some(r.entries[0].key))
      && |r.entries| <= |st.entries| && r.entries == st.entries[|st.entries| - |r.entries|..]
      && forall i :: 0 <= i < |st.entries| - |r.entries| ==> protect != Some(st.entries[i].key)
    decreases |st.entries|
  {
    hide EvictOldest, Wf;
    if !(st.entries == [] || Bytes(st) <= cfg.capacity || protect == Some(st.entries[0].key)) {
      EvictOldestKeeps(cfg, st, disk);
      EvictionEnds(cfg, EvictOldest(cfg, st, disk), protect, disk);
    }
  }

  // ---- storing ----------------------------------------------------------------------------------------------

  function Listed(index: map<Digest, map<nat, Digest>>, key: Key, length: nat): map<Digest, map<nat, Digest>> {
    index[key.chain := (if key.chain in index then index[key.chain] else map[])[length := key.tail]]
  }

  // A resident entry added under its name, before anything is evicted for it.
  function Admit(cfg: Config, st: State, key: Key, cp: Checkpoint): State {
    st.(store := Acquire(st.store, cp.blocks), entries := st.entries + [Entry(key, cp)])
  }

  function Put(cfg: Config, st: State, tokens: seq<nat>, cp: Checkpoint, disk: Disk): (r: (State, bool))
    requires Wf(cfg, st) && cfg.hashing.blockSize >= 1
    requires AreTokens(tokens) && cp.covers <= tokens && Live(st.store, cp.blocks)
    ensures Wf(cfg, r.0)
  {
    if cfg.capacity == 0 || cp.covers == [] then (st, false)
    else
      var key := cfg.hashing.KeyFor(tokens, |cp.covers|);
      var at := Find(st.entries, key);
      if at.Some? then
        TouchKeeps(cfg, st, at.value);
        (st.(entries := ToEnd(st.entries, at.value)), false)
      else
        PutKeeps(cfg, st, tokens, cp);
        (EvictToFit(cfg, Admit(cfg, st, key, cp).(index := Listed(st.index, key, |cp.covers|)), None, disk), true)
  }

  // ---- reading back -------------------------------------------------------------------------------------------

  function PutAll(store: Store<Payload>, payloads: seq<Payload>): Store<Payload>
    decreases |payloads|
  {
    if payloads == [] then store
    else BlockStore.Insert(PutAll(store, payloads[..|payloads| - 1]), payloads[|payloads| - 1],
      payloads[|payloads| - 1].nbytes)
  }

  // The keys a batch of payloads is stored under.
  function NewKeys(store: Store<Payload>, n: nat): (keys: seq<nat>)
    ensures |keys| == n && forall i :: 0 <= i < n ==> keys[i] == store.next + i
  {
    if n == 0 then [] else NewKeys(store, n - 1) + [store.next + (n - 1)]
  }

  function LoadSpilled(cfg: Config, st: State, key: Key, disk: Disk): (r: (State, Option<Checkpoint>))
    requires Wf(cfg, st) && Find(st.entries, key).None?
    ensures Wf(cfg, r.0)
  {
    var at := FindFile(st.spilled, key);
    if at.None? then (st, None)
    else
      var file := st.spilled[at.value];
      if !disk.readable(key) then
        DropKeeps(cfg, st, at.value);
        (st.(spilled := Without(st.spilled, at.value), spilledBytes := st.spilledBytes - file.size), None)
      else
        var cp := Checkpoint(file.covers, NewKeys(st.store, |file.payloads|), file.residentBytes);
        LoadKeeps(cfg, st, at.value);
        (EvictToFit(cfg, Admit(cfg, st.(store := PutAll(st.store, file.payloads)), key, cp)
                           .(spilled := ToEnd(st.spilled, at.value)), Some(key), disk), Some(cp))
  }

  // ---- the invariant through both -------------------------------------------------------------------------------

  lemma TouchKeeps(cfg: Config, st: State, at: nat)
    requires Wf(cfg, st) && at < |st.entries|
    ensures Wf(cfg, st.(entries := ToEnd(st.entries, at)))
  {
    hide Held, NamesOnly, Counted, FileBytes, Named;
    HeldToEnd(st.entries, at);
  }

  lemma DropKeeps(cfg: Config, st: State, at: nat)
    requires Wf(cfg, st) && at < |st.spilled|
    ensures Wf(cfg, st.(spilled := Without(st.spilled, at), spilledBytes := st.spilledBytes - st.spilled[at].size))
  {
    hide NamesOnly, Counted, Held, Named, FileBytes;
    FilesMoved(cfg, st.spilled, st.spilledBytes, at);
  }

  lemma AcquireCounted(store: Store<Payload>, held: multiset<nat>, keys: seq<nat>)
    requires Counted(store, held) && Live(store, keys)
    ensures Counted(Acquire(store, keys), held + multiset(keys))
  {
    AcquireRaises(store, keys);
    forall k | k in held + multiset(keys) ensures k in store.slots {
      if k in multiset(keys) { assert k in keys; }
    }
  }

  lemma AdmitKeeps(cfg: Config, st: State, key: Key, cp: Checkpoint)
    requires Wf(cfg, st) && Live(st.store, cp.blocks) && Find(st.entries, key).None? && NamesOnly(cfg, key, cp.covers)
    ensures Wf(cfg, Admit(cfg, st, key, cp))
  {
    hide NamesOnly, Counted, Named, FileBytes, Find, Acquire, Held;
    AcquireCounted(st.store, Held(st.entries), cp.blocks);
    HeldMore(st.entries, Entry(key, cp));
    hide DistinctEntries;
  }

  lemma HeldMore(entries: seq<Entry>, e: Entry)
    ensures Held(entries + [e]) == Held(entries) + multiset(e.checkpoint.blocks)
  {
    HeldJoin(entries, [e]);
    assert Held([e]) == multiset(e.checkpoint.blocks);
  }

  lemma ListedNamed(cfg: Config, index: map<Digest, map<nat, Digest>>, key: Key, covers: seq<nat>)
    requires IndexNamed(cfg, index) && NamesOnly(cfg, key, covers)
    ensures IndexNamed(cfg, Listed(index, key, |covers|))
  {
    hide NamesOnly;
    assert key == Key(key.chain, key.tail);
    assert Named(cfg, key.chain, |covers|, key.tail);
    hide Named;
  }

  lemma NamedByTokens(cfg: Config, tokens: seq<nat>, covers: seq<nat>)
    requires cfg.hashing.blockSize >= 1 && AreTokens(tokens) && covers <= tokens && covers != []
    ensures NamesOnly(cfg, cfg.hashing.KeyFor(tokens, |covers|), covers)
  {
    hide Hashing.KeyFor;
    KeyLocal(cfg.hashing, tokens, |covers|);
    assert tokens[..|covers|] == covers;
  }

  lemma PutKeeps(cfg: Config, st: State, tokens: seq<nat>, cp: Checkpoint)
    requires Wf(cfg, st) && cfg.hashing.blockSize >= 1 && AreTokens(tokens) && cp.covers <= tokens && cp.covers != []
    requires Live(st.store, cp.blocks) && Find(st.entries, cfg.hashing.KeyFor(tokens, |cp.covers|)).None?
    ensures var key := cfg.hashing.KeyFor(tokens, |cp.covers|);
      Wf(cfg, Admit(cfg, st, key, cp).(index := Listed(st.index, key, |cp.covers|)))
  {
    hide Hashing.KeyFor, NamesOnly, Counted, Named, Find, Acquire, Held, FileBytes;
    var key := cfg.hashing.KeyFor(tokens, |cp.covers|);
    NamedByTokens(cfg, tokens, cp.covers);
    AdmitKeeps(cfg, st, key, cp);
    ListedNamed(cfg, st.index, key, cp.covers);
  }

  /** Payloads written into the store come back under their new keys, and nothing else changes. */
  lemma PutOne(store: Store<Payload>, held: multiset<nat>, p: Payload)
    requires Counted(store, held)
    ensures store.next !in store.slots && Counted(BlockStore.Insert(store, p, p.nbytes), held)
  {
    PutValid(store, p, p.nbytes);
  }

  lemma PutBeside(store: Store<Payload>, keys: seq<nat>, payloads: seq<Payload>, p: Payload)
    requires store.next !in store.slots && Live(store, keys) && Payloads(store, keys) == payloads
    ensures var r, all := BlockStore.Insert(store, p, p.nbytes), keys + [store.next];
      Live(r, all) && Payloads(r, all) == payloads + [p]
  {
    var r, all := BlockStore.Insert(store, p, p.nbytes), keys + [store.next];
    forall i | 0 <= i < |all| ensures all[i] in r.slots && r.slots[all[i]].payload == (payloads + [p])[i] {
      if i < |keys| { assert Payloads(store, keys)[i] == payloads[i]; }
    }
  }

  lemma PutAllStep(store: Store<Payload>, payloads: seq<Payload>)
    requires payloads != []
    ensures var n := |payloads| - 1;
      PutAll(store, payloads) == BlockStore.Insert(PutAll(store, payloads[..n]), payloads[n], payloads[n].nbytes)
  {
    hide BlockStore.Insert;
  }

  lemma NewKeysStep(store: Store<Payload>, n: nat)
    ensures NewKeys(store, n + 1) == NewKeys(store, n) + [store.next + n]
  {}

  lemma {:induction false} PutAllIs(store: Store<Payload>, held: multiset<nat>, payloads: seq<Payload>)
    requires Counted(store, held)
    ensures var r, keys := PutAll(store, payloads), NewKeys(store, |payloads|);
      && Counted(r, held) && r.next == store.next + |payloads|
      && Live(r, keys) && Payloads(r, keys) == payloads
      && forall k :: k in store.slots ==> k in r.slots && r.slots[k] == store.slots[k]
    decreases |payloads|
  {
    if payloads != [] {
      hide Counted, Live, Payloads, PutAll, NewKeys;
      var n := |payloads| - 1;
      PutAllStep(store, payloads);
      NewKeysStep(store, n);
      var before := PutAll(store, payloads[..n]);
      PutAllIs(store, held, payloads[..n]);
      PutOne(before, held, payloads[n]);
      PutBeside(before, NewKeys(store, n), payloads[..n], payloads[n]);
      assert payloads[..n] + [payloads[n]] == payloads;
    }
  }

  lemma LoadKeeps(cfg: Config, st: State, at: nat)
    requires Wf(cfg, st) && at < |st.spilled| && Find(st.entries, st.spilled[at].key).None?
    ensures var file := st.spilled[at];
      var cp := Checkpoint(file.covers, NewKeys(st.store, |file.payloads|), file.residentBytes);
      Wf(cfg, Admit(cfg, st.(store := PutAll(st.store, file.payloads)), file.key, cp).(spilled := ToEnd(st.spilled, at)))
  {
    hide NamesOnly, Counted, Named, Find, Acquire, Held, FileBytes, PutAll;
    var file := st.spilled[at];
    var cp := Checkpoint(file.covers, NewKeys(st.store, |file.payloads|), file.residentBytes);
    PutAllIs(st.store, Held(st.entries), file.payloads);
    AdmitKeeps(cfg, st.(store := PutAll(st.store, file.payloads)), file.key, cp);
    FilesMoved(cfg, st.spilled, st.spilledBytes, at);
  }

  // ---- looking up ---------------------------------------------------------------------------------------------

  datatype Match = Match(length: nat, blocks: nat, checkpoint: Checkpoint)

  // The hash of a slice that is empty when it ends before it starts.
  function SliceTail(s: Hashing, tokens: seq<nat>, from: nat, to: nat): Digest
    requires to <= |tokens|
  {
    s.digest(TokenBytes(if from <= to then tokens[from..to] else []))
  }

  // Try the entry of length `n` hanging off the link at depth `d`.
  function TryLength(cfg: Config, st: State, tokens: seq<nat>, d: nat, n: nat, disk: Disk): (r: (State, Option<Checkpoint>))
    requires Wf(cfg, st) && cfg.hashing.At(d) <= |tokens| && n <= |tokens|
    ensures Wf(cfg, r.0)
  {
    var link := cfg.hashing.Chain(tokens, d);
    if link !in st.index || n !in st.index[link]
       || SliceTail(cfg.hashing, tokens, cfg.hashing.At(d), n) != st.index[link][n] then (st, None)
    else
      var key := Key(link, st.index[link][n]);
      var at := Find(st.entries, key);
      if at.Some? then
        if |st.entries[at.value].checkpoint.covers| != n then (st, None)
        else
          TouchKeeps(cfg, st, at.value);
          (st.(entries := ToEnd(st.entries, at.value)), Some(st.entries[at.value].checkpoint))
      else
        var loaded := LoadSpilled(cfg, st, key, disk);
        if loaded.1.None? || |loaded.1.value.covers| != n then (loaded.0, None)
        else
          var there := Find(loaded.0.entries, key);
          if there.None? then loaded
          else
            TouchKeeps(cfg, loaded.0, there.value);
            (loaded.0.(entries := ToEnd(loaded.0.entries, there.value)), loaded.1)
  }

  // The entries hanging off one link, longest first.
  function ScanLengths(cfg: Config, st: State, tokens: seq<nat>, d: nat, n: nat, disk: Disk): (r: (State, Option<Match>))
    requires Wf(cfg, st) && cfg.hashing.At(d) <= |tokens| && n <= |tokens| + 1
    ensures Wf(cfg, r.0)
    decreases n
  {
    if n == 0 then (st, None)
    else
      var tried := TryLength(cfg, st, tokens, d, n - 1, disk);
      if tried.1.Some? then (tried.0, Some(Match(n - 1, d, tried.1.value)))
      else ScanLengths(cfg, tried.0, tokens, d, n - 1, disk)
  }

  // The links of the chain, deepest first.
  function ScanDepths(cfg: Config, st: State, tokens: seq<nat>, d: nat, disk: Disk): (r: (State, Option<Match>))
    requires Wf(cfg, st) && cfg.hashing.At(d) <= |tokens|
    ensures Wf(cfg, r.0)
    decreases d
  {
    hide Wf, Hashing.At;
    var found := ScanLengths(cfg, st, tokens, d, |tokens| + 1, disk);
    if found.1.Some? || d == 0 then found
    else
      Grows(cfg.hashing, d - 1, d);
      ScanDepths(cfg, found.0, tokens, d - 1, disk)
  }

  /** The longest stored prefix of `tokens`, or None. */
  function Lookup(cfg: Config, st: State, tokens: seq<nat>, disk: Disk): (r: (State, Option<Match>))
    requires Wf(cfg, st) && cfg.hashing.blockSize >= 1
    ensures Wf(cfg, r.0)
  {
    if cfg.capacity == 0 then (st, None)
    else ScanDepths(cfg, st, tokens, cfg.hashing.Depth(|tokens|), disk)
  }

  // ---- whole runs --------------------------------------------------------------------------------------------------

  function ReleaseAll(store: Store<Payload>, entries: seq<Entry>): Store<Payload>
    decreases |entries|
  {
    if entries == [] then store else ReleaseAll(Release(store, entries[0].checkpoint.blocks), entries[1..])
  }

  // Let go of everything resident, and of the files too when asked. The index keeps its names.
  function Clear(cfg: Config, st: State, dropSpilled: bool): State {
    var cleared := st.(store := ReleaseAll(st.store, st.entries), entries := []);
    if dropSpilled && cfg.hasSpillDir then cleared.(spilled := [], spilledBytes := 0) else cleared
  }

  lemma {:induction false} ReleaseAllCounted(store: Store<Payload>, entries: seq<Entry>)
    requires Counted(store, Held(entries))
    ensures Counted(ReleaseAll(store, entries), multiset{})
    decreases |entries|
  {
    hide Counted;
    if entries != [] {
      assert Held(entries) == Held(entries[1..]) + multiset(entries[0].checkpoint.blocks);
      ReleaseCounted(store, Held(entries[1..]), entries[0].checkpoint.blocks);
      ReleaseAllCounted(Release(store, entries[0].checkpoint.blocks), entries[1..]);
    }
  }

  // Nothing is resident and nothing held; files go only if asked, and names stay listed.
  lemma ClearKeeps(cfg: Config, st: State, dropSpilled: bool)
    requires Wf(cfg, st)
    ensures var r := Clear(cfg, st, dropSpilled);
      && Wf(cfg, r) && r.entries == [] && r.index == st.index
      && (forall k :: k in r.store.slots ==> r.store.slots[k].refs == 0)
      && (if dropSpilled && cfg.hasSpillDir then r.spilled == [] else r.spilled == st.spilled)
  {
    hide Counted, NamesOnly, Named, ReleaseAll;
    ReleaseAllCounted(st.store, st.entries);
    NoneHeld(ReleaseAll(st.store, st.entries));
  }

  lemma NoneHeld(store: Store<Payload>)
    requires Counted(store, multiset{})
    ensures forall k :: k in store.slots ==> store.slots[k].refs == 0
  {}

  /** What can be asked of the cache: a capture stores a block, a request puts or looks up, an operator clears. */
  datatype Op =
    | StoreBlock(payload: Payload)
    | PutOp(tokens: seq<nat>, checkpoint: Checkpoint, putDisk: Disk)
    | LookupOp(wanted: seq<nat>, lookupDisk: Disk)
    | ClearOp(dropSpilled: bool)

  // What a caller owes: a checkpoint of the tokens it names, whose blocks are in the store.
  predicate Allowed(st: State, op: Op) {
    match op
    case PutOp(tokens, cp, _) => AreTokens(tokens) && cp.covers <= tokens && Live(st.store, cp.blocks)
    case _ => true
  }

  function Step(cfg: Config, st: State, op: Op): (r: State)
    requires Wf(cfg, st) && cfg.hashing.blockSize >= 1 && Allowed(st, op)
    ensures Wf(cfg, r)
  {
    match op
    case StoreBlock(payload) =>
      StoreKeeps(cfg, st, payload);
      st.(store := BlockStore.Insert(st.store, payload, payload.nbytes))
    case PutOp(tokens, cp, disk) => Put(cfg, st, tokens, cp, disk).0
    case LookupOp(tokens, disk) => Lookup(cfg, st, tokens, disk).0
    case ClearOp(drop) =>
      ClearKeeps(cfg, st, drop);
      Clear(cfg, st, drop)
  }

  lemma StoreKeeps(cfg: Config, st: State, payload: Payload)
    requires Wf(cfg, st)
    ensures Wf(cfg, st.(store := BlockStore.Insert(st.store, payload, payload.nbytes)))
  {
    hide NamesOnly, Named, Held, FileBytes;
    PutValid(st.store, payload, payload.nbytes);
  }

  // The state a run of operations reaches, if each was allowed when its turn came.
  function Run(cfg: Config, ops: seq<Op>): (r: Option<State>)
    requires cfg.hashing.blockSize >= 1
    ensures r.Some? ==> Wf(cfg, r.value)
    decreases |ops|
  {
    if ops == [] then
      assert Held([]) == multiset{};
      Some(INITIAL)
    else
      var before := Run(cfg, ops[..|ops| - 1]);
      if before.Some? && Allowed(before.value, ops[|ops| - 1]) then Some(Step(cfg, before.value, ops[|ops| - 1])) else None
  }

  /** In every state a run reaches, each block's count is its mentions in resident checkpoints, no
      resident checkpoint names a freed block, and both byte counters are the sums they stand for. */
  lemma RunsStayCounted(cfg: Config, ops: seq<Op>)
    requires cfg.hashing.blockSize >= 1 && Run(cfg, ops).Some?
    ensures var st := Run(cfg, ops).value;
      && (forall k :: k in st.store.slots ==> st.store.slots[k].refs == Held(st.entries)[k])
      && (forall i :: 0 <= i < |st.entries| ==> Live(st.store, st.entries[i].checkpoint.blocks))
      && st.store.bytes == SizeBelow(st.store.slots, st.store.next)
      && st.spilledBytes == FileBytes(st.spilled) <= cfg.spillCapacity
  {
    hide Run;
    var st := Run(cfg, ops).value;
    forall i | 0 <= i < |st.entries| ensures Live(st.store, st.entries[i].checkpoint.blocks) {
      ResidentIsLive(st, i);
    }
  }
}
