// Which checkpoints the prefix cache lets go of first, told from the history of what was used.
module PrefixRecency {
  import opened Options
  import opened HostCopies
  import opened BlockStore
  import opened PrefixHash
  import opened PrefixCache
  import opened PrefixLookup

  // ---- sequences of names in the order of a log ---------------------------------------------------------------

  // When a name was last logged, counting from one; zero if it never was.
  function LastIn(log: seq<Key>, k: Key): (n: nat)
    ensures n <= |log|
  {
    if log == [] then 0 else if log[|log| - 1] == k then |log| else LastIn(log[..|log| - 1], k)
  }

  // Every one of these was logged, the ones further back longer ago.
  predicate InOrder(keys: seq<Key>, log: seq<Key>) {
    && (forall i :: 0 <= i < |keys| ==> LastIn(log, keys[i]) > 0)
    && forall i, j :: 0 <= i < j < |keys| ==> LastIn(log, keys[i]) < LastIn(log, keys[j])
  }

  function Gone(keys: seq<Key>, u: Key): seq<Key> {
    if keys == [] then []
    else Gone(keys[..|keys| - 1], u) + if keys[|keys| - 1] == u then [] else [keys[|keys| - 1]]
  }

  // `u` taken out of its place, if it has one, and put last.
  function Moved(keys: seq<Key>, u: Key): seq<Key> {
    Gone(keys, u) + [u]
  }

  predicate IsSuffix(b: seq<Key>, a: seq<Key>) {
    |b| <= |a| && b == a[|a| - |b|..]
  }

  lemma LoggedMore(log: seq<Key>, u: Key, k: Key)
    ensures LastIn(log + [u], k) == if k == u then |log| + 1 else LastIn(log, k)
  {
    assert (log + [u])[..|log|] == log;
  }

  lemma {:induction false} GoneMember(keys: seq<Key>, u: Key, i: nat)
    requires i < |Gone(keys, u)|
    ensures Gone(keys, u)[i] in keys && Gone(keys, u)[i] != u
    decreases |keys|
  {
    var n := |keys| - 1;
    if i < |Gone(keys[..n], u)| {
      GoneMember(keys[..n], u, i);
    }
  }

  lemma {:induction false} GoneInOrder(keys: seq<Key>, log: seq<Key>, u: Key)
    requires InOrder(keys, log)
    ensures InOrder(Gone(keys, u), log)
    decreases |keys|
  {
    hide LastIn;
    if keys != [] {
      var n := |keys| - 1;
      GoneInOrder(keys[..n], log, u);
      var rest := Gone(keys[..n], u);
      forall i | 0 <= i < |rest| ensures LastIn(log, rest[i]) < LastIn(log, keys[n]) {
        GoneMember(keys[..n], u, i);
        var j :| 0 <= j < n && keys[..n][j] == rest[i];
      }
    }
  }

  lemma MovedInOrder(keys: seq<Key>, log: seq<Key>, u: Key)
    requires InOrder(keys, log)
    ensures InOrder(Moved(keys, u), log + [u])
  {
    GoneInOrder(keys, log, u);
    var rest := Gone(keys, u);
    hide LastIn, Gone;
    LoggedMore(log, u, u);
    forall i | 0 <= i < |rest|
      ensures LastIn(log + [u], rest[i]) == LastIn(log, rest[i]) && LastIn(log, rest[i]) < LastIn(log + [u], u)
    {
      GoneMember(keys, u, i);
      LoggedMore(log, u, rest[i]);
    }
  }

  lemma SuffixInOrder(b: seq<Key>, a: seq<Key>, log: seq<Key>)
    requires InOrder(a, log) && IsSuffix(b, a)
    ensures InOrder(b, log)
  {}

  lemma OthersInOrder(keys: seq<Key>, log: seq<Key>, u: Key)
    requires InOrder(keys, log) && u !in keys
    ensures InOrder(keys, log + [u])
  {
    hide LastIn;
    forall i | 0 <= i < |keys| ensures LastIn(log + [u], keys[i]) == LastIn(log, keys[i]) {
      LoggedMore(log, u, keys[i]);
    }
  }

  lemma {:induction false} GoneAbsent(keys: seq<Key>, u: Key)
    requires forall i :: 0 <= i < |keys| ==> keys[i] != u
    ensures Gone(keys, u) == keys
    decreases |keys|
  {
    if keys != [] {
      var n := |keys| - 1;
      GoneAbsent(keys[..n], u);
      assert keys[..n] + [keys[n]] == keys;
    }
  }

  lemma {:induction false} GoneJoin(a: seq<Key>, b: seq<Key>, u: Key)
    ensures Gone(a + b, u) == Gone(a, u) + Gone(b, u)
    decreases |b|
  {
    if b == [] {
      assert a + b == a;
    } else {
      var n := |b| - 1;
      assert (a + b)[..|a + b| - 1] == a + b[..n];
      GoneJoin(a, b[..n], u);
    }
  }

  // Moving to the end a name that stands once.
  lemma MovedFrom(a: seq<Key>, u: Key, b: seq<Key>)
    requires (forall i :: 0 <= i < |a| ==> a[i] != u) && forall i :: 0 <= i < |b| ==> b[i] != u
    ensures Gone(a + ([u] + b), u) == a + b && Moved(a + ([u] + b), u) == (a + b) + [u]
  {
    hide Gone;
    GoneJoin(a, [u] + b, u);
    GoneJoin([u], b, u);
    GoneAbsent(a, u);
    GoneAbsent(b, u);
    GoneItself(u);
    assert [] + b == b;
  }

  lemma GoneItself(u: Key)
    ensures Gone([u], u) == []
  {
    assert [u][..0] == [];
  }

  // ---- the names in the cache -----------------------------------------------------------------------------------

  function Names(entries: seq<Entry>): (r: seq<Key>)
    ensures |r| == |entries| && forall i :: 0 <= i < |r| ==> r[i] == entries[i].key
  {
    seq(|entries|, i requires 0 <= i < |entries| => entries[i].key)
  }

  function FileNames(files: seq<OnDisk>): (r: seq<Key>)
    ensures |r| == |files| && forall i :: 0 <= i < |r| ==> r[i] == files[i].key
  {
    seq(|files|, i requires 0 <= i < |files| => files[i].key)
  }

  lemma EntryToEnd(entries: seq<Entry>, at: nat)
    requires DistinctEntries(entries) && at < |entries|
    ensures Names(ToEnd(entries, at)) == Moved(Names(entries), entries[at].key)
  {
    hide Moved, ToEnd, Gone;
    var a, e, b := entries[..at], entries[at], entries[at + 1..];
    MovedFrom(Names(a), e.key, Names(b));
    hide Names;
    AroundOne(entries, at);
    NamesJoin(a, [e] + b);
    NamesJoin([e], b);
    NamesJoin(a, b);
    NamesJoin(a + b, [e]);
    OneName(e);
  }

  lemma NamesJoin(a: seq<Entry>, b: seq<Entry>)
    ensures Names(a + b) == Names(a) + Names(b)
  {}

  lemma OneName(e: Entry)
    ensures Names([e]) == [e.key]
  {}

  lemma FileNamesJoin(a: seq<OnDisk>, b: seq<OnDisk>)
    ensures FileNames(a + b) == FileNames(a) + FileNames(b)
  {}

  lemma OneFileName(f: OnDisk)
    ensures FileNames([f]) == [f.key]
  {}

  lemma FileToEnd(files: seq<OnDisk>, at: nat)
    requires DistinctFiles(files) && at < |files|
    ensures FileNames(ToEnd(files, at)) == Moved(FileNames(files), files[at].key)
    ensures FileNames(Without(files, at)) == Gone(FileNames(files), files[at].key)
  {
    hide Gone, Moved, ToEnd;
    var a, f, b := files[..at], files[at], files[at + 1..];
    MovedFrom(FileNames(a), f.key, FileNames(b));
    hide FileNames;
    AroundOne(files, at);
    FileNamesJoin(a, [f] + b);
    FileNamesJoin([f], b);
    FileNamesJoin(a, b);
    FileNamesJoin(a + b, [f]);
    OneFileName(f);
  }

  lemma NoSuchEntry(entries: seq<Entry>, key: Key)
    requires Find(entries, key).None?
    ensures key !in Names(entries) && Moved(Names(entries), key) == Names(entries) + [key]
  {
    GoneAbsent(Names(entries), key);
  }

  lemma NoSuchFile(files: seq<OnDisk>, key: Key)
    requires FindFile(files, key).None?
    ensures key !in FileNames(files) && Moved(FileNames(files), key) == FileNames(files) + [key]
  {
    GoneAbsent(FileNames(files), key);
  }

  // ---- what one operation does to the order --------------------------------------------------------------------

  lemma EvictNames(cfg: Config, st: State, protect: Option<Key>, disk: Disk)
    requires Wf(cfg, st)
    ensures IsSuffix(Names(EvictToFit(cfg, st, protect, disk).entries), Names(st.entries))
  {
    hide Wf, EvictToFit, Names;
    EvictionEnds(cfg, st, protect, disk);
    var r := EvictToFit(cfg, st, protect, disk);
    NamesFrom(st.entries, |st.entries| - |r.entries|);
  }

  lemma NamesFrom(entries: seq<Entry>, n: nat)
    requires n <= |entries|
    ensures Names(entries[n..]) == Names(entries)[n..] && |Names(entries)| == |entries|
      && |Names(entries[n..])| == |entries| - n
  {}

  lemma DistinctIn(cfg: Config, st: State)
    requires Wf(cfg, st)
    ensures DistinctEntries(st.entries) && DistinctFiles(st.spilled)
  {}

  lemma LoadNames(cfg: Config, st: State, key: Key, disk: Disk)
    requires Wf(cfg, st) && Find(st.entries, key).None?
    ensures var (r, cp) := LoadSpilled(cfg, st, key, disk);
      && (cp.None? ==> r.entries == st.entries)
      && (cp.Some? ==> IsSuffix(Names(r.entries), Moved(Names(st.entries), key)) && r.entries != []
                       && r.entries[|r.entries| - 1].key == key)
  {
    hide Wf, PutAll, Acquire, Find, FindFile, EvictToFit, Names, Moved;
    var at := FindFile(st.spilled, key);
    if at.Some? && disk.readable(key) {
      LoadedIsLive(cfg, st, key, disk);
      var file := st.spilled[at.value];
      var cp := Checkpoint(file.covers, NewKeys(st.store, |file.payloads|), file.residentBytes);
      LoadKeeps(cfg, st, at.value);
      var admitted := Admit(cfg, st.(store := PutAll(st.store, file.payloads)), key, cp)
                        .(spilled := ToEnd(st.spilled, at.value));
      EvictNames(cfg, admitted, Some(key), disk);
      NamesJoin(st.entries, [Entry(key, cp)]);
      OneName(Entry(key, cp));
      NoSuchEntry(st.entries, key);
    }
  }

  // Moving to the end what is there already.
  lemma LastStays(entries: seq<Entry>, at: nat)
    requires DistinctEntries(entries) && at < |entries| && entries[|entries| - 1].key == entries[at].key
    ensures ToEnd(entries, at) == entries
  {}

  lemma TryNames(cfg: Config, st: State, tokens: seq<nat>, d: nat, n: nat, disk: Disk)
    requires Wf(cfg, st) && cfg.hashing.Ideal() && AreTokens(tokens) && cfg.hashing.At(d) <= |tokens| && n <= |tokens|
    ensures var (r, cp) := TryLength(cfg, st, tokens, d, n, disk);
      && (cp.None? ==> r.entries == st.entries)
      && (cp.Some? ==> cfg.hashing.blockSize >= 1 && Used(st, r, cfg.hashing.KeyFor(tokens, n)))
  {
    hide Hashing.At, Hashing.Chain, Hashing.Ideal, Hashing.Depth, Hashing.KeyFor, Wf, NamesOnly, LoadSpilled,
      SliceTail, Names, Find, FindFile, Moved, ToEnd;
    BlocksAreReal(cfg);
    var link := cfg.hashing.Chain(tokens, d);
    if link in st.index && n in st.index[link]
      && SliceTail(cfg.hashing, tokens, cfg.hashing.At(d), n) == st.index[link][n] {
      ConfirmedName(cfg, st, tokens, d, n);
      var key := Key(link, st.index[link][n]);
      var at := Find(st.entries, key);
      if at.Some? {
        EntryCovers(cfg, st, tokens, n, at.value);
        DistinctIn(cfg, st);
        EntryToEnd(st.entries, at.value);
        WholeSuffix(Moved(Names(st.entries), key));
      } else {
        LoadNames(cfg, st, key, disk);
        LoadCovers(cfg, st, tokens, n, disk);
        var loaded := LoadSpilled(cfg, st, key, disk);
        if loaded.1.Some? {
          DistinctIn(cfg, loaded.0);
          var there := Find(loaded.0.entries, key);
          LastStays(loaded.0.entries, there.value);
        }
      }
    }
  }

  lemma WholeSuffix(a: seq<Key>)
    ensures IsSuffix(a, a)
  {}

  lemma EntryCovers(cfg: Config, st: State, tokens: seq<nat>, n: nat, at: nat)
    requires Wf(cfg, st) && cfg.hashing.Ideal() && AreTokens(tokens) && n <= |tokens| && at < |st.entries|
    requires cfg.hashing.blockSize >= 1 && st.entries[at].key == cfg.hashing.KeyFor(tokens, n)
    ensures |st.entries[at].checkpoint.covers| == n
  {
    hide Hashing.KeyFor, Hashing.Ideal, Counted, Held, Named, NamesOnly;
    NameCovers(cfg, st.entries[at].key, st.entries[at].checkpoint.covers, tokens, n);
  }

  lemma LoadCovers(cfg: Config, st: State, tokens: seq<nat>, n: nat, disk: Disk)
    requires Wf(cfg, st) && cfg.hashing.Ideal() && AreTokens(tokens) && n <= |tokens| && cfg.hashing.blockSize >= 1
    requires Find(st.entries, cfg.hashing.KeyFor(tokens, n)).None?
    ensures var cp := LoadSpilled(cfg, st, cfg.hashing.KeyFor(tokens, n), disk).1;
      cp.Some? ==> |cp.value.covers| == n
  {
    hide Hashing.KeyFor, Hashing.Ideal, Counted, Held, Named, NamesOnly, Find, FindFile, LoadSpilled;
    var key := cfg.hashing.KeyFor(tokens, n);
    if LoadSpilled(cfg, st, key, disk).1.Some? {
      LoadedIsLive(cfg, st, key, disk);
      var file := st.spilled[FindFile(st.spilled, key).value];
      NameCovers(cfg, key, file.covers, tokens, n);
    }
  }

  // From `st` to `r` this name was used: it is last, the others have kept their order, and only the first may
  // have gone; none has gone if it was resident before.
  predicate Used(st: State, r: State, key: Key) {
    && IsSuffix(Names(r.entries), Moved(Names(st.entries), key))
    && (Find(st.entries, key).Some? ==> Names(r.entries) == Moved(Names(st.entries), key))
  }

  lemma {:induction false} LengthsNames(cfg: Config, st: State, tokens: seq<nat>, d: nat, n: nat, disk: Disk)
    requires Wf(cfg, st) && cfg.hashing.Ideal() && AreTokens(tokens) && cfg.hashing.At(d) <= |tokens| && n <= |tokens| + 1
    ensures var (r, m) := ScanLengths(cfg, st, tokens, d, n, disk);
      && (m.None? ==> r.entries == st.entries)
      && (m.Some? ==> m.value.length <= |tokens| && cfg.hashing.blockSize >= 1
                      && Used(st, r, cfg.hashing.KeyFor(tokens, m.value.length)))
    decreases n
  {
    hide Hashing.At, Hashing.Ideal, Hashing.KeyFor, Wf, TryLength, Names, Moved, Find;
    if n > 0 {
      TryNames(cfg, st, tokens, d, n - 1, disk);
      var tried := TryLength(cfg, st, tokens, d, n - 1, disk);
      if tried.1.None? { LengthsNames(cfg, tried.0, tokens, d, n - 1, disk); }
    }
  }

  lemma {:induction false} DepthsNames(cfg: Config, st: State, tokens: seq<nat>, d: nat, disk: Disk)
    requires Wf(cfg, st) && cfg.hashing.Ideal() && AreTokens(tokens) && cfg.hashing.At(d) <= |tokens|
    ensures var (r, m) := ScanDepths(cfg, st, tokens, d, disk);
      && (m.None? ==> r.entries == st.entries)
      && (m.Some? ==> m.value.length <= |tokens| && cfg.hashing.blockSize >= 1
                      && Used(st, r, cfg.hashing.KeyFor(tokens, m.value.length)))
    decreases d
  {
    hide Hashing.At, Hashing.Ideal, Hashing.KeyFor, Wf, ScanLengths, Names, Moved, Find;
    LengthsNames(cfg, st, tokens, d, |tokens| + 1, disk);
    var found := ScanLengths(cfg, st, tokens, d, |tokens| + 1, disk);
    if found.1.None? && d > 0 {
      Grows(cfg.hashing, d - 1, d);
      DepthsNames(cfg, found.0, tokens, d - 1, disk);
    }
  }

  lemma LookupNames(cfg: Config, st: State, tokens: seq<nat>, disk: Disk)
    requires Wf(cfg, st) && cfg.hashing.Ideal() && AreTokens(tokens)
    ensures cfg.hashing.blockSize >= 1
    ensures var (r, m) := Lookup(cfg, st, tokens, disk);
      && (m.None? ==> r.entries == st.entries)
      && (m.Some? ==> m.value.length <= |tokens| && Used(st, r, cfg.hashing.KeyFor(tokens, m.value.length)))
  {
    BlocksAreReal(cfg);
    hide Hashing.Ideal, Hashing.KeyFor, Wf, ScanDepths, Names, Moved, Find;
    if cfg.capacity > 0 { DepthsNames(cfg, st, tokens, cfg.hashing.Depth(|tokens|), disk); }
  }

  lemma PutNames(cfg: Config, st: State, tokens: seq<nat>, cp: Checkpoint, disk: Disk)
    requires Wf(cfg, st) && cfg.hashing.blockSize >= 1
    requires AreTokens(tokens) && cp.covers <= tokens && Live(st.store, cp.blocks)
    ensures var r := Put(cfg, st, tokens, cp, disk).0;
      if cfg.capacity == 0 || cp.covers == [] then r == st else Used(st, r, cfg.hashing.KeyFor(tokens, |cp.covers|))
  {
    hide Wf, Hashing.KeyFor, EvictToFit, Names, Moved, Find, ToEnd, Acquire;
    if cfg.capacity > 0 && cp.covers != [] {
      var key := cfg.hashing.KeyFor(tokens, |cp.covers|);
      var at := Find(st.entries, key);
      if at.Some? {
        DistinctIn(cfg, st);
        EntryToEnd(st.entries, at.value);
        WholeSuffix(Moved(Names(st.entries), key));
      } else {
        PutKeeps(cfg, st, tokens, cp);
        EvictNames(cfg, Admit(cfg, st, key, cp).(index := Listed(st.index, key, |cp.covers|)), None, disk);
        NamesJoin(st.entries, [Entry(key, cp)]);
        OneName(Entry(key, cp));
        NoSuchEntry(st.entries, key);
      }
    }
  }

  // ---- over whole runs ------------------------------------------------------------------------------------------------

  // Tokens are 32-bit, in lookups as in puts.
  predicate AsksTokens(ops: seq<Op>) {
    forall i :: 0 <= i < |ops| && ops[i].LookupOp? ==> AreTokens(ops[i].wanted)
  }

  // The name an operation put, put again, or returned.
  function UsedBy(cfg: Config, st: State, op: Op): Option<Key>
    requires Wf(cfg, st) && cfg.hashing.blockSize >= 1 && Allowed(st, op)
  {
    match op
    case PutOp(tokens, cp, disk) =>
      if cfg.capacity == 0 || cp.covers == [] then None else Some(cfg.hashing.KeyFor(tokens, |cp.covers|))
    case LookupOp(tokens, disk) =>
      var m := Lookup(cfg, st, tokens, disk).1;
      if m.Some? && m.value.length <= |tokens| then Some(cfg.hashing.KeyFor(tokens, m.value.length)) else None
    case _ => None
  }

  // The names used by a run, one after another.
  function Uses(cfg: Config, ops: seq<Op>): seq<Key>
    requires cfg.hashing.blockSize >= 1 && Run(cfg, ops).Some?
    decreases |ops|
  {
    if ops == [] then []
    else
      var before := ops[..|ops| - 1];
      var u := UsedBy(cfg, Run(cfg, before).value, ops[|ops| - 1]);
      Uses(cfg, before) + if u.Some? then [u.value] else []
  }

  lemma StepNames(cfg: Config, st: State, op: Op)
    requires Wf(cfg, st) && cfg.hashing.Ideal() && cfg.hashing.blockSize >= 1 && Allowed(st, op) && AsksTokens([op])
    ensures var r, u := Step(cfg, st, op), UsedBy(cfg, st, op);
      && (op.ClearOp? ==> r.entries == [])
      && (u.Some? ==> Used(st, r, u.value))
      && (u.None? && !op.ClearOp? ==> r.entries == st.entries)
  {
    hide Wf, Hashing.Ideal, Hashing.KeyFor, Put, Lookup, Used, ReleaseAll;
    match op
    case StoreBlock(payload) =>
    case PutOp(tokens, cp, disk) => PutNames(cfg, st, tokens, cp, disk);
    case LookupOp(tokens, disk) =>
      assert AreTokens([op][0].wanted);
      LookupNames(cfg, st, tokens, disk);
    case ClearOp(drop) =>
  }

  lemma UsedInOrder(st: State, r: State, key: Key, log: seq<Key>)
    requires Used(st, r, key) && InOrder(Names(st.entries), log)
    ensures InOrder(Names(r.entries), log + [key])
  {
    hide Names, Find, InOrder, Moved;
    MovedInOrder(Names(st.entries), log, key);
    SuffixInOrder(Names(r.entries), Moved(Names(st.entries), key), log + [key]);
  }

  /** In every state a run reaches, the resident checkpoints stand in the order in which they were last put, put
      again or returned, the longest ago first. */
  lemma {:induction false} EntriesByUse(cfg: Config, ops: seq<Op>)
    requires cfg.hashing.Ideal() && cfg.hashing.blockSize >= 1 && Run(cfg, ops).Some? && AsksTokens(ops)
    ensures InOrder(Names(Run(cfg, ops).value.entries), Uses(cfg, ops))
    decreases |ops|
  {
    hide Wf, Hashing.Ideal, Step, UsedBy, Used, InOrder, Allowed;
    if ops == [] {
      NothingInOrder([]);
    } else {
      var before, op := ops[..|ops| - 1], ops[|ops| - 1];
      EntriesByUse(cfg, before);
      var st := Run(cfg, before).value;
      StepNames(cfg, st, op);
      var u := UsedBy(cfg, st, op);
      if u.Some? {
        UsedInOrder(st, Step(cfg, st, op), u.value, Uses(cfg, before));
      } else {
        assert Uses(cfg, ops) == Uses(cfg, before);
        if op.ClearOp? { NothingInOrder(Uses(cfg, before)); }
      }
    }
  }

  lemma NothingInOrder(log: seq<Key>)
    ensures InOrder(Names([]), log) && InOrder(FileNames([]), log)
  {}

  lemma {:induction false} GoneKeeps(keys: seq<Key>, u: Key, k: Key)
    requires k in keys && k != u
    ensures k in Gone(keys, u)
    decreases |keys|
  {
    if keys[|keys| - 1] != k { GoneKeeps(keys[..|keys| - 1], u, k); }
  }

  lemma LeavesFirst(a: seq<Key>, b: seq<Key>, log: seq<Key>, gone: Key, stays: Key)
    requires IsSuffix(b, a) && InOrder(a, log) && gone in a && gone !in b && stays in b
    ensures LastIn(log, gone) < LastIn(log, stays)
  {
    var i :| 0 <= i < |a| && a[i] == gone;
    var j :| 0 <= j < |b| && b[j] == stays;
    assert a[|a| - |b| + j] == stays;
    forall k | |a| - |b| <= k < |a| ensures a[k] != gone { assert b[k - (|a| - |b|)] == a[k]; }
  }

  /** So what goes to make room is always what was used longest ago: of two resident checkpoints the operation did
      not itself use, the one that leaves was last put or returned before the one that stays. */
  lemma LeastRecentGoes(cfg: Config, ops: seq<Op>, op: Op, gone: Key, stays: Key)
    requires cfg.hashing.Ideal() && cfg.hashing.blockSize >= 1 && Run(cfg, ops).Some? && AsksTokens(ops) && AsksTokens([op])
    requires Allowed(Run(cfg, ops).value, op) && !op.ClearOp?
    requires var st, r := Run(cfg, ops).value, Step(cfg, Run(cfg, ops).value, op);
      && Find(st.entries, gone).Some? && Find(r.entries, gone).None?
      && Find(st.entries, stays).Some? && Find(r.entries, stays).Some?
      && UsedBy(cfg, st, op) != Some(stays)
    ensures LastIn(Uses(cfg, ops), gone) < LastIn(Uses(cfg, ops), stays)
  {
    hide Wf, Hashing.Ideal, Step, Find, LastIn, Moved, Gone, Allowed, UsedBy, InOrder, Run, Uses;
    var st := Run(cfg, ops).value;
    var r, log, u := Step(cfg, st, op), Uses(cfg, ops), UsedBy(cfg, st, op);
    EntriesByUse(cfg, ops);
    StepNames(cfg, st, op);
    var a, b := Names(st.entries), Names(r.entries);
    assert gone in a && gone !in b && stays in a && stays in b by {
      assert a[Find(st.entries, gone).value] == gone && a[Find(st.entries, stays).value] == stays;
      assert b[Find(r.entries, stays).value] == stays;
    }
    assert u.Some?;
    MovedInOrder(a, log, u.value);
    MovedHolds(a, u.value, gone);
    LeavesFirst(Moved(a, u.value), b, log + [u.value], gone, stays);
    UsedStays(st, r, u.value);
    LoggedMore(log, u.value, gone);
    LoggedMore(log, u.value, stays);
  }

  lemma UsedStays(st: State, r: State, key: Key)
    requires Used(st, r, key)
    ensures Find(st.entries, key).Some? ==> key in Names(r.entries)
  {
    hide Find;
    if Find(st.entries, key).Some? {
      assert Names(r.entries)[|Gone(Names(st.entries), key)|] == key;
    }
  }

  lemma MovedHolds(a: seq<Key>, u: Key, k: Key)
    requires k in a
    ensures k in Moved(a, u)
  {
    if k != u { GoneKeeps(a, u, k); }
  }

  /** A resident checkpoint that is returned or put again is last from then on, and nothing else changes places. */
  lemma HitIsLast(cfg: Config, st: State, op: Op)
    requires Wf(cfg, st) && cfg.hashing.Ideal() && cfg.hashing.blockSize >= 1 && Allowed(st, op) && AsksTokens([op])
    requires var u := UsedBy(cfg, st, op); u.Some? && Find(st.entries, u.value).Some?
    ensures var r, key := Step(cfg, st, op), UsedBy(cfg, st, op).value;
      && r.entries != [] && r.entries[|r.entries| - 1].key == key
      && Gone(Names(r.entries), key) == Gone(Names(st.entries), key)
      && Find(r.entries, key) == Some(|r.entries| - 1)
  {
    hide Wf, Hashing.Ideal, Step, UsedBy, Gone, Find;
    StepNames(cfg, st, op);
    var r, key := Step(cfg, st, op), UsedBy(cfg, st, op).value;
    var rest := Gone(Names(st.entries), key);
    forall i | 0 <= i < |rest| ensures rest[i] != key { GoneMember(Names(st.entries), key, i); }
    GoneAbsent(rest, key);
    GoneJoin(rest, [key], key);
    GoneItself(key);
    assert Names(r.entries) == rest + [key];
    assert Names(r.entries)[|r.entries| - 1] == key;
    DistinctIn(cfg, r);
    DistinctFind(r.entries, |r.entries| - 1);
  }

  lemma DistinctFind(entries: seq<Entry>, at: nat)
    requires DistinctEntries(entries) && at < |entries|
    ensures Find(entries, entries[at].key) == Some(at)
  {
    hide Find;
    assert entries[at].key == entries[at].key;
  }

  // ---- the files on disk -------------------------------------------------------------------------------------------

  predicate Files(cfg: Config) {
    cfg.hasSpillDir && cfg.spillCapacity > 0
  }

  // Files in the order of the log, and none when storage is off.
  predicate Filed(cfg: Config, files: seq<OnDisk>, log: seq<Key>) {
    InOrder(FileNames(files), log) && (Files(cfg) || files == [])
  }

  lemma SpillFiles(cfg: Config, st: State, e: Entry, disk: Disk, log: seq<Key>)
    requires Live(st.store, e.checkpoint.blocks) && DistinctFiles(st.spilled) && Filed(cfg, st.spilled, log)
    ensures Filed(cfg, Spill(cfg, st, e, disk).spilled, log + [e.key])
  {
    hide FindFile, Trim, Payloads, ToEnd, InOrder, Moved, FileNames, DistinctFiles;
    var files, at := st.spilled, FindFile(st.spilled, e.key);
    if !Files(cfg) {
      NothingInOrder(log + [e.key]);
    } else if at.Some? {
      FileToEnd(files, at.value);
      MovedInOrder(FileNames(files), log, e.key);
    } else {
      NoSuchFile(files, e.key);
      if disk.written(e.key).None? {
        OthersInOrder(FileNames(files), log, e.key);
      } else {
        var file := OnDisk(e.key, disk.written(e.key).value, e.checkpoint.covers, Payloads(st.store, e.checkpoint.blocks),
                           e.checkpoint.residentBytes);
        MovedInOrder(FileNames(files), log, e.key);
        FileNamesJoin(files, [file]);
        OneFileName(file);
        TrimmedInOrder(cfg, files + [file], st.spilledBytes + file.size, log + [e.key]);
      }
    }
  }

  lemma TrimmedInOrder(cfg: Config, files: seq<OnDisk>, bytes: int, log: seq<Key>)
    requires InOrder(FileNames(files), log)
    ensures InOrder(FileNames(Trim(cfg, files, bytes).0), log)
  {
    hide InOrder, Trim;
    TrimIsSuffix(cfg, files, bytes);
    var kept := Trim(cfg, files, bytes).0;
    FileNamesFrom(files, |files| - |kept|);
    SuffixInOrder(FileNames(kept), FileNames(files), log);
  }

  lemma FileNamesFrom(files: seq<OnDisk>, n: nat)
    requires n <= |files|
    ensures FileNames(files[n..]) == FileNames(files)[n..]
  {}

  lemma OldestFiled(cfg: Config, st: State, disk: Disk, log: seq<Key>)
    requires Wf(cfg, st) && st.entries != [] && Filed(cfg, st.spilled, log)
    ensures Live(st.store, st.entries[0].checkpoint.blocks)
    ensures Filed(cfg, EvictOldest(cfg, st, disk).spilled, log + [st.entries[0].key])
  {
    EvictOldestKeeps(cfg, st, disk);
    hide Filed, Spill, Release, Forget, Counted, Held, NamesOnly, Named, FileBytes, FindFile;
    SpillFiles(cfg, st.(entries := st.entries[1..]), st.entries[0], disk, log);
  }

  lemma {:induction false} EvictFiles(cfg: Config, st: State, protect: Option<Key>, disk: Disk, log: seq<Key>)
    requires Wf(cfg, st) && Filed(cfg, st.spilled, log)
    ensures var r := EvictToFit(cfg, st, protect, disk);
      |r.entries| <= |st.entries| && Filed(cfg, r.spilled, log + Names(st.entries)[..|st.entries| - |r.entries|])
    decreases |st.entries|
  {
    hide Wf, EvictOldest, Filed, Names;
    EvictionEnds(cfg, st, protect, disk);
    var r := EvictToFit(cfg, st, protect, disk);
    if st.entries == [] || Bytes(st) <= cfg.capacity || protect == Some(st.entries[0].key) {
      NamesFrom(st.entries, 0);
      assert log + Names(st.entries)[..0] == log;
    } else {
      EvictOldestKeeps(cfg, st, disk);
      OldestFiled(cfg, st, disk, log);
      var next := EvictOldest(cfg, st, disk);
      EvictFiles(cfg, next, protect, disk, log + [st.entries[0].key]);
      NamesFrom(st.entries, 1);
      FirstName(st.entries);
      var n := |st.entries| - |r.entries|;
      assert log + [st.entries[0].key] + Names(next.entries)[..n - 1] == log + Names(st.entries)[..n];
    }
  }

  lemma FirstName(entries: seq<Entry>)
    requires entries != []
    ensures Names(entries)[0] == entries[0].key
  {}

  // The file read back, if any, and what was evicted to make room for it, are logged in that order.
  lemma LoadFiles(cfg: Config, st: State, key: Key, disk: Disk, log: seq<Key>)
    requires Wf(cfg, st) && Find(st.entries, key).None? && Filed(cfg, st.spilled, log)
    ensures var (r, cp) := LoadSpilled(cfg, st, key, disk);
      && (cp.None? ==> Filed(cfg, r.spilled, log))
      && (cp.Some? ==> |r.entries| <= |st.entries| + 1 && Filed(cfg, r.spilled, log + Loading(st, key, |r.entries|)))
  {
    hide Wf, PutAll, Acquire, Find, FindFile, EvictToFit, InOrder, Names, FileNames, ToEnd, Without, Moved;
    var at := FindFile(st.spilled, key);
    if at.Some? {
      DistinctIn(cfg, st);
      FileToEnd(st.spilled, at.value);
      if disk.readable(key) {
        var file := st.spilled[at.value];
        var cp := Checkpoint(file.covers, NewKeys(st.store, |file.payloads|), file.residentBytes);
        LoadKeeps(cfg, st, at.value);
        var admitted := Admit(cfg, st.(store := PutAll(st.store, file.payloads)), key, cp)
                          .(spilled := ToEnd(st.spilled, at.value));
        MovedInOrder(FileNames(st.spilled), log, key);
        EvictFiles(cfg, admitted, Some(key), disk, log + [key]);
        NamesJoin(st.entries, [Entry(key, cp)]);
        OneName(Entry(key, cp));
        var n := |EvictToFit(cfg, admitted, Some(key), disk).entries|;
        assert log + [key] + (Names(st.entries) + [key])[..|st.entries| + 1 - n] == log + Loading(st, key, n);
      } else {
        GoneInOrder(FileNames(st.spilled), log, key);
      }
    }
  }

  // A file read back, then the checkpoints that went for it until `n` were resident.
  function Loading(st: State, key: Key, n: nat): seq<Key>
    requires n <= |st.entries| + 1
  {
    [key] + (Names(st.entries) + [key])[..|st.entries| + 1 - n]
  }

  // What an operation wrote out or read back, in order: a checkpoint that was not resident when it was returned,
  // then whatever was evicted.
  function Filing(cfg: Config, st: State, op: Op): seq<Key>
    requires Wf(cfg, st) && cfg.hashing.blockSize >= 1 && Allowed(st, op)
  {
    var u, n := UsedBy(cfg, st, op), |Step(cfg, st, op).entries|;
    if u.None? || Find(st.entries, u.value).Some? || n > |st.entries| + 1 then []
    else if op.LookupOp? then Loading(st, u.value, n)
    else (Names(st.entries) + [u.value])[..|st.entries| + 1 - n]
  }

  lemma TryFiles(cfg: Config, st: State, tokens: seq<nat>, d: nat, n: nat, disk: Disk, log: seq<Key>)
    requires Wf(cfg, st) && cfg.hashing.Ideal() && AreTokens(tokens) && cfg.hashing.At(d) <= |tokens| && n <= |tokens|
    requires Filed(cfg, st.spilled, log)
    ensures cfg.hashing.blockSize >= 1
    ensures var (r, cp) := TryLength(cfg, st, tokens, d, n, disk);
      && (cp.None? ==> Filed(cfg, r.spilled, log))
      && (cp.Some? ==> Returned(cfg, st, r, cfg.hashing.KeyFor(tokens, n), log))
  {
    hide Hashing.At, Hashing.Chain, Hashing.Ideal, Hashing.Depth, Hashing.KeyFor, Wf, NamesOnly, LoadSpilled,
      SliceTail, Names, Find, FindFile, Filed, ToEnd;
    BlocksAreReal(cfg);
    var link := cfg.hashing.Chain(tokens, d);
    if link in st.index && n in st.index[link]
      && SliceTail(cfg.hashing, tokens, cfg.hashing.At(d), n) == st.index[link][n] {
      ConfirmedName(cfg, st, tokens, d, n);
      var key := Key(link, st.index[link][n]);
      var at := Find(st.entries, key);
      assert log + [] == log;
      if at.Some? {
        EntryCovers(cfg, st, tokens, n, at.value);
        SameLength(st.entries, at.value);
      } else {
        LoadFiles(cfg, st, key, disk, log);
        LoadNames(cfg, st, key, disk);
        LoadCovers(cfg, st, tokens, n, disk);
        var loaded := LoadSpilled(cfg, st, key, disk);
        if loaded.1.Some? {
          DistinctIn(cfg, loaded.0);
          LastStays(loaded.0.entries, Find(loaded.0.entries, key).value);
        }
      }
    }
  }

  lemma SameLength(entries: seq<Entry>, at: nat)
    requires at < |entries|
    ensures |ToEnd(entries, at)| == |entries|
  {}

  // From `st` to `r` this name was returned, and the files are in order once what that took is logged.
  predicate Returned(cfg: Config, st: State, r: State, key: Key, log: seq<Key>) {
    && |r.entries| <= |st.entries| + 1
    && Filed(cfg, r.spilled, log + if Find(st.entries, key).Some? then [] else Loading(st, key, |r.entries|))
  }

  lemma ReturnedAfter(cfg: Config, a: State, b: State, r: State, key: Key, log: seq<Key>)
    requires a.entries == b.entries && Returned(cfg, b, r, key, log)
    ensures Returned(cfg, a, r, key, log)
  {
    hide Filed, Find;
  }

  lemma {:induction false} LengthsFiles(cfg: Config, st: State, tokens: seq<nat>, d: nat, n: nat, disk: Disk, log: seq<Key>)
    requires Wf(cfg, st) && cfg.hashing.Ideal() && AreTokens(tokens) && cfg.hashing.At(d) <= |tokens| && n <= |tokens| + 1
    requires Filed(cfg, st.spilled, log)
    ensures cfg.hashing.blockSize >= 1
    ensures var (r, m) := ScanLengths(cfg, st, tokens, d, n, disk);
      && (m.None? ==> Filed(cfg, r.spilled, log))
      && (m.Some? ==> m.value.length <= |tokens|
                      && Returned(cfg, st, r, cfg.hashing.KeyFor(tokens, m.value.length), log))
    decreases n
  {
    hide Hashing.At, Hashing.Ideal, Hashing.KeyFor, Wf, TryLength, Names, Moved, Find, Filed, Returned;
    BlocksAreReal(cfg);
    if n > 0 {
      TryNames(cfg, st, tokens, d, n - 1, disk);
      TryFiles(cfg, st, tokens, d, n - 1, disk, log);
      var tried := TryLength(cfg, st, tokens, d, n - 1, disk);
      if tried.1.None? {
        LengthsFiles(cfg, tried.0, tokens, d, n - 1, disk, log);
        var (r, m) := ScanLengths(cfg, tried.0, tokens, d, n - 1, disk);
        if m.Some? { ReturnedAfter(cfg, st, tried.0, r, cfg.hashing.KeyFor(tokens, m.value.length), log); }
      }
    }
  }

  lemma {:induction false} DepthsFiles(cfg: Config, st: State, tokens: seq<nat>, d: nat, disk: Disk, log: seq<Key>)
    requires Wf(cfg, st) && cfg.hashing.Ideal() && AreTokens(tokens) && cfg.hashing.At(d) <= |tokens|
    requires Filed(cfg, st.spilled, log)
    ensures cfg.hashing.blockSize >= 1
    ensures var (r, m) := ScanDepths(cfg, st, tokens, d, disk);
      && (m.None? ==> Filed(cfg, r.spilled, log))
      && (m.Some? ==> m.value.length <= |tokens|
                      && Returned(cfg, st, r, cfg.hashing.KeyFor(tokens, m.value.length), log))
    decreases d
  {
    hide Hashing.At, Hashing.Ideal, Hashing.KeyFor, Wf, ScanLengths, Names, Moved, Find, Filed, Returned;
    LengthsNames(cfg, st, tokens, d, |tokens| + 1, disk);
    LengthsFiles(cfg, st, tokens, d, |tokens| + 1, disk, log);
    var found := ScanLengths(cfg, st, tokens, d, |tokens| + 1, disk);
    if found.1.None? && d > 0 {
      Grows(cfg.hashing, d - 1, d);
      DepthsFiles(cfg, found.0, tokens, d - 1, disk, log);
      var (r, m) := ScanDepths(cfg, found.0, tokens, d - 1, disk);
      if m.Some? { ReturnedAfter(cfg, st, found.0, r, cfg.hashing.KeyFor(tokens, m.value.length), log); }
    }
  }

  lemma PutFiles(cfg: Config, st: State, tokens: seq<nat>, cp: Checkpoint, disk: Disk, log: seq<Key>)
    requires Wf(cfg, st) && cfg.hashing.blockSize >= 1 && Allowed(st, PutOp(tokens, cp, disk))
      && Filed(cfg, st.spilled, log)
    ensures Filed(cfg, Put(cfg, st, tokens, cp, disk).0.spilled, log + Filing(cfg, st, PutOp(tokens, cp, disk)))
  {
    hide Wf, Hashing.KeyFor, EvictToFit, Names, Find, ToEnd, Acquire, Filed;
    var op := PutOp(tokens, cp, disk);
    assert log + [] == log;
    if cfg.capacity > 0 && cp.covers != [] {
      var key := cfg.hashing.KeyFor(tokens, |cp.covers|);
      if Find(st.entries, key).None? {
        PutKeeps(cfg, st, tokens, cp);
        var admitted := Admit(cfg, st, key, cp).(index := Listed(st.index, key, |cp.covers|));
        EvictFiles(cfg, admitted, None, disk, log);
        NamesJoin(st.entries, [Entry(key, cp)]);
        OneName(Entry(key, cp));
      }
    }
  }

  lemma LookupFiles(cfg: Config, st: State, tokens: seq<nat>, disk: Disk, log: seq<Key>)
    requires Wf(cfg, st) && cfg.hashing.Ideal() && AreTokens(tokens) && Filed(cfg, st.spilled, log)
    ensures cfg.hashing.blockSize >= 1
    ensures Filed(cfg, Lookup(cfg, st, tokens, disk).0.spilled, log + Filing(cfg, st, LookupOp(tokens, disk)))
  {
    BlocksAreReal(cfg);
    hide Hashing.Ideal, Hashing.KeyFor, Wf, Find, Filed, Lookup, Loading, Returned, Filing;
    assert log + [] == log;
    FilingIs(cfg, st, tokens, disk);
    FilesAfter(cfg, st, tokens, disk, log);
    var (r, m) := Lookup(cfg, st, tokens, disk);
    if m.Some? { ReturnedIs(cfg, st, r, cfg.hashing.KeyFor(tokens, m.value.length), log); }
  }

  lemma FilingIs(cfg: Config, st: State, tokens: seq<nat>, disk: Disk)
    requires Wf(cfg, st) && cfg.hashing.blockSize >= 1
    ensures var (r, m) := Lookup(cfg, st, tokens, disk);
      && (m.None? ==> Filing(cfg, st, LookupOp(tokens, disk)) == [])
      && (m.Some? && m.value.length <= |tokens| && |r.entries| <= |st.entries| + 1 ==>
            var key := cfg.hashing.KeyFor(tokens, m.value.length);
            Filing(cfg, st, LookupOp(tokens, disk))
            == if Find(st.entries, key).Some? then [] else Loading(st, key, |r.entries|))
  {
    hide Hashing.KeyFor, Wf, Find, Lookup, Loading;
  }

  lemma ReturnedIs(cfg: Config, st: State, r: State, key: Key, log: seq<Key>)
    requires Returned(cfg, st, r, key, log)
    ensures |r.entries| <= |st.entries| + 1
    ensures Filed(cfg, r.spilled, log + if Find(st.entries, key).Some? then [] else Loading(st, key, |r.entries|))
  {}

  lemma FilesAfter(cfg: Config, st: State, tokens: seq<nat>, disk: Disk, log: seq<Key>)
    requires Wf(cfg, st) && cfg.hashing.Ideal() && AreTokens(tokens) && Filed(cfg, st.spilled, log)
    ensures cfg.hashing.blockSize >= 1
    ensures var (r, m) := Lookup(cfg, st, tokens, disk);
      && (m.None? ==> Filed(cfg, r.spilled, log))
      && (m.Some? ==> m.value.length <= |tokens| && Returned(cfg, st, r, cfg.hashing.KeyFor(tokens, m.value.length), log))
  {
    BlocksAreReal(cfg);
    hide Hashing.Ideal, Hashing.KeyFor, Wf, ScanDepths, Filed, Returned;
    if cfg.capacity > 0 { DepthsFiles(cfg, st, tokens, cfg.hashing.Depth(|tokens|), disk, log); }
  }

  // What a run wrote out and read back, one after another.
  function Filings(cfg: Config, ops: seq<Op>): seq<Key>
    requires cfg.hashing.blockSize >= 1 && Run(cfg, ops).Some?
    decreases |ops|
  {
    if ops == [] then []
    else
      var before := ops[..|ops| - 1];
      Filings(cfg, before) + Filing(cfg, Run(cfg, before).value, ops[|ops| - 1])
  }

  lemma StepFiles(cfg: Config, st: State, op: Op, log: seq<Key>)
    requires Wf(cfg, st) && cfg.hashing.Ideal() && cfg.hashing.blockSize >= 1 && Allowed(st, op) && AsksTokens([op])
    requires Filed(cfg, st.spilled, log)
    ensures Filed(cfg, Step(cfg, st, op).spilled, log + Filing(cfg, st, op))
  {
    hide Wf, Hashing.Ideal, Hashing.KeyFor, Put, Lookup, ReleaseAll, Filed, Find, Names;
    assert log + [] == log;
    match op
    case StoreBlock(payload) =>
    case PutOp(tokens, cp, disk) => PutFiles(cfg, st, tokens, cp, disk, log);
    case LookupOp(tokens, disk) =>
      assert AreTokens([op][0].wanted);
      LookupFiles(cfg, st, tokens, disk, log);
    case ClearOp(drop) => NothingFiled(cfg, log);
  }

  lemma NothingFiled(cfg: Config, log: seq<Key>)
    ensures Filed(cfg, [], log)
  {
    NothingInOrder(log);
  }

  /** And the files on disk stand in the order in which their checkpoints were last evicted or read back, so the
      file that goes to make room is the one of longest ago. */
  lemma {:induction false} FilesByUse(cfg: Config, ops: seq<Op>)
    requires cfg.hashing.Ideal() && cfg.hashing.blockSize >= 1 && Run(cfg, ops).Some? && AsksTokens(ops)
    ensures InOrder(FileNames(Run(cfg, ops).value.spilled), Filings(cfg, ops))
    ensures Filed(cfg, Run(cfg, ops).value.spilled, Filings(cfg, ops))
    decreases |ops|
  {
    hide Wf, Hashing.Ideal, Step, Filing, Filed, Allowed;
    if ops == [] {
      NothingFiled(cfg, []);
    } else {
      var before, op := ops[..|ops| - 1], ops[|ops| - 1];
      FilesByUse(cfg, before);
      StepFiles(cfg, Run(cfg, before).value, op, Filings(cfg, before));
    }
    FiledInOrder(cfg, Run(cfg, ops).value.spilled, Filings(cfg, ops));
  }

  lemma FiledInOrder(cfg: Config, files: seq<OnDisk>, log: seq<Key>)
    requires Filed(cfg, files, log)
    ensures InOrder(FileNames(files), log)
  {}

  // ---- no more than has to go --------------------------------------------------------------------------------------

  function EvictSome(cfg: Config, st: State, n: nat, disk: Disk): (r: State)
    requires Wf(cfg, st) && n <= |st.entries|
    ensures Wf(cfg, r)
    decreases n
  {
    if n == 0 then st
    else
      EvictOldestKeeps(cfg, st, disk);
      EvictSome(cfg, EvictOldest(cfg, st, disk), n - 1, disk)
  }

  /** Evictions stop as soon as what is left fits: short of each of them it did not. */
  lemma {:induction false} EvictsAsNeeded(cfg: Config, st: State, protect: Option<Key>, disk: Disk, n: nat)
    requires Wf(cfg, st)
    ensures var r := EvictToFit(cfg, st, protect, disk);
      && |r.entries| <= |st.entries|
      && r == EvictSome(cfg, st, |st.entries| - |r.entries|, disk)
      && (n < |st.entries| - |r.entries| ==> Bytes(EvictSome(cfg, st, n, disk)) > cfg.capacity)
    decreases |st.entries|
  {
    hide Wf, EvictOldest, Bytes;
    EvictionEnds(cfg, st, protect, disk);
    if !(st.entries == [] || Bytes(st) <= cfg.capacity || protect == Some(st.entries[0].key)) {
      EvictOldestKeeps(cfg, st, disk);
      EvictsAsNeeded(cfg, EvictOldest(cfg, st, disk), protect, disk, if n > 0 then n - 1 else 0);
    }
  }

  /** And so do the files: short of each that was dropped the rest were over the cap. */
  lemma {:induction false} TrimsAsNeeded(cfg: Config, files: seq<OnDisk>, bytes: int, n: nat)
    requires bytes == FileBytes(files) && n <= |files|
    ensures var kept := Trim(cfg, files, bytes).0;
      && |kept| <= |files| && kept == files[|files| - |kept|..] && FileBytes(kept) <= cfg.spillCapacity
      && (n < |files| - |kept| ==> FileBytes(files[n..]) > cfg.spillCapacity)
    decreases |files|
  {
    TrimKeeps(cfg, files, bytes);
    if files != [] && bytes > cfg.spillCapacity {
      if n > 0 {
        TrimsAsNeeded(cfg, files[1..], bytes - files[0].size, n - 1);
        assert files[n..] == files[1..][n - 1..];
      } else {
        assert files[0..] == files;
      }
    }
  }

  /** A file that cannot be read back is dropped, and nothing else changes. */
  lemma UnreadableIsDropped(cfg: Config, st: State, key: Key, disk: Disk)
    requires Wf(cfg, st) && Find(st.entries, key).None? && FindFile(st.spilled, key).Some? && !disk.readable(key)
    ensures var (r, cp) := LoadSpilled(cfg, st, key, disk);
      && cp.None? && FindFile(r.spilled, key).None? && FileNames(r.spilled) == Gone(FileNames(st.spilled), key)
      && r == st.(spilled := r.spilled, spilledBytes := r.spilledBytes)
  {
    hide Wf, FileNames, Gone;
    DistinctIn(cfg, st);
    var at := FindFile(st.spilled, key).value;
    FileToEnd(st.spilled, at);
    DroppedFile(st.spilled, at, key);
  }
}
