// What the prefix cache lists and returns, told from the history of what was put into it.
module PrefixHistory {
  import opened Options
  import opened BlockStore
  import opened PrefixHash
  import opened PrefixCache
  import opened PrefixLookup

  // ---- names a step leaves alone --------------------------------------------------------------------------

  // From `st` to `r` no name was listed or stored, and this one was unlisted only if it is stored no more.
  predicate Follows(st: State, r: State, key: Key, n: nat) {
    && (LeadsTo(r.index, key, n) ==> LeadsTo(st.index, key, n))
    && (LeadsTo(st.index, key, n) && Stored(r, key) ==> LeadsTo(r.index, key, n))
    && (Stored(r, key) ==> Stored(st, key))
  }

  lemma FollowsTwice(a: State, b: State, c: State, key: Key, n: nat)
    requires Follows(a, b, key, n) && Follows(b, c, key, n)
    ensures Follows(a, c, key, n)
  {
    hide LeadsTo, Stored;
  }

  lemma EvictionFollows(cfg: Config, st: State, protect: Option<Key>, disk: Disk, key: Key, n: nat)
    requires Wf(cfg, st)
    ensures Follows(st, EvictToFit(cfg, st, protect, disk), key, n)
  {
    hide Wf, EvictToFit, LeadsTo, Stored;
    EvictionIndex(cfg, st, protect, disk, key, n);
    StoredBefore(cfg, st, protect, disk, key);
  }

  lemma MovedEntry(entries: seq<Entry>, at: nat, key: Key)
    requires at < |entries|
    ensures Find(ToEnd(entries, at), key).Some? <==> Find(entries, key).Some?
  {
    hide Find;
    var moved := ToEnd(entries, at);
    if Find(entries, key).Some? {
      var i := Find(entries, key).value;
      assert moved[if i < at then i else if i == at then |moved| - 1 else i - 1].key == key;
    }
    if Find(moved, key).Some? {
      var i := Find(moved, key).value;
      assert entries[if i < at then i else if i == |moved| - 1 then at else i + 1].key == key;
    }
  }

  lemma MovedFile(files: seq<OnDisk>, at: nat, key: Key)
    requires at < |files|
    ensures FindFile(ToEnd(files, at), key).Some? <==> FindFile(files, key).Some?
  {
    hide FindFile;
    var moved := ToEnd(files, at);
    if FindFile(files, key).Some? {
      var i := FindFile(files, key).value;
      assert moved[if i < at then i else if i == at then |moved| - 1 else i - 1].key == key;
    }
    if FindFile(moved, key).Some? {
      var i := FindFile(moved, key).value;
      assert files[if i < at then i else if i == |moved| - 1 then at else i + 1].key == key;
    }
  }

  lemma TouchFollows(st: State, at: nat, key: Key, n: nat)
    requires at < |st.entries|
    ensures Follows(st, st.(entries := ToEnd(st.entries, at)), key, n)
  {
    hide Find, FindFile, ToEnd;
    MovedEntry(st.entries, at, key);
  }

  lemma AdmittedEntry(entries: seq<Entry>, e: Entry, key: Key)
    ensures Find(entries + [e], key).Some? <==> Find(entries, key).Some? || key == e.key
  {
    hide Find;
    if Find(entries, key).Some? {
      assert (entries + [e])[Find(entries, key).value].key == key;
    } else if key == e.key {
      assert (entries + [e])[|entries|].key == key;
    }
  }

  lemma LoadFollows(cfg: Config, st: State, loading: Key, disk: Disk, key: Key, n: nat)
    requires Wf(cfg, st) && Find(st.entries, loading).None?
    ensures Follows(st, LoadSpilled(cfg, st, loading, disk).0, key, n)
  {
    hide Wf, Find, FindFile, EvictToFit, PutAll, Acquire, ToEnd, Without;
    var at := FindFile(st.spilled, loading);
    if at.Some? {
      var file := st.spilled[at.value];
      if !disk.readable(loading) {
        FilesDistinct(cfg, st);
        DroppedFile(st.spilled, at.value, key);
      } else {
        var cp := Checkpoint(file.covers, NewKeys(st.store, |file.payloads|), file.residentBytes);
        LoadKeeps(cfg, st, at.value);
        var admitted := Admit(cfg, st.(store := PutAll(st.store, file.payloads)), loading, cp)
                          .(spilled := ToEnd(st.spilled, at.value));
        AdmittedEntry(st.entries, Entry(loading, cp), key);
        MovedFile(st.spilled, at.value, key);
        EvictionFollows(cfg, admitted, Some(loading), disk, key, n);
        assert Follows(st, admitted, key, n);
        FollowsTwice(st, admitted, EvictToFit(cfg, admitted, Some(loading), disk), key, n);
      }
    }
  }

  lemma FilesDistinct(cfg: Config, st: State)
    requires Wf(cfg, st)
    ensures DistinctFiles(st.spilled)
  {}

  lemma TryFollows(cfg: Config, st: State, tokens: seq<nat>, d: nat, m: nat, disk: Disk, key: Key, n: nat)
    requires Wf(cfg, st) && cfg.hashing.At(d) <= |tokens| && m <= |tokens|
    ensures Follows(st, TryLength(cfg, st, tokens, d, m, disk).0, key, n)
  {
    hide Wf, Find, FindFile, LoadSpilled, Hashing.Chain, Hashing.At, SliceTail, Follows;
    var link := cfg.hashing.Chain(tokens, d);
    SameFollows(st, key, n);
    if link in st.index && m in st.index[link]
      && SliceTail(cfg.hashing, tokens, cfg.hashing.At(d), m) == st.index[link][m] {
      var tried := Key(link, st.index[link][m]);
      var at := Find(st.entries, tried);
      if at.Some? {
        TouchFollows(st, at.value, key, n);
      } else {
        LoadFollows(cfg, st, tried, disk, key, n);
        var loaded := LoadSpilled(cfg, st, tried, disk).0;
        var there := Find(loaded.entries, tried);
        if there.Some? {
          TouchFollows(loaded, there.value, key, n);
          FollowsTwice(st, loaded, loaded.(entries := ToEnd(loaded.entries, there.value)), key, n);
        }
      }
    }
  }

  lemma SameFollows(st: State, key: Key, n: nat)
    ensures Follows(st, st, key, n)
  {}

  lemma {:induction false} LengthsFollow(cfg: Config, st: State, tokens: seq<nat>, d: nat, m: nat, disk: Disk,
                                         key: Key, n: nat)
    requires Wf(cfg, st) && cfg.hashing.At(d) <= |tokens| && m <= |tokens| + 1
    ensures Follows(st, ScanLengths(cfg, st, tokens, d, m, disk).0, key, n)
    decreases m
  {
    hide Wf, TryLength, Hashing.At, Follows;
    if m == 0 {
      SameFollows(st, key, n);
    } else {
      TryFollows(cfg, st, tokens, d, m - 1, disk, key, n);
      var tried := TryLength(cfg, st, tokens, d, m - 1, disk);
      if tried.1.None? {
        LengthsFollow(cfg, tried.0, tokens, d, m - 1, disk, key, n);
        FollowsTwice(st, tried.0, ScanLengths(cfg, tried.0, tokens, d, m - 1, disk).0, key, n);
      }
    }
  }

  lemma {:induction false} DepthsFollow(cfg: Config, st: State, tokens: seq<nat>, d: nat, disk: Disk, key: Key, n: nat)
    requires Wf(cfg, st) && cfg.hashing.At(d) <= |tokens|
    ensures Follows(st, ScanDepths(cfg, st, tokens, d, disk).0, key, n)
    decreases d
  {
    hide Wf, ScanLengths, Hashing.At, Follows;
    LengthsFollow(cfg, st, tokens, d, |tokens| + 1, disk, key, n);
    var found := ScanLengths(cfg, st, tokens, d, |tokens| + 1, disk);
    if found.1.None? && d > 0 {
      Grows(cfg.hashing, d - 1, d);
      DepthsFollow(cfg, found.0, tokens, d - 1, disk, key, n);
      FollowsTwice(st, found.0, ScanDepths(cfg, found.0, tokens, d - 1, disk).0, key, n);
    }
  }

  // ---- puts -------------------------------------------------------------------------------------------------

  // A put that was told its checkpoint was kept.
  predicate Keeps(cfg: Config, st: State, op: Op): (r: bool)
    requires Wf(cfg, st) && cfg.hashing.blockSize >= 1 && Allowed(st, op)
    ensures r ==> op.PutOp? && AreTokens(op.tokens) && op.checkpoint.covers <= op.tokens
  {
    op.PutOp? && Put(cfg, st, op.tokens, op.checkpoint, op.putDisk).1
  }

  // The name a put stores under.
  function NameOf(cfg: Config, op: Op): Key
    requires cfg.hashing.blockSize >= 1 && op.PutOp? && op.checkpoint.covers <= op.tokens
  {
    cfg.hashing.KeyFor(op.tokens, |op.checkpoint.covers|)
  }

  lemma StepFollows(cfg: Config, st: State, op: Op, key: Key, n: nat)
    requires Wf(cfg, st) && cfg.hashing.blockSize >= 1 && Allowed(st, op) && !Keeps(cfg, st, op)
    ensures Follows(st, Step(cfg, st, op), key, n)
  {
    hide Wf, Find, FindFile, EvictToFit, ScanDepths, ReleaseAll, Hashing.KeyFor, ToEnd, LeadsTo;
    match op
    case StoreBlock(payload) =>
    case PutOp(tokens, cp, disk) =>
      if cfg.capacity > 0 && cp.covers != [] {
        TouchFollows(st, Find(st.entries, cfg.hashing.KeyFor(tokens, |cp.covers|)).value, key, n);
      }
    case LookupOp(tokens, disk) =>
      if cfg.capacity > 0 { DepthsFollow(cfg, st, tokens, cfg.hashing.Depth(|tokens|), disk, key, n); }
    case ClearOp(drop) =>
      assert Find([], key).None? by { NoneFound(key); }
      NoneFound(key);
  }

  lemma NoneFound(key: Key)
    ensures Find([], key).None? && FindFile([], key).None?
  {}

  // A kept put lists its own name, and what it evicts is unlisted only if it is stored no more.
  lemma KeptFollows(cfg: Config, st: State, op: Op, key: Key, n: nat)
    requires Wf(cfg, st) && cfg.hashing.blockSize >= 1 && Allowed(st, op) && Keeps(cfg, st, op)
    ensures var r, name, length := Step(cfg, st, op), NameOf(cfg, op), |op.checkpoint.covers|;
      && (LeadsTo(r.index, key, n) ==> LeadsTo(Listed(st.index, name, length), key, n))
      && (LeadsTo(Listed(st.index, name, length), key, n) && Stored(r, key) ==> LeadsTo(r.index, key, n))
      && (Stored(r, key) ==> key == name || Stored(st, key))
  {
    hide Wf, Find, FindFile, EvictToFit, Hashing.KeyFor, LeadsTo, Acquire, Listed;
    var name, cp := NameOf(cfg, op), op.checkpoint;
    PutKeeps(cfg, st, op.tokens, cp);
    var admitted := Admit(cfg, st, name, cp).(index := Listed(st.index, name, |cp.covers|));
    EvictionFollows(cfg, admitted, None, op.putDisk, key, n);
    AdmittedEntry(st.entries, Entry(name, cp), key);
  }

  // ---- the history ------------------------------------------------------------------------------------------

  // The tail of the last kept put at this link and length.
  function LastKept(cfg: Config, ops: seq<Op>, link: Digest, n: nat): Option<Digest>
    requires cfg.hashing.blockSize >= 1 && Run(cfg, ops).Some?
    decreases |ops|
  {
    if ops == [] then None
    else
      var before, op := ops[..|ops| - 1], ops[|ops| - 1];
      if Keeps(cfg, Run(cfg, before).value, op) && NameOf(cfg, op).chain == link && |op.checkpoint.covers| == n
      then Some(NameOf(cfg, op).tail)
      else LastKept(cfg, before, link, n)
  }

  lemma NameHasLength(cfg: Config, op: Op, key: Key, covers: seq<nat>)
    requires cfg.hashing.Ideal() && op.PutOp? && AreTokens(op.tokens) && op.checkpoint.covers <= op.tokens
    requires NamesOnly(cfg, key, covers) && NameOf(cfg, op) == key
    ensures |covers| == |op.checkpoint.covers|
  {
    hide Hashing.KeyFor, Hashing.Ideal;
    KeyInjective(cfg.hashing, covers, |covers|, op.tokens, |op.checkpoint.covers|);
  }

  /** In every state a run reaches, the index leads to a stored name exactly when the last put kept at its
      link and length was of that name; it never leads anywhere else. */
  lemma {:induction false} ListedExactly(cfg: Config, ops: seq<Op>, key: Key, covers: seq<nat>)
    requires cfg.hashing.Ideal() && Run(cfg, ops).Some? && NamesOnly(cfg, key, covers)
    ensures var st, n := Run(cfg, ops).value, |covers|;
      && (LeadsTo(st.index, key, n) ==> LastKept(cfg, ops, key.chain, n) == Some(key.tail))
      && (Stored(st, key) ==> (LeadsTo(st.index, key, n) <==> LastKept(cfg, ops, key.chain, n) == Some(key.tail)))
    decreases |ops|
  {
    hide Wf, Step, Keeps, NamesOnly, Hashing.Ideal, Hashing.KeyFor, NameOf, LeadsTo, Stored, Listed;
    BlocksAreReal(cfg);
    if ops == [] {
      NothingStored(key, |covers|);
    } else {
      var before, op := ops[..|ops| - 1], ops[|ops| - 1];
      ListedExactly(cfg, before, key, covers);
      var st := Run(cfg, before).value;
      if Keeps(cfg, st, op) {
        KeptFollows(cfg, st, op, key, |covers|);
        ListedLeads(st.index, NameOf(cfg, op), |op.checkpoint.covers|, key, |covers|);
        if NameOf(cfg, op) == key { NameHasLength(cfg, op, key, covers); }
      } else {
        StepFollows(cfg, st, op, key, |covers|);
      }
    }
  }

  lemma NothingStored(key: Key, n: nat)
    ensures !Stored(INITIAL, key) && !LeadsTo(INITIAL.index, key, n)
  {}

  lemma ListedLeads(index: map<Digest, map<nat, Digest>>, name: Key, length: nat, key: Key, n: nat)
    ensures LeadsTo(Listed(index, name, length), key, n)
       <==> if name.chain == key.chain && length == n then name.tail == key.tail else LeadsTo(index, key, n)
  {}

  // ---- what a lookup finds ------------------------------------------------------------------------------------

  predicate Loadable(st: State, key: Key, disk: Disk) {
    Find(st.entries, key).Some? || (FindFile(st.spilled, key).Some? && disk.readable(key))
  }

  // The first `n` tokens are stored and can be read, and the last put kept at their link and length was of them.
  predicate Offered(cfg: Config, ops: seq<Op>, tokens: seq<nat>, n: nat, disk: Disk)
    requires cfg.hashing.blockSize >= 1 && Run(cfg, ops).Some?
  {
    0 < n <= |tokens|
    && var key := cfg.hashing.KeyFor(tokens, n);
    Loadable(Run(cfg, ops).value, key, disk) && LastKept(cfg, ops, key.chain, n) == Some(key.tail)
  }

  lemma OfferedIsCandidate(cfg: Config, ops: seq<Op>, tokens: seq<nat>, n: nat, disk: Disk)
    requires cfg.hashing.Ideal() && Run(cfg, ops).Some? && AreTokens(tokens)
    ensures Offered(cfg, ops, tokens, n, disk) <==> Candidate(cfg, Run(cfg, ops).value, tokens, n, disk)
  {
    hide Hashing.Ideal, Hashing.KeyFor, Run, LastKept, NamesOnly, Find, FindFile;
    BlocksAreReal(cfg);
    if 0 < n <= |tokens| {
      NamedByTokens(cfg, tokens, tokens[..n]);
      ListedExactly(cfg, ops, cfg.hashing.KeyFor(tokens, n), tokens[..n]);
    }
  }

  /** Over every run: a lookup returns a stored prefix that was the last kept at its link and length, and no
      such prefix is longer. What it passes over is unreadable, or another tail was kept in its place since. */
  lemma FoundExactly(cfg: Config, ops: seq<Op>, tokens: seq<nat>, disk: Disk, n: nat)
    requires cfg.hashing.Ideal() && Run(cfg, ops).Some? && AreTokens(tokens) && cfg.capacity > 0
    ensures var m := Lookup(cfg, Run(cfg, ops).value, tokens, disk).1;
      && (m.Some? ==> Offered(cfg, ops, tokens, m.value.length, disk))
      && (Offered(cfg, ops, tokens, n, disk) ==> m.Some? && n <= m.value.length)
  {
    hide Hashing.Ideal, Run, Lookup, Offered, Candidate;
    BlocksAreReal(cfg);
    LookupIsLongest(cfg, Run(cfg, ops).value, tokens, disk, n);
    OfferedIsCandidate(cfg, ops, tokens, n, disk);
    var m := Lookup(cfg, Run(cfg, ops).value, tokens, disk).1;
    if m.Some? { OfferedIsCandidate(cfg, ops, tokens, m.value.length, disk); }
  }

  // Operation `i` was a put kept at this link and length.
  predicate KeptThere(cfg: Config, ops: seq<Op>, i: nat, link: Digest, n: nat): (r: bool)
    requires cfg.hashing.blockSize >= 1 && i < |ops|
    ensures r ==> ops[i].PutOp? && AreTokens(ops[i].tokens) && ops[i].checkpoint.covers <= ops[i].tokens
  {
    var before := Run(cfg, ops[..i]);
    && before.Some? && Allowed(before.value, ops[i]) && Keeps(cfg, before.value, ops[i])
    && NameOf(cfg, ops[i]).chain == link && |ops[i].checkpoint.covers| == n
  }

  lemma {:induction false} RunPrefix(cfg: Config, ops: seq<Op>, i: nat)
    requires cfg.hashing.blockSize >= 1 && Run(cfg, ops).Some? && i <= |ops|
    ensures Run(cfg, ops[..i]).Some?
    ensures i < |ops| ==> Allowed(Run(cfg, ops[..i]).value, ops[i])
    decreases |ops|
  {
    hide Wf, Step;
    if i == |ops| {
      assert ops[..i] == ops;
    } else if i < |ops| - 1 {
      RunPrefix(cfg, ops[..|ops| - 1], i);
      assert ops[..|ops| - 1][..i] == ops[..i];
    }
  }

  // Later puts at a place, all of this tail or none of them, leave it the last kept there or not.
  lemma {:induction false} LastKeptStays(cfg: Config, ops: seq<Op>, from: nat, link: Digest, n: nat, tail: Digest,
                                         same: bool)
    requires cfg.hashing.blockSize >= 1 && Run(cfg, ops).Some? && from <= |ops| && Run(cfg, ops[..from]).Some?
    requires LastKept(cfg, ops[..from], link, n) == Some(tail) <==> same
    requires forall i :: from <= i < |ops| && KeptThere(cfg, ops, i, link, n) ==>
      (NameOf(cfg, ops[i]).tail == tail <==> same)
    ensures LastKept(cfg, ops, link, n) == Some(tail) <==> same
    decreases |ops|
  {
    hide Wf, Step, Keeps, NameOf;
    if from == |ops| {
      assert ops[..from] == ops;
    } else {
      var last := |ops| - 1;
      assert ops[..last][..from] == ops[..from];
      forall i | from <= i < last && KeptThere(cfg, ops[..last], i, link, n)
        ensures NameOf(cfg, ops[..last][i]).tail == tail <==> same
      {
        assert ops[..last][..i] == ops[..i];
        assert KeptThere(cfg, ops, i, link, n);
      }
      LastKeptStays(cfg, ops[..last], from, link, n, tail, same);
      assert KeptThere(cfg, ops, last, link, n)
        <==> Keeps(cfg, Run(cfg, ops[..last]).value, ops[last]) && NameOf(cfg, ops[last]).chain == link
             && |ops[last].checkpoint.covers| == n;
    }
  }

  lemma KeptIsLast(cfg: Config, ops: seq<Op>, i: nat, link: Digest, n: nat)
    requires cfg.hashing.blockSize >= 1 && Run(cfg, ops).Some? && i < |ops| && KeptThere(cfg, ops, i, link, n)
    ensures Run(cfg, ops[..i + 1]).Some? && LastKept(cfg, ops[..i + 1], link, n) == Some(NameOf(cfg, ops[i]).tail)
  {
    hide Wf, Step, Keeps, NameOf, Run;
    RunPrefix(cfg, ops, i + 1);
    assert ops[..i + 1][..i] == ops[..i];
  }

  /** What a put kept is found, or something longer is, in every later state in which it can still be read,
      as long as no put of another tail was kept at its link and length. */
  lemma PutStaysFound(cfg: Config, ops: seq<Op>, i: nat, more: seq<nat>, disk: Disk)
    requires cfg.hashing.Ideal() && Run(cfg, ops).Some? && i < |ops| && cfg.capacity > 0
    requires ops[i].PutOp? && ops[i].checkpoint.covers <= ops[i].tokens && ops[i].checkpoint.covers <= more
      && AreTokens(more)
    requires var key, n := NameOf(cfg, ops[i]), |ops[i].checkpoint.covers|;
      && KeptThere(cfg, ops, i, key.chain, n) && n > 0 && Loadable(Run(cfg, ops).value, key, disk)
      && forall j :: i < j < |ops| && KeptThere(cfg, ops, j, key.chain, n) ==> NameOf(cfg, ops[j]).tail == key.tail
    ensures var m := Lookup(cfg, Run(cfg, ops).value, more, disk).1;
      m.Some? && |ops[i].checkpoint.covers| <= m.value.length
  {
    hide Hashing.Ideal, Hashing.KeyFor, Run, Lookup, LastKept, Loadable, Keeps;
    BlocksAreReal(cfg);
    var key, n := NameOf(cfg, ops[i]), |ops[i].checkpoint.covers|;
    KeptIsLast(cfg, ops, i, key.chain, n);
    LastKeptStays(cfg, ops, i + 1, key.chain, n, key.tail, true);
    KeyLocal(cfg.hashing, ops[i].tokens, n);
    KeyLocal(cfg.hashing, more, n);
    assert ops[i].tokens[..n] == more[..n];
    FoundExactly(cfg, ops, more, disk, n);
  }

  /** A prefix in whose place another tail was kept is not returned at its length, stored or not, in any later
      state until a put of its own is kept again. */
  lemma ShadowedStaysLost(cfg: Config, ops: seq<Op>, i: nat, first: seq<nat>, n: nat, disk: Disk)
    requires cfg.hashing.Ideal() && Run(cfg, ops).Some? && i < |ops| && cfg.capacity > 0
    requires AreTokens(first) && n <= |first| && KeptThere(cfg, ops, i, cfg.hashing.KeyFor(first, n).chain, n)
    requires var key := cfg.hashing.KeyFor(first, n);
      forall j :: i <= j < |ops| && KeptThere(cfg, ops, j, key.chain, n) ==> NameOf(cfg, ops[j]).tail != key.tail
    ensures var m := Lookup(cfg, Run(cfg, ops).value, first, disk).1; m.Some? ==> m.value.length != n
  {
    hide Hashing.Ideal, Hashing.KeyFor, Run, Lookup, LastKept, Loadable, Keeps;
    BlocksAreReal(cfg);
    var key := cfg.hashing.KeyFor(first, n);
    KeptIsLast(cfg, ops, i, key.chain, n);
    LastKeptStays(cfg, ops, i + 1, key.chain, n, key.tail, false);
    FoundExactly(cfg, ops, first, disk, n);
  }

  /** Two prefixes of one length compete for a place exactly when they agree on their whole blocks; they are
      told apart by what is left over. */
  lemma SamePlace(cfg: Config, a: seq<nat>, b: seq<nat>, n: nat)
    requires cfg.hashing.Ideal() && AreTokens(a) && AreTokens(b) && n <= |a| && n <= |b|
    ensures cfg.hashing.At(cfg.hashing.Depth(n)) <= n
    ensures cfg.hashing.KeyFor(a, n).chain == cfg.hashing.KeyFor(b, n).chain
       <==> a[..cfg.hashing.At(cfg.hashing.Depth(n))] == b[..cfg.hashing.At(cfg.hashing.Depth(n))]
    ensures cfg.hashing.KeyFor(a, n) == cfg.hashing.KeyFor(b, n) <==> a[..n] == b[..n]
  {
    hide Hashing.Ideal, Hashing.Chain, Hashing.At, Hashing.Depth;
    BlocksAreReal(cfg);
    var d := cfg.hashing.Depth(n);
    if cfg.hashing.KeyFor(a, n).chain == cfg.hashing.KeyFor(b, n).chain {
      ChainInjective(cfg.hashing, a, d, b, d);
    } else if a[..cfg.hashing.At(d)] == b[..cfg.hashing.At(d)] {
      ChainLocal(cfg.hashing, a, b, d);
    }
    if cfg.hashing.KeyFor(a, n) == cfg.hashing.KeyFor(b, n) {
      KeyInjective(cfg.hashing, a, n, b, n);
    } else if a[..n] == b[..n] {
      KeyLocal(cfg.hashing, a, n);
      KeyLocal(cfg.hashing, b, n);
    }
  }

  // ---- a put that does not help ---------------------------------------------------------------------------------

  // A checkpoint of one token that takes up nothing.
  function Single(x: nat, disk: Disk): Op {
    PutOp([x], Checkpoint([x], [], 0), disk)
  }

  lemma NewNameIsKept(cfg: Config, st: State, x: nat, disk: Disk)
    requires Wf(cfg, st) && cfg.capacity > 0 && cfg.hashing.blockSize >= 1 && x < WIDEST
    requires Bytes(st) == 0 && Find(st.entries, cfg.hashing.KeyFor([x], 1)).None?
    ensures Allowed(st, Single(x, disk)) && Keeps(cfg, st, Single(x, disk))
    ensures var r, key := Step(cfg, st, Single(x, disk)), cfg.hashing.KeyFor([x], 1);
      r.entries == st.entries + [Entry(key, Checkpoint([x], [], 0))] && Bytes(r) == 0
  {
    hide Wf, Hashing.KeyFor, Find;
    var key, cp := cfg.hashing.KeyFor([x], 1), Checkpoint([x], [], 0);
    assert cp.covers == [x] <= [x];
    PutKeeps(cfg, st, [x], cp);
    ResidentBytesMore(st.entries, Entry(key, cp));
    var admitted := Admit(cfg, st, key, cp).(index := Listed(st.index, key, 1));
    assert EvictToFit(cfg, admitted, None, disk) == admitted;
  }

  lemma {:induction false} ResidentBytesMore(entries: seq<Entry>, e: Entry)
    ensures ResidentBytes(entries + [e]) == ResidentBytes(entries) + e.checkpoint.residentBytes
    decreases |entries|
  {
    if entries != [] {
      assert (entries + [e])[1..] == entries[1..] + [e];
      ResidentBytesMore(entries[1..], e);
    }
  }

  lemma ResidentIsNotKept(cfg: Config, st: State, x: nat, disk: Disk)
    requires Wf(cfg, st) && cfg.capacity > 0 && cfg.hashing.blockSize >= 1 && x < WIDEST
    requires Find(st.entries, cfg.hashing.KeyFor([x], 1)).Some?
    ensures Allowed(st, Single(x, disk)) && !Keeps(cfg, st, Single(x, disk))
    ensures Find(Step(cfg, st, Single(x, disk)).entries, cfg.hashing.KeyFor([x], 1)).Some?
  {
    hide Wf, Hashing.KeyFor, Find, ToEnd;
    assert [x] <= [x];
    MovedEntry(st.entries, Find(st.entries, cfg.hashing.KeyFor([x], 1)).value, cfg.hashing.KeyFor([x], 1));
  }

  /** Putting a resident prefix again does not list it again: with another one put in its place meanwhile, it
      is resident and never returned. */
  lemma RePutDoesNotHelp(cfg: Config, x: nat, y: nat, disk: Disk)
    requires cfg.hashing.Ideal() && cfg.capacity > 0 && cfg.hashing.blockSize >= 2 && x < WIDEST && y < WIDEST && x != y
    ensures var ops := [Single(x, disk), Single(y, disk), Single(x, disk)];
      && Run(cfg, ops).Some?
      && Find(Run(cfg, ops).value.entries, cfg.hashing.KeyFor([x], 1)).Some?
      && Lookup(cfg, Run(cfg, ops).value, [x], disk).1.None?
  {
    hide Hashing.Ideal, Hashing.KeyFor, Lookup, Step, Wf, Keeps, Allowed, LastKept, Find;
    var ops := [Single(x, disk), Single(y, disk), Single(x, disk)];
    var kx, ky := cfg.hashing.KeyFor([x], 1), cfg.hashing.KeyFor([y], 1);
    Competing(cfg, x, y);
    assert ops[..1] == [Single(x, disk)] && ops[..1][..0] == [] && ops[..2][..1] == ops[..1] && ops[..3] == ops;
    assert Run(cfg, []) == Some(INITIAL);
    FoundFirst(kx);
    NewNameIsKept(cfg, INITIAL, x, disk);
    var st1 := Step(cfg, INITIAL, ops[0]);
    assert Run(cfg, ops[..1]) == Some(st1);
    AdmittedEntry([], st1.entries[0], ky);
    assert [] + [st1.entries[0]] == st1.entries;
    FoundFirst(ky);
    NewNameIsKept(cfg, st1, y, disk);
    var st2 := Step(cfg, st1, ops[1]);
    assert Run(cfg, ops[..2]) == Some(st2);
    AdmittedEntry(st1.entries, st2.entries[1], kx);
    AdmittedEntry([], st1.entries[0], kx);
    ResidentIsNotKept(cfg, st2, x, disk);
    assert Run(cfg, ops) == Some(Step(cfg, st2, ops[2]));
    hide Run;
    assert KeptThere(cfg, ops, 1, kx.chain, 1);
    ShadowedStaysLost(cfg, ops, 1, [x], 1, disk);
    FoundExactly(cfg, ops, [x], disk, 1);
  }

  lemma FoundFirst(key: Key)
    ensures Find([], key).None? && Bytes(INITIAL) == 0
  {}

  lemma Competing(cfg: Config, x: nat, y: nat)
    requires cfg.hashing.Ideal() && cfg.hashing.blockSize >= 2 && x < WIDEST && y < WIDEST && x != y
    ensures cfg.hashing.KeyFor([x], 1).chain == cfg.hashing.KeyFor([y], 1).chain
    ensures cfg.hashing.KeyFor([x], 1).tail != cfg.hashing.KeyFor([y], 1).tail
  {
    hide Hashing.Ideal, Hashing.Chain;
    SamePlace(cfg, [x], [y], 1);
    assert cfg.hashing.Depth(1) == 0 && cfg.hashing.At(0) == 0;
    assert [x][..1] == [x] && [y][..1] == [y] && [x] != [y] by { assert [x][0] != [y][0]; }
    hide Hashing.KeyFor;
    var a, b := cfg.hashing.KeyFor([x], 1), cfg.hashing.KeyFor([y], 1);
    assert a != b && a.chain == b.chain;
  }
}
