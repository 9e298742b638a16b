// Decoding reads the layers round and round. With no host tier and every layer fitting by itself: what
// hits and what misses, on every access of the scan. The argument is about turns: which layer had one
// when, and that what the window keeps is what had a turn last, save the pinned layers.
module CyclicScan {
  import opened Arithmetic
  import opened Options
  import opened WeightCache
  import opened WeightCacheRuns

  function LayerKey(i: nat): Key {
    Key(i, Dense(""))
  }

  // A layer's forward: acquired, run, released.
  ghost function Visit(cfg: Config, st: State, k: Key): State
    requires Wf(cfg, st)
  {
    Release(cfg, Acquire(cfg, st, k).0, k)
  }

  // The cache after the first `n` accesses of the scan.
  ghost function After(cfg: Config, capacity: nat, pinned: set<Key>, layers: nat, n: nat): (st: State)
    requires cfg.Valid() && layers > 0
    ensures Wf(cfg, st)
  {
    if n == 0 then
      StartWf(cfg, capacity, 0, pinned);
      Start(capacity, 0, pinned)
    else
      var before := After(cfg, capacity, pinned, layers, n - 1);
      var k := LayerKey(Turn(n - 1, layers));
      ReleaseWf(cfg, Acquire(cfg, before, k).0, k);
      Visit(cfg, before, k)
  }

  // ---- between visits --------------------------------------------------------------------------------

  // Only dense layers, all of them on the device, none being read, and no host to fall back to.
  ghost predicate Quiet(cfg: Config, st: State) {
    && Wf(cfg, st) && st.host.capacity == 0 && st.host.keys == {} && st.entries.Keys == st.device.keys
    && forall k :: k in st.entries ==> k.kind.Dense? && st.entries[k].refs == 0
  }

  // `b` was unpinned and stayed, though admitted before `a`.
  predicate Behind(st: State, r: State, a: Key, b: Key)
    requires a in st.entries
  {
    b in r.entries && !r.entries[b].pinned && st.entries[a].inserted > r.entries[b].inserted
  }

  // `r` is `st` after letting some of its oldest unpinned layers go.
  ghost predicate Trimmed(st: State, r: State) {
    && r == st.(entries := r.entries, device := r.device, host := r.host, discarded := r.discarded)
    && r.device.capacity == st.device.capacity
    && (forall k :: k in r.entries ==> k in st.entries && r.entries[k] == st.entries[k])
    && (forall k :: k in st.entries && st.entries[k].pinned ==> k in r.entries)
    && forall a, b :: a in st.entries && Behind(st, r, a, b) ==> a in r.entries
  }

  lemma TrimmedTwice(a: State, b: State, c: State)
    requires Trimmed(a, b) && Trimmed(b, c)
    ensures Trimmed(a, c)
  {
    forall x, y | x in a.entries && Behind(a, c, x, y) ensures x in c.entries {
      assert Behind(a, b, x, y);
      assert Behind(b, c, x, y);
    }
  }

  lemma OldestOut(cfg: Config, st: State, s: set<Key>)
    requires Quiet(cfg, st) && s != {} && s <= st.device.keys
    requires forall k :: k in s <==> k in st.entries && !st.entries[k].pinned
    ensures var k := First(st.entries, s);
      && k in s && st.entries[k].Evictable()
      && Quiet(cfg, Demote(cfg, st, k)) && Trimmed(st, Demote(cfg, st, k))
      && Demote(cfg, st, k).device.keys == st.device.keys - {k}
  {
    hide Demote, First;
    FirstOf(st.entries, s);
    var k := First(st.entries, s);
    DemoteWf(cfg, st, k);
    var r := Demote(cfg, st, k);
    forall j | j in s && j != k ensures st.entries[k].inserted < st.entries[j].inserted {
      assert EntryWf(cfg, st, j) && EntryWf(cfg, st, k);
      assert Sooner(st.entries, k, j);
    }
    forall j | j in r.entries ensures j !in r.host.keys { assert EntryWf(cfg, r, j) && EntryWf(cfg, st, j); }
    assert r.host.keys == {};
  }

  lemma {:induction false} RoomTrims(cfg: Config, st: State, bytes: nat)
    requires Quiet(cfg, st)
    ensures Quiet(cfg, MakeRoom(cfg, st, bytes)) && Trimmed(st, MakeRoom(cfg, st, bytes))
    decreases |st.device.keys|
  {
    hide Demote, Wf, First, Kept, Balance;
    DeviceIsTracked(cfg, st);
    if !(st.device.capacity == 0 || st.device.bytes + bytes <= st.device.capacity || Victims(st) == {}) {
      OldestOut(cfg, st, Victims(st));
      var next := Demote(cfg, st, First(st.entries, Victims(st)));
      RoomTrims(cfg, next, bytes);
      TrimmedTwice(st, next, MakeRoom(cfg, st, bytes));
    }
  }

  lemma {:induction false} WindowTrims(cfg: Config, st: State)
    requires Quiet(cfg, st)
    ensures var r := EnforceWindow(cfg, st); Quiet(cfg, r) && Trimmed(st, r) && |Windowed(r)| <= cfg.window
    decreases |st.device.keys|
  {
    hide Demote, Wf, First, Kept, Balance;
    DeviceIsTracked(cfg, st);
    assert Idle(st) == Windowed(st);
    if |Windowed(st)| > cfg.window {
      OldestOut(cfg, st, Idle(st));
      var next := Demote(cfg, st, First(st.entries, Idle(st)));
      WindowTrims(cfg, next);
      TrimmedTwice(st, next, EnforceWindow(cfg, st));
    }
  }

  // ---- one visit ----------------------------------------------------------------------------------------

  lemma QuietEntry(cfg: Config, st: State, k: Key)
    requires Quiet(cfg, st) && k in st.entries
    ensures st.entries[k].tier.Device? && st.entries[k].refs == 0 && k.kind.Dense?
  {
    assert EntryWf(cfg, st, k);
  }

  lemma ClaimRelease(cfg: Config, st: State, k: Key)
    requires cfg.Valid() && k in st.entries && st.entries[k].tier.Device? && st.entries[k].refs == 0 && k.kind.Dense?
    ensures Touch(cfg, st, k) == st && Release(cfg, Claim(st, k), k) == st
  {
    var e := st.entries[k];
    assert st.entries[k := e.(refs := 1)][k := e.(refs := 0)] == st.entries;
  }

  lemma HitChangesNothing(cfg: Config, st: State, k: Key)
    requires Quiet(cfg, st) && k in st.device.keys
    ensures Visit(cfg, st, k) == st
  {
    AgingIsSet(cfg, st);
    QuietEntry(cfg, st, k);
    ClaimRelease(cfg, st, k);
    hide Wf, Touch, Claim, Release;
  }

  // The newcomer of a miss, and what it found room beside.
  ghost predicate Joined(cfg: Config, st: State, k: Key, r: State) {
    && Quiet(cfg, r) && r.device.capacity == st.device.capacity && r.pinned == st.pinned
    && k in r.entries && (forall j :: j in st.entries ==> st.entries[j].inserted < r.entries[k].inserted)
    && (forall j :: j in r.entries && j != k ==> j in st.entries && r.entries[j] == st.entries[j])
    && (forall j :: j in st.entries && st.entries[j].pinned ==> j in r.entries)
    && (forall a, b :: a in st.entries && b != k && Behind(st, r, a, b) ==> a in r.entries)
    && |Windowed(r)| <= cfg.window
  }

  lemma NewcomerIsQuiet(cfg: Config, st: State, k: Key)
    requires Quiet(cfg, st) && k !in st.entries && k.kind.Dense? && cfg.size(k) <= st.device.capacity
      && 0 < st.device.capacity
    ensures var added := OnDevice(Ticked(st), k, NewEntry(cfg, Ticked(st), k));
      && Quiet(cfg, added) && k in added.entries && added.device.capacity == st.device.capacity && added.pinned == st.pinned
      && (forall j :: j in st.entries ==> st.entries[j].inserted < added.entries[k].inserted)
      && (forall j :: j in st.entries ==> j in added.entries && added.entries[j] == st.entries[j])
      && (forall j :: j in added.entries ==> j == k || j in st.entries)
      && added.entries[k].pinned == (k in st.pinned)
      && added.device.keys == st.device.keys + {k}
  {
    hide Wf, Balance, Kept;
    TickedWf(cfg, st, k);
    OlderThanClock(cfg, st);
  }

  // With nobody reading, whatever is admitted stays.
  lemma NewcomerStays(cfg: Config, st: State, k: Key)
    requires Quiet(cfg, st) && k in st.entries
    requires forall j :: j in st.entries && j != k ==> st.entries[j].inserted < st.entries[k].inserted
    ensures k in EnforceWindow(cfg, st).entries
  {
    AgingIsSet(cfg, st);
    assert Reading(st) == {};
    if st.entries[k].pinned {
      PinnedStays(cfg, st, k);
    } else {
      NewestStays(cfg, st, k);
    }
  }

  lemma AdmitJoins(cfg: Config, st: State, k: Key)
    requires Quiet(cfg, st) && k !in st.entries && k.kind.Dense? && cfg.size(k) <= st.device.capacity
      && 0 < st.device.capacity
    ensures Joined(cfg, st, k, Admit(cfg, st, k))
  {
    hide Wf, EnforceWindow, Windowed, Reading, Balance, Kept;
    var added := OnDevice(Ticked(st), k, NewEntry(cfg, Ticked(st), k));
    NewcomerIsQuiet(cfg, st, k);
    NewcomerStays(cfg, added, k);
    WindowTrims(cfg, added);
    TrimmedJoins(cfg, st, added, k, EnforceWindow(cfg, added));
  }

  lemma TrimmedJoins(cfg: Config, st: State, added: State, k: Key, r: State)
    requires Quiet(cfg, added) && Quiet(cfg, r) && Trimmed(added, r) && k in r.entries && k in added.entries
    requires added.device.capacity == st.device.capacity && added.pinned == st.pinned && |Windowed(r)| <= cfg.window
    requires forall j :: j in st.entries ==> st.entries[j].inserted < added.entries[k].inserted
    requires forall j :: j in st.entries ==> j in added.entries && added.entries[j] == st.entries[j]
    requires forall j :: j in added.entries ==> j == k || j in st.entries
    ensures Joined(cfg, st, k, r)
  {
    hide Wf, Windowed;
    forall a, b | a in st.entries && b != k && Behind(st, r, a, b) ensures a in r.entries {
      assert Behind(added, r, a, b);
    }
  }

  lemma JoinedAfterRoom(cfg: Config, st: State, room: State, k: Key, r: State)
    requires Trimmed(st, room) && Joined(cfg, room, k, r) && k !in st.entries && Quiet(cfg, st)
    requires room.clock == st.clock && r.entries[k].inserted == st.clock + 1
    ensures Joined(cfg, st, k, r)
  {
    OlderThanClock(cfg, st);
    hide Wf, Windowed;
    forall a, b | a in st.entries && b != k && Behind(st, r, a, b) ensures a in r.entries {
      assert Behind(st, room, a, b);
      assert Behind(room, r, a, b);
    }
  }

  lemma AdmittedNow(cfg: Config, st: State, k: Key)
    requires Wf(cfg, st) && k !in st.entries && k in Admit(cfg, st, k).entries && k.kind.Dense?
    requires cfg.size(k) <= st.device.capacity && 0 < st.device.capacity
    ensures Admit(cfg, st, k).entries[k].inserted == st.clock + 1
  {
    TickedWf(cfg, st, k);
    WindowOnlyLoses(cfg, OnDevice(Ticked(st), k, NewEntry(cfg, Ticked(st), k)));
  }

  lemma ReadQuiet(cfg: Config, st: State, k: Key)
    requires Quiet(cfg, st)
    ensures Quiet(cfg, Read(cfg, st, k))
  {
    var c := Read(cfg, st, k);
    forall j | j in c.entries ensures EntryWf(cfg, c, j) { assert EntryWf(cfg, st, j); }
  }

  lemma SameJoined(cfg: Config, counted: State, st: State, k: Key, r: State)
    requires Joined(cfg, counted, k, r) && counted == st.(fetched := counted.fetched)
    ensures Joined(cfg, st, k, r)
  {
    hide Wf, Windowed;
    forall a, b | a in st.entries && b != k && Behind(st, r, a, b) ensures a in r.entries {
      assert Behind(counted, r, a, b);
    }
  }

  lemma QuietIsWf(cfg: Config, st: State)
    requires Quiet(cfg, st)
    ensures Wf(cfg, st) && cfg.Valid()
  {}

  lemma JoinedIsQuiet(cfg: Config, st: State, k: Key, r: State)
    requires Joined(cfg, st, k, r)
    ensures Quiet(cfg, r) && k in r.entries
  {}

  lemma MissJoins(cfg: Config, st: State, k: Key)
    requires Quiet(cfg, st) && k !in st.entries && k.kind.Dense? && cfg.size(k) <= st.device.capacity
      && 0 < st.device.capacity
    ensures Visit(cfg, st, k) == Fetched(cfg, st, k) && Joined(cfg, st, k, Visit(cfg, st, k))
  {
    hide Wf, Quiet, Joined, Trimmed, MakeRoom, Admit, Visit, Balance, Kept;
    QuietIsWf(cfg, st);
    var counted := Read(cfg, st, k);
    ReadQuiet(cfg, st, k);
    QuietIsWf(cfg, counted);
    RoomTrims(cfg, counted, cfg.size(k));
    RoomKeepsAbsent(cfg, counted, k, cfg.size(k));
    RoomOnlyLoses(cfg, counted, cfg.size(k));
    var room := MakeRoom(cfg, counted, cfg.size(k));
    QuietIsWf(cfg, room);
    AdmitJoins(cfg, room, k);
    JoinedIsQuiet(cfg, room, k, Admit(cfg, room, k));
    AdmittedNow(cfg, room, k);
    JoinedAfterRoom(cfg, counted, room, k, Admit(cfg, room, k));
    SameJoined(cfg, counted, st, k, Admit(cfg, room, k));
    ClaimedThenReleased(cfg, st, k);
  }

  lemma ClaimedThenReleased(cfg: Config, st: State, k: Key)
    requires Wf(cfg, st) && k !in st.entries && k.kind.Dense? && Quiet(cfg, Fetched(cfg, st, k))
      && k in Fetched(cfg, st, k).entries
    ensures Visit(cfg, st, k) == Fetched(cfg, st, k)
  {
    hide Wf, Fetched, Quiet, Touch, Claim, Release;
    var f := Fetched(cfg, st, k);
    AgingIsSet(cfg, st);
    FetchedWf(cfg, st, k);
    QuietEntry(cfg, f, k);
    ClaimRelease(cfg, f, k);
  }

  // ---- the scan --------------------------------------------------------------------------------------------

  // Whose turn the access `t` is.
  function Turn(t: nat, layers: nat): (i: nat)
    requires layers > 0
    ensures i < layers
  {
    t % layers
  }

  // When layer `i` was last visited, among the first `n` accesses; -1 if not yet.
  function Last(i: nat, n: nat, layers: nat): (t: int)
    requires layers > 0
    ensures -1 <= t < n
  {
    if n == 0 then -1 else if Turn(n - 1, layers) == i then n - 1 else Last(i, n - 1, layers)
  }

  lemma {:induction false} LastIs(i: nat, n: nat, layers: nat)
    requires layers > 0
    ensures Last(i, n, layers) >= 0 ==> Turn(Last(i, n, layers), layers) == i
    ensures forall t :: 0 <= t < n && Turn(t, layers) == i ==> t <= Last(i, n, layers)
  {
    if n > 0 { LastIs(i, n - 1, layers); }
  }

  // One round back is this layer's turn; every other layer has had one since.
  lemma OneRound(a: nat, n: nat, layers: nat)
    requires 0 < layers <= n && a < layers
    ensures a != Turn(n, layers) ==> Last(a, n, layers) > n - layers
    ensures a == Turn(n, layers) ==> 0 <= Last(a, n, layers) <= n - layers
  {
    hide Last, Turn;
    LastIs(a, n, layers);
    var t := TurnSince(a, n, layers);
    if a == Turn(n, layers) && Last(a, n, layers) > n - layers {
      NoTurnBetween(Last(a, n, layers), n, layers);
    }
  }

  lemma TurnSince(a: nat, n: nat, layers: nat) returns (t: nat)
    requires 0 < layers <= n && a < layers
    ensures t < n && Turn(t, layers) == a && n - layers <= t && (a != Turn(n, layers) ==> n - layers < t)
  {
    var q, r := n / layers, n % layers;
    assert n == q * layers + r;
    Distributes(q - 1, 1, layers);
    if a < r {
      t := n - r + a;
      Divides(t, layers, q, a);
    } else {
      t := n - r + a - layers;
      Divides(t, layers, q - 1, a);
    }
  }

  lemma NoTurnBetween(t: nat, n: nat, layers: nat)
    requires 0 < layers && n - layers < t < n
    ensures Turn(t, layers) != Turn(n, layers)
  {
    if Turn(t, layers) == Turn(n, layers) {
      var p, q := t / layers, n / layers;
      assert t == p * layers + t % layers && n == q * layers + n % layers;
      Apart(q, p, layers);
    }
  }

  // The layers the plan leaves unpinned.
  ghost function Unpinned(layers: nat, pinned: set<Key>): set<Key> {
    set i | 0 <= i < layers && LayerKey(i) !in pinned :: LayerKey(i)
  }

  ghost function AllLayers(layers: nat): set<Key> {
    set i | 0 <= i < layers :: LayerKey(i)
  }

  // Every layer fits by itself.
  predicate EachFits(cfg: Config, capacity: nat, layers: nat) {
    forall i :: 0 <= i < layers ==> cfg.size(LayerKey(i)) <= capacity
  }

  ghost predicate Scanning(cfg: Config, capacity: nat, pinned: set<Key>, layers: nat, n: nat, st: State)
    requires layers > 0
  {
    && Quiet(cfg, st) && st.device.capacity == capacity && st.pinned == pinned
    && (forall k :: k in st.entries ==> k == LayerKey(k.layer) && k.layer < layers && Last(k.layer, n, layers) >= 0)
    && (forall i :: 0 <= i < layers && LayerKey(i) in pinned && Last(i, n, layers) >= 0 ==> LayerKey(i) in st.entries)
  }

  lemma ScanStep(cfg: Config, capacity: nat, pinned: set<Key>, layers: nat, n: nat, st: State)
    requires layers > 0 && 0 < capacity && EachFits(cfg, capacity, layers) && Scanning(cfg, capacity, pinned, layers, n, st)
    ensures Scanning(cfg, capacity, pinned, layers, n + 1, Visit(cfg, st, LayerKey(Turn(n, layers))))
  {
    hide Wf, Visit, Last, Quiet, Joined, Turn;
    var k := LayerKey(Turn(n, layers));
    QuietIsWf(cfg, st);
    LastSteps(n, n + 1, layers);
    if k in st.device.keys {
      QuietTracks(cfg, st);
      HitChangesNothing(cfg, st, k);
    } else {
      QuietTracks(cfg, st);
      MissJoins(cfg, st, k);
      MissScans(cfg, capacity, pinned, layers, n, st, Visit(cfg, st, k));
    }
  }

  lemma QuietTracks(cfg: Config, st: State)
    requires Quiet(cfg, st)
    ensures st.entries.Keys == st.device.keys
    ensures forall k :: k in st.entries ==> st.entries[k].pinned == (k in st.pinned)
  {
    forall k | k in st.entries ensures st.entries[k].pinned == (k in st.pinned) { assert EntryWf(cfg, st, k); }
  }

  lemma MissScans(cfg: Config, capacity: nat, pinned: set<Key>, layers: nat, n: nat, st: State, r: State)
    requires layers > 0 && Scanning(cfg, capacity, pinned, layers, n, st) && Joined(cfg, st, LayerKey(Turn(n, layers)), r)
    ensures Scanning(cfg, capacity, pinned, layers, n + 1, r)
  {
    hide Wf, Last, Behind, Windowed, Turn;
    QuietTracks(cfg, st);
    LastSteps(n, n + 1, layers);
    hide Quiet;
  }

  lemma LastSteps(n: nat, m: nat, layers: nat)
    requires layers > 0 && m == n + 1
    ensures forall i: nat :: Last(i, m, layers) == if i == Turn(n, layers) then n else Last(i, n, layers)
  {
    forall i: nat ensures Last(i, m, layers) == if i == Turn(n, layers) then n else Last(i, n, layers) { }
  }

  lemma {:induction false} ScanHolds(cfg: Config, capacity: nat, pinned: set<Key>, layers: nat, n: nat)
    requires cfg.Valid() && layers > 0 && 0 < capacity && EachFits(cfg, capacity, layers)
    ensures Scanning(cfg, capacity, pinned, layers, n, After(cfg, capacity, pinned, layers, n))
    decreases n
  {
    hide Scanning, Visit, Wf;
    if n > 0 {
      ScanHolds(cfg, capacity, pinned, layers, n - 1);
      ScanStep(cfg, capacity, pinned, layers, n - 1, After(cfg, capacity, pinned, layers, n - 1));
    } else {
      NothingYet(cfg, capacity, pinned, layers);
    }
  }

  lemma NothingYet(cfg: Config, capacity: nat, pinned: set<Key>, layers: nat)
    requires cfg.Valid() && layers > 0
    ensures Scanning(cfg, capacity, pinned, layers, 0, Start(capacity, 0, pinned))
  {
    StartWf(cfg, capacity, 0, pinned);
  }

  // ---- more unpinned layers than the window ---------------------------------------------------------------------

  ghost function Roaming(st: State): set<Key> {
    set k | k in st.entries && k !in st.pinned
  }

  // Layer `i` was visited after the unpinned layer `b`.
  predicate LaterThan(st: State, layers: nat, n: nat, i: nat, b: Key)
    requires layers > 0
  {
    b !in st.pinned && Last(i, n, layers) > Last(b.layer, n, layers)
  }

  // The resident unpinned layers are the most recently visited ones, in the order they were admitted,
  // and no more than a window of them.
  ghost predicate Recent(cfg: Config, st: State, layers: nat, n: nat)
    requires layers > 0
  {
    && |Roaming(st)| <= cfg.window
    && forall i, b :: 0 <= i < layers && LayerKey(i) !in st.pinned && b in st.entries && LaterThan(st, layers, n, i, b)
         ==> LayerKey(i) in st.entries && st.entries[b].inserted < st.entries[LayerKey(i)].inserted
  }

  lemma CardAtMost(a: set<Key>, b: set<Key>)
    requires a <= b
    ensures |a| <= |b|
  {
    if a != b { CardLess(a, b); }
  }

  lemma NotYetVisited(n: nat, layers: nat)
    requires 0 <= n < layers
    ensures Last(Turn(n, layers), n, layers) == -1
  {
    hide Last;
    LastIs(Turn(n, layers), n, layers);
    assert Turn(n, layers) == n;
    assert forall t: nat :: t < n ==> Turn(t, layers) == t;
  }

  /** When unpinned layers outnumber the window, the one whose turn it is has gone by the time it comes. */
  lemma UnpinnedIsGone(cfg: Config, capacity: nat, pinned: set<Key>, layers: nat, n: nat, st: State)
    requires layers > 0 && Scanning(cfg, capacity, pinned, layers, n, st) && Recent(cfg, st, layers, n)
    requires |Unpinned(layers, pinned)| > cfg.window && LayerKey(Turn(n, layers)) !in pinned
    ensures LayerKey(Turn(n, layers)) !in st.entries
  {
    hide Quiet, Last, Turn;
    var k := LayerKey(Turn(n, layers));
    if n < layers {
      NotYetVisited(n, layers);
    } else if k in st.entries {
      OneRound(k.layer, n, layers);
      forall i | 0 <= i < layers && LayerKey(i) !in pinned ensures LayerKey(i) in Roaming(st) {
        OneRound(i, n, layers);
        if i != k.layer { assert LaterThan(st, layers, n, i, k); }
      }
      assert Unpinned(layers, pinned) <= Roaming(st);
      CardAtMost(Unpinned(layers, pinned), Roaming(st));
    }
  }

  lemma RoamingIsWindowed(cfg: Config, st: State)
    requires Quiet(cfg, st)
    ensures Roaming(st) == Windowed(st)
  {
    QuietTracks(cfg, st);
  }

  // Others keep their order; the layer just visited is the newest of all.
  lemma RecentAfterMiss(cfg: Config, capacity: nat, pinned: set<Key>, layers: nat, n: nat, st: State, r: State)
    requires layers > 0 && Scanning(cfg, capacity, pinned, layers, n, st) && Recent(cfg, st, layers, n)
    requires Joined(cfg, st, LayerKey(Turn(n, layers)), r)
    ensures Recent(cfg, r, layers, n + 1)
  {
    hide Last, Turn, Windowed;
    var k := LayerKey(Turn(n, layers));
    LastSteps(n, n + 1, layers);
    QuietTracks(cfg, st);
    QuietTracks(cfg, r);
    RoamingIsWindowed(cfg, r);
    hide Quiet, Roaming;
    forall i, b | 0 <= i < layers && LayerKey(i) !in r.pinned && b in r.entries && LaterThan(r, layers, n + 1, i, b)
      ensures LayerKey(i) in r.entries && r.entries[b].inserted < r.entries[LayerKey(i)].inserted
    {
      RecentPair(cfg, capacity, pinned, layers, n, st, r, i, b);
    }
  }

  lemma RecentPair(cfg: Config, capacity: nat, pinned: set<Key>, layers: nat, n: nat, st: State, r: State, i: nat, b: Key)
    requires layers > 0 && Scanning(cfg, capacity, pinned, layers, n, st) && Recent(cfg, st, layers, n)
    requires Joined(cfg, st, LayerKey(Turn(n, layers)), r)
    requires i < layers && LayerKey(i) !in r.pinned && b in r.entries && LaterThan(r, layers, n + 1, i, b)
    requires !r.entries[b].pinned
    ensures LayerKey(i) in r.entries && r.entries[b].inserted < r.entries[LayerKey(i)].inserted
  {
    hide Last, Turn, Windowed, Quiet, Roaming;
    var k := LayerKey(Turn(n, layers));
    LastSteps(n, n + 1, layers);
    if b != k && LayerKey(i) != k {
      assert LaterThan(st, layers, n, i, b);
      assert Behind(st, r, LayerKey(i), b);
    }
  }

  lemma {:induction false} RecentHolds(cfg: Config, capacity: nat, pinned: set<Key>, layers: nat, n: nat)
    requires cfg.Valid() && layers > 0 && 0 < capacity && EachFits(cfg, capacity, layers)
    requires |Unpinned(layers, pinned)| > cfg.window
    ensures Recent(cfg, After(cfg, capacity, pinned, layers, n), layers, n)
    decreases n
  {
    hide Visit, Wf, Recent, Scanning, Last, Turn;
    if n == 0 {
      NothingRecent(cfg, capacity, pinned, layers);
    } else {
      var st := After(cfg, capacity, pinned, layers, n - 1);
      RecentHolds(cfg, capacity, pinned, layers, n - 1);
      ScanHolds(cfg, capacity, pinned, layers, n - 1);
      RecentStep(cfg, capacity, pinned, layers, n - 1, n, st);
    }
  }

  lemma NothingRecent(cfg: Config, capacity: nat, pinned: set<Key>, layers: nat)
    requires layers > 0
    ensures Recent(cfg, Start(capacity, 0, pinned), layers, 0)
  {
    assert Roaming(Start(capacity, 0, pinned)) == {};
  }

  lemma RecentStep(cfg: Config, capacity: nat, pinned: set<Key>, layers: nat, n: nat, m: nat, st: State)
    requires layers > 0 && 0 < capacity && EachFits(cfg, capacity, layers) && m == n + 1
    requires Scanning(cfg, capacity, pinned, layers, n, st) && Recent(cfg, st, layers, n)
    requires |Unpinned(layers, pinned)| > cfg.window
    ensures Recent(cfg, Visit(cfg, st, LayerKey(Turn(n, layers))), layers, m)
  {
    hide Wf, Visit, Last, Turn, Joined;
    var k := LayerKey(Turn(n, layers));
    QuietTracks(cfg, st);
    if k in st.entries {
      HitChangesNothing(cfg, st, k);
      LastSteps(n, m, layers);
      if k !in pinned { UnpinnedIsGone(cfg, capacity, pinned, layers, n, st); }
      hide Quiet, Roaming, Unpinned;
      forall i, b | 0 <= i < layers && LayerKey(i) !in st.pinned && b in st.entries && LaterThan(st, layers, m, i, b)
        ensures LayerKey(i) in st.entries && st.entries[b].inserted < st.entries[LayerKey(i)].inserted
      {
        assert LaterThan(st, layers, n, i, b);
      }
    } else {
      MissJoins(cfg, st, k);
      RecentAfterMiss(cfg, capacity, pinned, layers, n, st, Visit(cfg, st, k));
    }
  }

  // ---- everything fits --------------------------------------------------------------------------------------------

  ghost predicate AllIn(st: State, layers: nat, n: nat)
    requires layers > 0
  {
    forall i :: 0 <= i < layers && Last(i, n, layers) >= 0 ==> LayerKey(i) in st.entries
  }

  lemma NoRoomNeeded(cfg: Config, st: State, bytes: nat)
    requires Wf(cfg, st) && st.device.bytes + bytes <= st.device.capacity
    ensures MakeRoom(cfg, st, bytes) == st
  {}

  lemma WideWindow(cfg: Config, st: State)
    requires Wf(cfg, st) && |Windowed(st)| <= cfg.window
    ensures EnforceWindow(cfg, st) == st
  {}

  lemma BytesOnDevice(cfg: Config, st: State, k: Key, all: set<Key>)
    requires Wf(cfg, st) && k !in st.device.keys && st.device.keys + {k} <= all
    ensures st.device.bytes + cfg.size(k) <= Sum(cfg.size, all)
  {
    hide EntryWf;
    SumAdd(cfg.size, st.device.keys, k);
    SumSubset(cfg.size, st.device.keys + {k}, all);
  }

  lemma ScannedKeys(cfg: Config, capacity: nat, pinned: set<Key>, layers: nat, n: nat, st: State)
    requires layers > 0 && Scanning(cfg, capacity, pinned, layers, n, st)
    ensures st.device.keys + {LayerKey(Turn(n, layers))} <= AllLayers(layers)
    ensures forall k :: k in st.entries.Keys + {LayerKey(Turn(n, layers))} && k !in pinned ==> k in Unpinned(layers, pinned)
  {
    hide Last, Turn;
    QuietTracks(cfg, st);
  }

  lemma RoomForAll(cfg: Config, capacity: nat, pinned: set<Key>, layers: nat, n: nat, st: State)
    requires layers > 0 && 0 < capacity && Scanning(cfg, capacity, pinned, layers, n, st)
    requires Sum(cfg.size, AllLayers(layers)) <= capacity && |Unpinned(layers, pinned)| <= cfg.window
    requires LayerKey(Turn(n, layers)) !in st.entries && cfg.size(LayerKey(Turn(n, layers))) <= capacity
    ensures Wf(cfg, st) && forall j :: j in st.entries ==> j in Fetched(cfg, st, LayerKey(Turn(n, layers))).entries
  {
    hide Last, Turn, Wf, MakeRoom, EnforceWindow, Unpinned, AllLayers, Balance, Kept;
    var k := LayerKey(Turn(n, layers));
    var counted := Read(cfg, st, k);
    QuietIsWf(cfg, st);
    QuietTracks(cfg, st);
    ReadQuiet(cfg, st, k);
    NewcomerIsQuiet(cfg, counted, k);
    ScannedKeys(cfg, capacity, pinned, layers, n, st);
    BytesOnDevice(cfg, st, k, AllLayers(layers));
    NoRoomNeeded(cfg, counted, cfg.size(k));
    var added := OnDevice(Ticked(counted), k, NewEntry(cfg, Ticked(counted), k));
    RoamingIsWindowed(cfg, added);
    CardAtMost(Roaming(added), Unpinned(layers, pinned));
    WideWindow(cfg, added);
    assert Admit(cfg, counted, k) == added;
  }

  lemma {:induction false} AllInHolds(cfg: Config, capacity: nat, pinned: set<Key>, layers: nat, n: nat)
    requires cfg.Valid() && layers > 0 && 0 < capacity && EachFits(cfg, capacity, layers)
    requires Sum(cfg.size, AllLayers(layers)) <= capacity && |Unpinned(layers, pinned)| <= cfg.window
    ensures AllIn(After(cfg, capacity, pinned, layers, n), layers, n)
    decreases n
  {
    hide Visit, Wf, Scanning, Last, Turn, AllIn;
    if n == 0 {
      NothingIn(capacity, pinned, layers);
    } else {
      AllInHolds(cfg, capacity, pinned, layers, n - 1);
      ScanHolds(cfg, capacity, pinned, layers, n - 1);
      AllInStep(cfg, capacity, pinned, layers, n - 1, n, After(cfg, capacity, pinned, layers, n - 1));
    }
  }

  lemma NothingIn(capacity: nat, pinned: set<Key>, layers: nat)
    requires layers > 0
    ensures AllIn(Start(capacity, 0, pinned), layers, 0)
  {}

  lemma AllInStep(cfg: Config, capacity: nat, pinned: set<Key>, layers: nat, n: nat, m: nat, st: State)
    requires layers > 0 && 0 < capacity && EachFits(cfg, capacity, layers) && m == n + 1
    requires Scanning(cfg, capacity, pinned, layers, n, st) && AllIn(st, layers, n)
    requires Sum(cfg.size, AllLayers(layers)) <= capacity && |Unpinned(layers, pinned)| <= cfg.window
    ensures AllIn(Visit(cfg, st, LayerKey(Turn(n, layers))), layers, m)
  {
    hide Wf, Visit, Last, Turn, Quiet, Unpinned, AllLayers, Joined, Fetched;
    QuietIsWf(cfg, st);
    var k := LayerKey(Turn(n, layers));
    QuietTracks(cfg, st);
    LastSteps(n, m, layers);
    if k in st.entries {
      HitChangesNothing(cfg, st, k);
    } else {
      RoomForAll(cfg, capacity, pinned, layers, n, st);
      MissJoins(cfg, st, k);
      JoinedIsQuiet(cfg, st, k, Visit(cfg, st, k));
    }
  }

  // ---- hits and misses -----------------------------------------------------------------------------------------------

  // Access `n` finds its layer on the device.
  ghost predicate Hits(cfg: Config, capacity: nat, pinned: set<Key>, layers: nat, n: nat)
    requires cfg.Valid() && layers > 0
  {
    LayerKey(Turn(n, layers)) in After(cfg, capacity, pinned, layers, n).device.keys
  }

  /** From the second pass on every pinned layer hits; when unpinned layers outnumber the window every
      access to one misses, however much memory there is; and when everything fits and they do not,
      nothing misses again. */
  lemma ScanOutcome(cfg: Config, capacity: nat, pinned: set<Key>, layers: nat, n: nat)
    requires cfg.Valid() && layers > 0 && 0 < capacity && EachFits(cfg, capacity, layers)
    ensures n >= layers && LayerKey(Turn(n, layers)) in pinned ==> Hits(cfg, capacity, pinned, layers, n)
    ensures |Unpinned(layers, pinned)| > cfg.window && LayerKey(Turn(n, layers)) !in pinned
      ==> !Hits(cfg, capacity, pinned, layers, n)
    ensures n >= layers && Sum(cfg.size, AllLayers(layers)) <= capacity && |Unpinned(layers, pinned)| <= cfg.window
      ==> Hits(cfg, capacity, pinned, layers, n)
  {
    hide Wf, Last, Turn, Unpinned, AllLayers, Recent, Quiet;
    var st := After(cfg, capacity, pinned, layers, n);
    ScanHolds(cfg, capacity, pinned, layers, n);
    QuietTracks(cfg, st);
    if n >= layers { OneRound(Turn(n, layers), n, layers); }
    if |Unpinned(layers, pinned)| > cfg.window {
      RecentHolds(cfg, capacity, pinned, layers, n);
      if LayerKey(Turn(n, layers)) !in pinned { UnpinnedIsGone(cfg, capacity, pinned, layers, n, st); }
    } else if Sum(cfg.size, AllLayers(layers)) <= capacity {
      AllInHolds(cfg, capacity, pinned, layers, n);
    }
  }
}
