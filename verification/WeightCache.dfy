// Device, host and storage residency of streamed weights: reference counts, a first-in-first-out window
// of dense layers, experts by popularity, a pinned set that never moves. Each step is a function on the
// whole state, with what it keeps.
module WeightCache {
  import opened Options

  // Whatever is not an expert is dense: a whole layer, or one of its always-on modules by name.
  datatype Kind = Dense(unit: string) | Expert(ordinal: nat)
  datatype Key = Key(layer: nat, kind: Kind)
  datatype Tier = Device | Host | Transient
  type Payload = int

  datatype Entry = Entry(bytes: nat, tier: Tier, payload: Payload, refs: nat, pinned: bool, uses: real, inserted: nat) {
    predicate Evictable() {
      !pinned && refs == 0
    }
  }

  // Packed size and content of every key, which ones the owner lets into host memory, how many dense
  // layers the window holds, and how often expert popularity is halved.
  datatype Config = Config(size: Key -> nat, fetch: Key -> Payload, hosts: Key -> bool, window: nat, aging: nat) {
    predicate Valid() {
      window >= 1 && aging >= 1
    }
  }

  datatype Shelf = Shelf(keys: set<Key>, bytes: int, capacity: nat)

  // Payloads no longer held: given back through the owner's discard hook, or cleared before the hook was
  // called, which was then given nothing.
  datatype Gone = Gone(back: multiset<Payload>, cleared: multiset<Payload>)

  // `fetched` is every payload that was ever read from storage.
  datatype State = State(entries: map<Key, Entry>, device: Shelf, host: Shelf, pinned: set<Key>,
                         clock: nat, accesses: nat, fetched: multiset<Payload>, discarded: Gone)

  // ---- byte sums ------------------------------------------------------------------------------------

  ghost function Sum(size: Key -> nat, s: set<Key>): nat {
    if s == {} then 0 else
      var k :| k in s;
      size(k) + Sum(size, s - {k})
  }

  lemma {:induction false} SumRemove(size: Key -> nat, s: set<Key>, k: Key)
    requires k in s
    ensures Sum(size, s) == size(k) + Sum(size, s - {k})
    decreases |s|
  {
    var j :| j in s && Sum(size, s) == size(j) + Sum(size, s - {j});
    if j != k {
      SumRemove(size, s - {j}, k);
      SumRemove(size, s - {k}, j);
      assert s - {j} - {k} == s - {k} - {j};
    }
  }

  lemma SumAdd(size: Key -> nat, s: set<Key>, k: Key)
    requires k !in s
    ensures Sum(size, s + {k}) == size(k) + Sum(size, s)
  {
    SumRemove(size, s + {k}, k);
    assert s + {k} - {k} == s;
  }

  lemma {:induction false} SumSubset(size: Key -> nat, s: set<Key>, t: set<Key>)
    requires s <= t
    ensures Sum(size, s) <= Sum(size, t)
    decreases |s|
  {
    if s != {} {
      var k :| k in s;
      SumRemove(size, s, k);
      SumRemove(size, t, k);
      SumSubset(size, s - {k}, t - {k});
    }
  }

  // ---- the order entries leave in ------------------------------------------------------------------------

  // Experts before dense layers, the least used first, then the oldest admitted.
  predicate Sooner(entries: map<Key, Entry>, a: Key, b: Key)
    requires a in entries && b in entries
  {
    if a.kind.Dense? != b.kind.Dense? then b.kind.Dense?
    else
      || entries[a].uses < entries[b].uses
      || (entries[a].uses == entries[b].uses && entries[a].inserted < entries[b].inserted)
  }

  predicate Ordered(entries: map<Key, Entry>) {
    forall a, b :: a in entries && b in entries && a != b ==> entries[a].inserted != entries[b].inserted
  }

  predicate Leads(entries: map<Key, Entry>, s: set<Key>, k: Key)
    requires s <= entries.Keys && k in s
  {
    forall j :: j in s && j != k ==> Sooner(entries, k, j)
  }

  lemma {:induction false} LeaderExists(entries: map<Key, Entry>, s: set<Key>) returns (k: Key)
    requires Ordered(entries) && s != {} && s <= entries.Keys
    ensures k in s && Leads(entries, s, k)
    decreases |s|
  {
    k :| k in s;
    if s != {k} {
      var rest := s - {k};
      assert rest != {};
      var j := LeaderExists(entries, rest);
      if Sooner(entries, j, k) {
        k := j;
      } else {
        forall i | i in rest && i != j ensures Sooner(entries, k, i) {
          assert Sooner(entries, j, i);
        }
      }
    }
  }

  lemma HasLeader(entries: map<Key, Entry>, s: set<Key>)
    requires Ordered(entries) && s != {} && s <= entries.Keys
    ensures exists k :: k in s && Leads(entries, s, k)
  {
    var _ := LeaderExists(entries, s);
  }

  // The entry of `s` that leaves first.
  ghost function First(entries: map<Key, Entry>, s: set<Key>): (k: Key)
    requires Ordered(entries) && s != {} && s <= entries.Keys
    ensures k in s && Leads(entries, s, k)
  {
    HasLeader(entries, s);
    var k :| k in s && Leads(entries, s, k);
    k
  }

  // ---- the invariant ---------------------------------------------------------------------------------------

  predicate EntryWf(cfg: Config, st: State, k: Key)
    requires k in st.entries
  {
    var e := st.entries[k];
    && e.bytes == cfg.size(k) && e.payload == cfg.fetch(k) && e.pinned == (k in st.pinned)
    && e.inserted <= st.clock && (k.kind.Dense? ==> e.uses == 0.0)
    && (e.tier.Device? <==> k in st.device.keys) && (e.tier.Host? <==> k in st.host.keys)
    && (e.tier.Transient? ==> e.refs > 0)
  }

  // Tracked keys are the disjoint union of device, host and transient; totals are the sums of what each
  // tier holds; the host never exceeds its capacity; pinned flags are plan membership.
  ghost predicate Wf(cfg: Config, st: State) {
    && cfg.Valid() && Ordered(st.entries)
    && (forall k :: k in st.entries ==> EntryWf(cfg, st, k))
    && st.device.keys <= st.entries.Keys && st.host.keys <= st.entries.Keys
    && st.device.bytes == Sum(cfg.size, st.device.keys)
    && st.host.bytes == Sum(cfg.size, st.host.keys) <= st.host.capacity
  }

  // Whatever is in use, or pinned, is exactly as it was.
  predicate Kept(st: State, r: State) {
    forall k :: k in st.entries && !st.entries[k].Evictable() ==> k in r.entries && r.entries[k] == st.entries[k]
  }

  // What is stored under these keys.
  ghost function Contents(fetch: Key -> Payload, s: set<Key>): multiset<Payload> {
    if s == {} then multiset{} else
      var k :| k in s;
      multiset{fetch(k)} + Contents(fetch, s - {k})
  }

  lemma {:induction false} ContentsRemove(fetch: Key -> Payload, s: set<Key>, k: Key)
    requires k in s
    ensures Contents(fetch, s) == multiset{fetch(k)} + Contents(fetch, s - {k})
    decreases |s|
  {
    var j :| j in s && Contents(fetch, s) == multiset{fetch(j)} + Contents(fetch, s - {j});
    if j != k {
      ContentsRemove(fetch, s - {j}, k);
      ContentsRemove(fetch, s - {k}, j);
      assert s - {j} - {k} == s - {k} - {j};
    }
  }

  lemma ContentsAdd(fetch: Key -> Payload, s: set<Key>, k: Key)
    requires k !in s
    ensures Contents(fetch, s + {k}) == multiset{fetch(k)} + Contents(fetch, s)
  {
    ContentsRemove(fetch, s + {k}, k);
    assert s + {k} - {k} == s;
  }

  // Payloads held and payloads let go of.
  ghost function Balance(cfg: Config, st: State): multiset<Payload> {
    Contents(cfg.fetch, st.entries.Keys) + st.discarded.back + st.discarded.cleared
  }

  lemma BalanceWithout(cfg: Config, st: State, r: State, k: Key)
    requires k in st.entries && r.entries == st.entries - {k} && r.discarded == st.discarded
    ensures Balance(cfg, r) + multiset{cfg.fetch(k)} == Balance(cfg, st)
  {
    ContentsRemove(cfg.fetch, st.entries.Keys, k);
    assert r.entries.Keys == st.entries.Keys - {k};
  }

  lemma BalanceWith(cfg: Config, st: State, r: State, k: Key)
    requires k !in st.entries && r.entries.Keys == st.entries.Keys + {k} && r.discarded == st.discarded
    ensures Balance(cfg, r) == Balance(cfg, st) + multiset{cfg.fetch(k)}
  {
    ContentsAdd(cfg.fetch, st.entries.Keys, k);
  }

  function GiveBack(st: State, payload: Payload): State {
    st.(discarded := st.discarded.(back := st.discarded.back + multiset{payload}))
  }

  // ---- leaving -----------------------------------------------------------------------------------------------

  function Off(shelf: Shelf, k: Key, bytes: nat): Shelf {
    shelf.(keys := shelf.keys - {k}, bytes := shelf.bytes - bytes)
  }

  function On(shelf: Shelf, k: Key, bytes: nat): Shelf {
    shelf.(keys := shelf.keys + {k}, bytes := shelf.bytes + bytes)
  }

  // An entry falls out of host memory. Its payload has been cleared by the time it is discarded.
  function DropHosted(st: State, k: Key): State
    requires k in st.entries
  {
    st.(host := Off(st.host, k, st.entries[k].bytes), entries := st.entries - {k},
        discarded := st.discarded.(cleared := st.discarded.cleared + multiset{st.entries[k].payload}))
  }

  ghost function HostVictims(st: State): set<Key>
    requires st.host.keys <= st.entries.Keys
  {
    set k | k in st.host.keys && st.entries[k].Evictable()
  }

  lemma DropHostedWf(cfg: Config, st: State, k: Key)
    requires Wf(cfg, st) && k in st.host.keys && st.entries[k].Evictable()
    ensures Wf(cfg, DropHosted(st, k)) && Kept(st, DropHosted(st, k)) && Balance(cfg, DropHosted(st, k)) == Balance(cfg, st)
  {
    SumRemove(cfg.size, st.host.keys, k);
    BalanceWithout(cfg, st, DropHosted(st, k).(discarded := st.discarded), k);
    assert EntryWf(cfg, st, k);
    var r := DropHosted(st, k);
    assert k !in st.device.keys by { assert EntryWf(cfg, st, k); }
    forall j | j in r.entries ensures EntryWf(cfg, r, j) { assert EntryWf(cfg, st, j); }
  }

  // What leaving for host memory may change.
  predicate HostOnly(st: State, r: State) {
    && r == st.(entries := r.entries, host := r.host, discarded := r.discarded)
    && r.host.capacity == st.host.capacity && r.entries.Keys <= st.entries.Keys
    && (forall k :: k in r.entries ==> r.entries[k] == st.entries[k])
    && (forall k :: k in st.device.keys ==> k in r.entries)
  }

  ghost function MakeHostRoom(cfg: Config, st: State, bytes: nat): (r: State)
    requires Wf(cfg, st)
    ensures Wf(cfg, r) && Kept(st, r) && Balance(cfg, r) == Balance(cfg, st)
    ensures HostOnly(st, r)
    decreases |st.host.keys|
  {
    if st.host.bytes + bytes <= st.host.capacity || HostVictims(st) == {} then st
    else
      var k := First(st.entries, HostVictims(st));
      DropHostedWf(cfg, st, k);
      MakeHostRoom(cfg, DropHosted(st, k), bytes)
  }

  // Take an entry off the device, out of the cache's hands.
  function LiftOff(st: State, k: Key): State
    requires k in st.entries
  {
    st.(device := Off(st.device, k, st.entries[k].bytes), entries := st.entries - {k})
  }

  // The cache with an entry lifted off the device and what room the host can make for it.
  ghost function Lifted(cfg: Config, st: State, k: Key): State
    requires Wf(cfg, st) && k in st.device.keys
  {
    LiftOffWf(cfg, st, k);
    if st.host.capacity > 0 then MakeHostRoom(cfg, LiftOff(st, k), st.entries[k].bytes) else LiftOff(st, k)
  }

  // Device to host if the host will take it, otherwise out of the cache.
  ghost function Demote(cfg: Config, st: State, k: Key): (r: State)
    requires Wf(cfg, st) && k in st.device.keys && st.entries[k].Evictable()
  {
    var e, room := st.entries[k], Lifted(cfg, st, k);
    if st.host.capacity > 0 && room.host.bytes + e.bytes <= room.host.capacity && cfg.hosts(k)
    then OnHost(room, k, e)
    else GiveBack(room, e.payload)
  }

  lemma LiftOffWf(cfg: Config, st: State, k: Key)
    requires Wf(cfg, st) && k in st.device.keys
    ensures Wf(cfg, LiftOff(st, k)) && Balance(cfg, LiftOff(st, k)) + multiset{cfg.fetch(k)} == Balance(cfg, st)
  {
    SumRemove(cfg.size, st.device.keys, k);
    BalanceWithout(cfg, st, LiftOff(st, k), k);
    hide Balance;
    var r := LiftOff(st, k);
    assert EntryWf(cfg, st, k);
    forall j | j in r.entries ensures EntryWf(cfg, r, j) { assert EntryWf(cfg, st, j); }
  }

  // An entry that is in nobody's hands and may be put on a shelf.
  predicate Loose(cfg: Config, st: State, k: Key, e: Entry) {
    && k !in st.entries && e.bytes == cfg.size(k) && e.payload == cfg.fetch(k) && e.pinned == (k in st.pinned)
    && e.inserted <= st.clock && (k.kind.Dense? ==> e.uses == 0.0)
    && forall j :: j in st.entries ==> st.entries[j].inserted != e.inserted
  }

  function OnHost(st: State, k: Key, e: Entry): State {
    st.(entries := st.entries[k := e.(tier := Host)], host := On(st.host, k, e.bytes))
  }

  function OnDevice(st: State, k: Key, e: Entry): State {
    st.(entries := st.entries[k := e.(tier := Device)], device := On(st.device, k, e.bytes))
  }

  lemma StillOrdered(st: State, k: Key, e: Entry)
    requires Ordered(st.entries) && forall j :: j in st.entries ==> st.entries[j].inserted != e.inserted
    ensures Ordered(st.entries[k := e])
  {}

  lemma OnHostWf(cfg: Config, st: State, k: Key, e: Entry)
    requires Wf(cfg, st) && Loose(cfg, st, k, e) && st.host.bytes + e.bytes <= st.host.capacity
    ensures Wf(cfg, OnHost(st, k, e)) && Balance(cfg, OnHost(st, k, e)) == Balance(cfg, st) + multiset{cfg.fetch(k)}
  {
    hide Sum, Ordered, Balance;
    BalanceWith(cfg, st, OnHost(st, k, e), k);
    var r := OnHost(st, k, e);
    SumAdd(cfg.size, st.host.keys, k);
    StillOrdered(st, k, e.(tier := Host));
    forall j | j in r.entries ensures EntryWf(cfg, r, j) {
      if j != k { assert EntryWf(cfg, st, j); }
    }
  }

  lemma OnDeviceWf(cfg: Config, st: State, k: Key, e: Entry)
    requires Wf(cfg, st) && Loose(cfg, st, k, e)
    ensures Wf(cfg, OnDevice(st, k, e)) && Balance(cfg, OnDevice(st, k, e)) == Balance(cfg, st) + multiset{cfg.fetch(k)}
  {
    hide Sum, Ordered, Balance;
    BalanceWith(cfg, st, OnDevice(st, k, e), k);
    var r := OnDevice(st, k, e);
    SumAdd(cfg.size, st.device.keys, k);
    StillOrdered(st, k, e.(tier := Device));
    forall j | j in r.entries ensures EntryWf(cfg, r, j) {
      if j != k { assert EntryWf(cfg, st, j); }
    }
  }

  lemma GiveBackWf(cfg: Config, st: State, payload: Payload)
    requires Wf(cfg, st)
    ensures var r := GiveBack(st, payload); Wf(cfg, r) && Balance(cfg, r) == Balance(cfg, st) + multiset{payload}
  {
    var r := GiveBack(st, payload);
    forall j | j in r.entries ensures EntryWf(cfg, r, j) { assert EntryWf(cfg, st, j); }
  }

  // What a demotion does, for those who need not know where the entry went.
  predicate Demoted(st: State, k: Key, r: State)
    requires k in st.entries
  {
    && r == st.(entries := r.entries, device := Off(st.device, k, st.entries[k].bytes), host := r.host,
       discarded := r.discarded)
    && r.host.capacity == st.host.capacity
    && (forall j :: j in st.device.keys && j != k && j in st.entries ==> j in r.entries && r.entries[j] == st.entries[j])
    && (forall j :: j in r.entries ==> j in st.entries && r.entries[j] == st.entries[j].(tier := r.entries[j].tier))
    && (st.host.capacity == 0 ==> r.entries == st.entries - {k})
  }

  lemma LiftedWf(cfg: Config, st: State, k: Key)
    requires Wf(cfg, st) && k in st.device.keys && st.entries[k].Evictable()
    ensures var room := Lifted(cfg, st, k);
      && Wf(cfg, room) && Kept(LiftOff(st, k), room) && Balance(cfg, room) + multiset{cfg.fetch(k)} == Balance(cfg, st)
      && HostOnly(LiftOff(st, k), room) && Loose(cfg, room, k, st.entries[k])
      && (st.host.capacity == 0 ==> room == LiftOff(st, k))
  {
    hide Balance, Sum;
    LiftOffWf(cfg, st, k);
    assert EntryWf(cfg, st, k);
    hide MakeHostRoom, EntryWf;
  }

  lemma LiftedToHost(st: State, k: Key, room: State)
    requires k in st.entries && st.entries[k].Evictable() && k !in room.entries && st.host.capacity > 0
    requires Kept(LiftOff(st, k), room) && HostOnly(LiftOff(st, k), room)
    ensures var r := OnHost(room, k, st.entries[k]); Kept(st, r) && Demoted(st, k, r)
  {}

  lemma LiftedAway(st: State, k: Key, room: State, gone: Gone)
    requires k in st.entries && st.entries[k].Evictable() && k !in room.entries
    requires Kept(LiftOff(st, k), room) && HostOnly(LiftOff(st, k), room)
    requires st.host.capacity == 0 ==> room == LiftOff(st, k)
    ensures var r := room.(discarded := gone); Kept(st, r) && Demoted(st, k, r)
  {}

  /** A demotion takes one entry off the device and touches nothing that is in use or pinned. */
  lemma DemoteWf(cfg: Config, st: State, k: Key)
    requires Wf(cfg, st) && k in st.device.keys && st.entries[k].Evictable()
    ensures var r := Demote(cfg, st, k);
      Wf(cfg, r) && Kept(st, r) && Balance(cfg, r) == Balance(cfg, st) && Demoted(st, k, r)
  {
    hide Lifted, Wf, Balance, HostOnly, Kept, Demoted;
    LiftedWf(cfg, st, k);
    DeviceIsTracked(cfg, st);
    var e, room := st.entries[k], Lifted(cfg, st, k);
    if st.host.capacity > 0 && room.host.bytes + e.bytes <= room.host.capacity && cfg.hosts(k) {
      OnHostWf(cfg, room, k, e);
      LiftedToHost(st, k, room);
    } else {
      GiveBackWf(cfg, room, e.payload);
      LiftedAway(st, k, room, GiveBack(room, e.payload).discarded);
    }
  }

  lemma DeviceIsTracked(cfg: Config, st: State)
    requires Wf(cfg, st)
    ensures st.device.keys <= st.entries.Keys && Ordered(st.entries)
    ensures forall k :: k in st.device.keys ==> st.entries[k].tier.Device?
  {
    forall k | k in st.device.keys ensures st.entries[k].tier.Device? { assert EntryWf(cfg, st, k); }
  }

  // ---- making room ------------------------------------------------------------------------------------------

  ghost function Victims(st: State): set<Key>
    requires st.device.keys <= st.entries.Keys
  {
    set k | k in st.device.keys && st.entries[k].Evictable()
  }

  // Free `bytes` on the device, as far as what is neither pinned nor in use allows. The entry being
  // acquired is on no tier meanwhile, so there is nothing to exclude.
  ghost function MakeRoom(cfg: Config, st: State, bytes: nat): (r: State)
    requires Wf(cfg, st)
    ensures Wf(cfg, r) && Kept(st, r) && Balance(cfg, r) == Balance(cfg, st)
    ensures r.device.capacity == 0 || r.device.bytes + bytes <= r.device.capacity || Victims(r) == {}
    decreases |st.device.keys|
  {
    if st.device.capacity == 0 || st.device.bytes + bytes <= st.device.capacity || Victims(st) == {} then st
    else
      var k := First(st.entries, Victims(st));
      DemoteWf(cfg, st, k);
      MakeRoom(cfg, Demote(cfg, st, k), bytes)
  }

  ghost function Windowed(st: State): set<Key>
    requires st.device.keys <= st.entries.Keys
  {
    set k | k in st.device.keys && k.kind.Dense? && !st.entries[k].pinned
  }

  ghost function Idle(st: State): set<Key>
    requires st.device.keys <= st.entries.Keys
  {
    set k | k in Windowed(st) && st.entries[k].refs == 0
  }

  // Hold the unpinned dense layers on the device to the window's width, oldest out first.
  ghost function EnforceWindow(cfg: Config, st: State): (r: State)
    requires Wf(cfg, st)
    ensures Wf(cfg, r) && Kept(st, r) && Balance(cfg, r) == Balance(cfg, st)
    ensures |Windowed(r)| <= cfg.window || Idle(r) == {}
    decreases |st.device.keys|
  {
    if |Windowed(st)| <= cfg.window || Idle(st) == {} then st
    else
      var k := First(st.entries, Idle(st));
      DemoteWf(cfg, st, k);
      EnforceWindow(cfg, Demote(cfg, st, k))
  }

  // ---- admission and use ---------------------------------------------------------------------------------------

  function NewEntry(cfg: Config, st: State, k: Key): Entry {
    Entry(cfg.size(k), Device, cfg.fetch(k), 0, k in st.pinned, 0.0, st.clock)
  }

  function Ticked(st: State): State {
    st.(clock := st.clock + 1)
  }

  // An entry too large to keep stays tracked until its user lets go of it. It is counted in use from the
  // start here, as the acquisition that admits it does before anything else can look.
  ghost function Admit(cfg: Config, st: State, k: Key): (r: State)
    requires Wf(cfg, st) && k !in st.entries
    ensures Wf(cfg, r) && Kept(st, r) && Balance(cfg, r) == Balance(cfg, st) + multiset{cfg.fetch(k)}
  {
    var ticked := Ticked(st);
    var e := NewEntry(cfg, ticked, k);
    TickedWf(cfg, st, k);
    if st.device.capacity == 0 || e.bytes > st.device.capacity then
      ticked.(entries := ticked.entries[k := e.(tier := Transient, refs := 1)])
    else
      var added := OnDevice(ticked, k, e);
      if k.kind.Dense? then EnforceWindow(cfg, added) else added
  }

  lemma TickedWf(cfg: Config, st: State, k: Key)
    requires Wf(cfg, st) && k !in st.entries
    ensures var ticked := Ticked(st);
      var e := NewEntry(cfg, ticked, k);
      var kept := ticked.(entries := ticked.entries[k := e.(tier := Transient, refs := 1)]);
      && Wf(cfg, kept) && Balance(cfg, kept) == Balance(cfg, st) + multiset{cfg.fetch(k)} && Kept(st, kept)
      && Wf(cfg, OnDevice(ticked, k, e)) && Kept(st, OnDevice(ticked, k, e))
      && Balance(cfg, OnDevice(ticked, k, e)) == Balance(cfg, st) + multiset{cfg.fetch(k)}
  {
    var ticked := Ticked(st);
    var e := NewEntry(cfg, ticked, k);
    forall j | j in ticked.entries ensures EntryWf(cfg, ticked, j) { assert EntryWf(cfg, st, j); }
    forall j | j in ticked.entries ensures ticked.entries[j].inserted != e.inserted { assert EntryWf(cfg, st, j); }
    assert Wf(cfg, ticked);
    OnDeviceWf(cfg, ticked, k, e);
    TransientWf(cfg, ticked, k, e.(tier := Transient, refs := 1));
  }

  lemma TransientWf(cfg: Config, st: State, k: Key, e: Entry)
    requires Wf(cfg, st) && Loose(cfg, st, k, e) && e.tier.Transient? && e.refs > 0
    ensures var r := st.(entries := st.entries[k := e]);
      Wf(cfg, r) && Balance(cfg, r) == Balance(cfg, st) + multiset{cfg.fetch(k)}
  {
    hide Sum, Ordered, Balance;
    BalanceWith(cfg, st, st.(entries := st.entries[k := e]), k);
    var r := st.(entries := st.entries[k := e]);
    StillOrdered(st, k, e);
    forall j | j in r.entries ensures EntryWf(cfg, r, j) {
      if j != k { assert EntryWf(cfg, st, j); }
    }
  }

  // Halve every expert's popularity.
  function Aged(entries: map<Key, Entry>): map<Key, Entry> {
    map k | k in entries :: if k.kind.Expert? then entries[k].(uses := entries[k].uses * 0.5) else entries[k]
  }

  // Record a use; only experts keep a count.
  function Touch(cfg: Config, st: State, k: Key): State
    requires cfg.Valid()
  {
    if k.kind.Dense? || k !in st.entries then st
    else
      var used := st.(entries := st.entries[k := st.entries[k].(uses := st.entries[k].uses + 1.0)],
        accesses := st.accesses + 1);
      if used.accesses % cfg.aging == 0 then used.(entries := Aged(used.entries)) else used
  }

  function Claim(st: State, k: Key): State {
    if k in st.entries then st.(entries := st.entries[k := st.entries[k].(refs := st.entries[k].refs + 1)]) else st
  }

  // The host entry for `k`, taken off its shelf to be promoted.
  function LiftHosted(st: State, k: Key): State
    requires k in st.entries
  {
    st.(host := Off(st.host, k, st.entries[k].bytes), entries := st.entries - {k})
  }

  // Serve from the device, from a claim not yet released, from host memory, or from storage.
  ghost function Acquire(cfg: Config, st: State, k: Key): (r: (State, Option<Payload>))
    requires Wf(cfg, st)
    ensures Wf(cfg, r.0)
  {
    if k in st.entries && st.entries[k].tier.Device? then
      ClaimWf(cfg, st, k);
      (Claim(Touch(cfg, st, k), k), Some(st.entries[k].payload))
    else if k in st.entries && st.entries[k].tier.Transient? then
      ClaimWf(cfg, st, k);
      (Claim(st, k), Some(st.entries[k].payload))
    else if k in st.entries then
      PromotedWf(cfg, st, k);
      var promoted := Promoted(cfg, st, k);
      ClaimWf(cfg, promoted, k);
      (Claim(Touch(cfg, promoted, k), k), Some(st.entries[k].payload))
    else
      FetchedWf(cfg, st, k);
      var admitted := Fetched(cfg, st, k);
      ClaimWf(cfg, admitted, k);
      var touched := Touch(cfg, admitted, k);
      if k in touched.entries then
        (if touched.entries[k].tier.Transient? then touched else Claim(touched, k), Some(touched.entries[k].payload))
      else (touched, None)
  }

  ghost function Promoted(cfg: Config, st: State, k: Key): State
    requires Wf(cfg, st) && k in st.entries && st.entries[k].tier.Host?
  {
    LiftHostedWf(cfg, st, k);
    OnDevice(MakeRoom(cfg, LiftHosted(st, k), st.entries[k].bytes), k, st.entries[k])
  }

  function Read(cfg: Config, st: State, k: Key): State {
    st.(fetched := st.fetched + multiset{cfg.fetch(k)})
  }

  // A miss: read, make room, admit.
  ghost function Fetched(cfg: Config, st: State, k: Key): State
    requires Wf(cfg, st) && k !in st.entries
  {
    ReadWf(cfg, st, k);
    RoomKeepsAbsent(cfg, Read(cfg, st, k), k, cfg.size(k));
    Admit(cfg, MakeRoom(cfg, Read(cfg, st, k), cfg.size(k)), k)
  }

  // ---- the invariant through an acquisition --------------------------------------------------------------------

  lemma LiftHostedWf(cfg: Config, st: State, k: Key)
    requires Wf(cfg, st) && k in st.entries && st.entries[k].tier.Host?
    ensures var r := LiftHosted(st, k);
      && Wf(cfg, r) && Balance(cfg, r) + multiset{cfg.fetch(k)} == Balance(cfg, st)
      && Loose(cfg, r, k, st.entries[k])
  {
    assert EntryWf(cfg, st, k);
    BalanceWithout(cfg, st, LiftHosted(st, k), k);
    hide Balance;
    SumRemove(cfg.size, st.host.keys, k);
    var r := LiftHosted(st, k);
    forall j | j in r.entries ensures EntryWf(cfg, r, j) { assert EntryWf(cfg, st, j); }
  }

  // Making room brings nothing in.
  lemma {:induction false} RoomOnlyLoses(cfg: Config, st: State, bytes: nat)
    requires Wf(cfg, st)
    ensures var r := MakeRoom(cfg, st, bytes);
      && (forall j :: j in r.entries ==> j in st.entries && r.entries[j] == st.entries[j].(tier := r.entries[j].tier))
      && r == st.(entries := r.entries, device := r.device, host := r.host, discarded := r.discarded)
      && r.device.capacity == st.device.capacity && r.host.capacity == st.host.capacity && r.device.keys <= st.device.keys
    decreases |st.device.keys|
  {
    hide Demote, Wf, First, Kept, Balance;
    DeviceIsTracked(cfg, st);
    if !(st.device.capacity == 0 || st.device.bytes + bytes <= st.device.capacity || Victims(st) == {}) {
      var k := First(st.entries, Victims(st));
      FirstOf(st.entries, Victims(st));
      DemoteWf(cfg, st, k);
      RoomOnlyLoses(cfg, Demote(cfg, st, k), bytes);
    }
  }

  lemma FirstOf(entries: map<Key, Entry>, s: set<Key>)
    requires Ordered(entries) && s != {} && s <= entries.Keys
    ensures First(entries, s) in s && Leads(entries, s, First(entries, s))
  {}

  lemma RoomKeepsAbsent(cfg: Config, st: State, k: Key, bytes: nat)
    requires Wf(cfg, st) && k !in st.entries
    ensures k !in MakeRoom(cfg, st, bytes).entries
  {
    RoomOnlyLoses(cfg, st, bytes);
  }

  lemma ReadWf(cfg: Config, st: State, k: Key)
    requires Wf(cfg, st)
    ensures Wf(cfg, Read(cfg, st, k))
  {
    var r := Read(cfg, st, k);
    forall j | j in r.entries ensures EntryWf(cfg, r, j) { assert EntryWf(cfg, st, j); }
  }

  // What one use does to the entries: counts change, nothing else.
  lemma TouchKeeps(cfg: Config, st: State, k: Key)
    requires cfg.Valid()
    ensures var r := Touch(cfg, st, k);
      && r == st.(entries := r.entries, accesses := r.accesses) && r.entries.Keys == st.entries.Keys
      && forall j :: j in st.entries ==>
           r.entries[j] == st.entries[j].(uses := r.entries[j].uses) && (j.kind.Dense? ==> r.entries[j] == st.entries[j])
  {}

  lemma ClaimWf(cfg: Config, st: State, k: Key)
    requires Wf(cfg, st)
    ensures Wf(cfg, Claim(st, k)) && Wf(cfg, Touch(cfg, st, k)) && Wf(cfg, Claim(Touch(cfg, st, k), k))
    ensures Balance(cfg, Claim(st, k)) == Balance(cfg, st) && Balance(cfg, Touch(cfg, st, k)) == Balance(cfg, st)
    ensures Balance(cfg, Claim(Touch(cfg, st, k), k)) == Balance(cfg, st)
  {
    hide Wf, Touch, Balance;
    AgingIsSet(cfg, st);
    TouchKeeps(cfg, st, k);
    var t := Touch(cfg, st, k);
    SameShelves(cfg, st, t);
    SameShelves(cfg, st, Claim(st, k));
    SameShelves(cfg, t, Claim(t, k));
  }

  lemma AgingIsSet(cfg: Config, st: State)
    requires Wf(cfg, st)
    ensures cfg.Valid()
  {}

  // Changing only counts of use and of users keeps the invariant.
  lemma SameShelves(cfg: Config, st: State, r: State)
    requires Wf(cfg, st) && r == st.(entries := r.entries, accesses := r.accesses) && r.entries.Keys == st.entries.Keys
    requires forall j :: j in st.entries ==>
      && r.entries[j] == st.entries[j].(uses := r.entries[j].uses, refs := r.entries[j].refs)
      && st.entries[j].refs <= r.entries[j].refs && (j.kind.Dense? ==> r.entries[j].uses == st.entries[j].uses)
    ensures Wf(cfg, r) && Balance(cfg, r) == Balance(cfg, st)
  {
    hide Sum;
    forall j | j in r.entries ensures EntryWf(cfg, r, j) { assert EntryWf(cfg, st, j); }
    assert |r.entries| == |r.entries.Keys| == |st.entries.Keys| == |st.entries|;
  }

  lemma PromotedWf(cfg: Config, st: State, k: Key)
    requires Wf(cfg, st) && k in st.entries && st.entries[k].tier.Host?
    ensures Wf(cfg, Promoted(cfg, st, k)) && Balance(cfg, Promoted(cfg, st, k)) == Balance(cfg, st)
    ensures k in Promoted(cfg, st, k).entries
  {
    hide MakeRoom, Balance;
    LiftHostedWf(cfg, st, k);
    RoomOnlyLoses(cfg, LiftHosted(st, k), st.entries[k].bytes);
    OnDeviceWf(cfg, MakeRoom(cfg, LiftHosted(st, k), st.entries[k].bytes), k, st.entries[k]);
  }

  lemma FetchedWf(cfg: Config, st: State, k: Key)
    requires Wf(cfg, st) && k !in st.entries
    ensures Wf(cfg, Fetched(cfg, st, k)) && Balance(cfg, Fetched(cfg, st, k)) == Balance(cfg, st) + multiset{cfg.fetch(k)}
    ensures Kept(st, Fetched(cfg, st, k))
  {
    hide MakeRoom, Admit, Balance;
    var counted := Read(cfg, st, k);
    ReadWf(cfg, st, k);
    BalanceOf(cfg, st, counted);
    RoomKeepsAbsent(cfg, counted, k, cfg.size(k));
  }

  lemma BalanceOf(cfg: Config, st: State, r: State)
    requires r.entries == st.entries && r.discarded == st.discarded
    ensures Balance(cfg, r) == Balance(cfg, st)
  {}

}
