// Whole runs of the weight cache: what every operation keeps, when an acquired entry is really there,
// and that no payload is lost track of. Operations are steps of one state machine.
module WeightCacheRuns {
  import opened Options
  import opened WeightCache

  // ---- the other operations -------------------------------------------------------------------------

  ghost function Release(cfg: Config, st: State, k: Key): State {
    if k !in st.entries then st
    else
      var e := st.entries[k];
      var refs := if e.refs > 0 then e.refs - 1 else 0;
      if !e.tier.Transient? || refs > 0 then st.(entries := st.entries[k := e.(refs := refs)])
      else GiveBack(st.(entries := st.entries - {k}), e.payload)
  }

  // Unpin what only the old plan pinned and pin what the new one does.
  function ApplyPlan(st: State, plan: set<Key>): State {
    st.(pinned := plan,
        entries := map k | k in st.entries :: st.entries[k].(pinned :=
          if k in plan then true else if k in st.pinned then false else st.entries[k].pinned))
  }

  ghost function Resize(cfg: Config, st: State, capacity: nat): (r: State)
    requires Wf(cfg, st)
    ensures Wf(cfg, r)
  {
    ResizedWf(cfg, st, capacity);
    MakeRoom(cfg, st.(device := st.device.(capacity := capacity)), 0)
  }

  predicate Survives(st: State, keepPinned: bool, k: Key)
    requires k in st.entries
  {
    st.entries[k].refs > 0 || (keepPinned && st.entries[k].pinned)
  }

  // Drop the rest, one at a time in any order.
  function Dropped(st: State, k: Key): (r: State)
    requires k in st.entries
    ensures r.entries == st.entries - {k}
  {
    var e := st.entries[k];
    GiveBack(st.(entries := st.entries - {k},
                 device := if k in st.device.keys then Off(st.device, k, e.bytes) else st.device,
                 host := if k in st.host.keys then Off(st.host, k, e.bytes) else st.host),
             e.payload)
  }

  ghost function DropAll(st: State, doomed: set<Key>): State
    requires doomed <= st.entries.Keys
    decreases |doomed|
  {
    if doomed == {} then st
    else
      var k :| k in doomed;
      DropAll(Dropped(st, k), doomed - {k})
  }

  ghost function Doomed(st: State, keepPinned: bool): set<Key> {
    set k | k in st.entries && !Survives(st, keepPinned, k)
  }

  ghost function Clear(st: State, keepPinned: bool): State {
    DropAll(st, Doomed(st, keepPinned))
  }

  // ---- the invariant --------------------------------------------------------------------------------------

  lemma OneEntry(cfg: Config, st: State, k: Key, e: Entry)
    requires Wf(cfg, st) && k in st.entries && e == st.entries[k].(refs := e.refs) && (e.tier.Transient? ==> e.refs > 0)
    ensures var r := st.(entries := st.entries[k := e]); Wf(cfg, r) && Balance(cfg, r) == Balance(cfg, st)
  {
    hide Sum;
    var r := st.(entries := st.entries[k := e]);
    forall j | j in r.entries ensures EntryWf(cfg, r, j) { assert EntryWf(cfg, st, j); }
    assert r.entries.Keys == st.entries.Keys;
  }

  lemma LeaveNowhere(cfg: Config, st: State, k: Key)
    requires Wf(cfg, st) && k in st.entries && st.entries[k].tier.Transient?
    ensures var r := st.(entries := st.entries - {k});
      Wf(cfg, r) && Balance(cfg, r) + multiset{cfg.fetch(k)} == Balance(cfg, st)
  {
    hide Sum, Balance;
    BalanceWithout(cfg, st, st.(entries := st.entries - {k}), k);
    var r := st.(entries := st.entries - {k});
    assert EntryWf(cfg, st, k);
    forall j | j in r.entries ensures EntryWf(cfg, r, j) { assert EntryWf(cfg, st, j); }
  }

  lemma ReleaseWf(cfg: Config, st: State, k: Key)
    requires Wf(cfg, st)
    ensures Wf(cfg, Release(cfg, st, k)) && Balance(cfg, Release(cfg, st, k)) == Balance(cfg, st)
  {
    if k in st.entries { assert EntryWf(cfg, st, k); }
    hide Wf, Balance;
    if k in st.entries {
      var e := st.entries[k];
      var refs := if e.refs > 0 then e.refs - 1 else 0;
      if !e.tier.Transient? || refs > 0 {
        OneEntry(cfg, st, k, e.(refs := refs));
      } else {
        LeaveNowhere(cfg, st, k);
        GiveBackWf(cfg, st.(entries := st.entries - {k}), e.payload);
      }
    }
  }

  lemma ApplyPlanWf(cfg: Config, st: State, plan: set<Key>)
    requires Wf(cfg, st)
    ensures Wf(cfg, ApplyPlan(st, plan)) && Balance(cfg, ApplyPlan(st, plan)) == Balance(cfg, st)
  {
    hide Sum;
    var r := ApplyPlan(st, plan);
    assert r.entries.Keys == st.entries.Keys;
    forall j | j in r.entries ensures EntryWf(cfg, r, j) { assert EntryWf(cfg, st, j); }
    assert |r.entries| == |r.entries.Keys| && |st.entries| == |st.entries.Keys|;
  }

  lemma ResizedWf(cfg: Config, st: State, capacity: nat)
    requires Wf(cfg, st)
    ensures var r := st.(device := st.device.(capacity := capacity)); Wf(cfg, r) && Balance(cfg, r) == Balance(cfg, st)
  {
    var r := st.(device := st.device.(capacity := capacity));
    forall j | j in r.entries ensures EntryWf(cfg, r, j) { assert EntryWf(cfg, st, j); }
  }

  lemma DroppedWf(cfg: Config, st: State, k: Key)
    requires Wf(cfg, st) && k in st.entries
    ensures Wf(cfg, Dropped(st, k)) && Balance(cfg, Dropped(st, k)) == Balance(cfg, st)
  {
    assert EntryWf(cfg, st, k);
    hide Wf, Balance;
    var e := st.entries[k];
    match e.tier
    case Device => LiftOffWf(cfg, st, k); GiveBackWf(cfg, LiftOff(st, k), e.payload);
    case Host => LiftHostedWf(cfg, st, k); GiveBackWf(cfg, LiftHosted(st, k), e.payload);
    case Transient => LeaveNowhere(cfg, st, k); GiveBackWf(cfg, st.(entries := st.entries - {k}), e.payload);
  }

  lemma {:induction false} DropAllWf(cfg: Config, st: State, doomed: set<Key>)
    requires Wf(cfg, st) && doomed <= st.entries.Keys
    ensures var r := DropAll(st, doomed);
      && Wf(cfg, r) && Balance(cfg, r) == Balance(cfg, st) && r.entries == st.entries - doomed
    decreases |doomed|
  {
    hide Wf, Balance, Dropped;
    if doomed != {} {
      var k :| k in doomed && DropAll(st, doomed) == DropAll(Dropped(st, k), doomed - {k});
      DroppedWf(cfg, st, k);
      DropAllWf(cfg, Dropped(st, k), doomed - {k});
      assert st.entries - {k} - (doomed - {k}) == st.entries - doomed;
    } else {
      assert st.entries - doomed == st.entries;
    }
  }

  // ---- runs ----------------------------------------------------------------------------------------------------

  datatype Op =
    | AcquireOp(key: Key)
    | ReleaseOp(key: Key)
    | PlanOp(plan: set<Key>)
    | ResizeOp(capacity: nat)
    | ClearOp(keepPinned: bool)

  ghost function Step(cfg: Config, st: State, op: Op): (r: State)
    requires Wf(cfg, st)
    ensures Wf(cfg, r)
  {
    match op
    case AcquireOp(k) => Acquire(cfg, st, k).0
    case ReleaseOp(k) => ReleaseWf(cfg, st, k); Release(cfg, st, k)
    case PlanOp(plan) => ApplyPlanWf(cfg, st, plan); ApplyPlan(st, plan)
    case ResizeOp(capacity) => Resize(cfg, st, capacity)
    case ClearOp(keepPinned) => DropAllWf(cfg, st, Doomed(st, keepPinned)); Clear(st, keepPinned)
  }

  function Start(deviceBytes: nat, hostBytes: nat, pinned: set<Key>): State {
    State(map[], Shelf({}, 0, deviceBytes), Shelf({}, 0, hostBytes), pinned, 0, 0, multiset{}, Gone(multiset{}, multiset{}))
  }

  lemma StartWf(cfg: Config, deviceBytes: nat, hostBytes: nat, pinned: set<Key>)
    requires cfg.Valid()
    ensures Wf(cfg, Start(deviceBytes, hostBytes, pinned))
  {}

  ghost function Run(cfg: Config, st: State, ops: seq<Op>): (r: State)
    requires Wf(cfg, st)
    ensures Wf(cfg, r)
    decreases |ops|
  {
    if ops == [] then st else Step(cfg, Run(cfg, st, ops[..|ops| - 1]), ops[|ops| - 1])
  }

  /** In every state of every run the tiers partition what is tracked, their byte totals are the sums of
      their entries, flags agree with the plan and the host stays within its capacity. */
  lemma RunsKeepBooks(cfg: Config, deviceBytes: nat, hostBytes: nat, pinned: set<Key>, ops: seq<Op>)
    requires cfg.Valid()
    ensures Wf(cfg, Start(deviceBytes, hostBytes, pinned))
    ensures var st := Run(cfg, Start(deviceBytes, hostBytes, pinned), ops);
      && st.device.bytes == Sum(cfg.size, st.device.keys)
      && st.host.bytes == Sum(cfg.size, st.host.keys) <= st.host.capacity
      && st.device.keys !! st.host.keys && st.device.keys + st.host.keys <= st.entries.Keys
      && (forall k :: k in st.entries ==>
            && (st.entries[k].pinned <==> k in st.pinned)
            && (k !in st.device.keys + st.host.keys <==> st.entries[k].tier.Transient?)
            && (st.entries[k].tier.Transient? ==> st.entries[k].refs > 0))
  {
    StartWf(cfg, deviceBytes, hostBytes, pinned);
    hide Run;
    var st := Run(cfg, Start(deviceBytes, hostBytes, pinned), ops);
    forall k | k in st.entries ensures EntryWf(cfg, st, k) {}
    assert forall k :: k in st.device.keys ==> EntryWf(cfg, st, k);
  }

  // ---- conservation -------------------------------------------------------------------------------------------------

  lemma StepBalance(cfg: Config, st: State, op: Op)
    requires Wf(cfg, st)
    ensures Balance(cfg, Step(cfg, st, op)) + st.fetched == Balance(cfg, st) + Step(cfg, st, op).fetched
  {
    hide Wf, Balance;
    match op
    case AcquireOp(k) => AcquireBalance(cfg, st, k);
    case ReleaseOp(k) => ReleaseWf(cfg, st, k);
    case PlanOp(plan) => ApplyPlanWf(cfg, st, plan);
    case ResizeOp(capacity) =>
      ResizedWf(cfg, st, capacity);
      RoomOnlyLoses(cfg, st.(device := st.device.(capacity := capacity)), 0);
    case ClearOp(keepPinned) =>
      DropAllWf(cfg, st, Doomed(st, keepPinned));
      DropAllReads(st, Doomed(st, keepPinned));
  }

  lemma {:induction false} DropAllReads(st: State, doomed: set<Key>)
    requires doomed <= st.entries.Keys
    ensures var r := DropAll(st, doomed);
      r.fetched == st.fetched && r.clock == st.clock && r.accesses == st.accesses
    decreases |doomed|
  {
    if doomed != {} {
      var k :| k in doomed && DropAll(st, doomed) == DropAll(Dropped(st, k), doomed - {k});
      DropAllReads(Dropped(st, k), doomed - {k});
    }
  }

  lemma {:induction false} WindowOnlyLoses(cfg: Config, st: State)
    requires Wf(cfg, st)
    ensures var r := EnforceWindow(cfg, st);
      && (forall j :: j in r.entries ==> j in st.entries && r.entries[j] == st.entries[j].(tier := r.entries[j].tier))
      && r == st.(entries := r.entries, device := r.device, host := r.host, discarded := r.discarded)
      && r.device.capacity == st.device.capacity && r.host.capacity == st.host.capacity && r.device.keys <= st.device.keys
    decreases |st.device.keys|
  {
    hide Demote, Wf, First, Kept, Balance;
    DeviceIsTracked(cfg, st);
    if !(|Windowed(st)| <= cfg.window || Idle(st) == {}) {
      var k := First(st.entries, Idle(st));
      FirstOf(st.entries, Idle(st));
      DemoteWf(cfg, st, k);
      WindowOnlyLoses(cfg, Demote(cfg, st, k));
    }
  }

  lemma AdmitReads(cfg: Config, st: State, k: Key)
    requires Wf(cfg, st) && k !in st.entries
    ensures Admit(cfg, st, k).fetched == st.fetched
  {
    hide Wf, EnforceWindow;
    TickedWf(cfg, st, k);
    WindowOnlyLoses(cfg, OnDevice(Ticked(st), k, NewEntry(cfg, Ticked(st), k)));
  }

  lemma AcquireBalance(cfg: Config, st: State, k: Key)
    requires Wf(cfg, st)
    ensures Balance(cfg, Acquire(cfg, st, k).0) + st.fetched == Balance(cfg, st) + Acquire(cfg, st, k).0.fetched
  {
    hide Wf, Balance, Touch, MakeRoom, Admit;
    AgingIsSet(cfg, st);
    ClaimWf(cfg, st, k);
    TouchKeeps(cfg, st, k);
    if k in st.entries && st.entries[k].tier.Host? {
      PromotedWf(cfg, st, k);
      LiftHostedWf(cfg, st, k);
      RoomOnlyLoses(cfg, LiftHosted(st, k), st.entries[k].bytes);
      ClaimWf(cfg, Promoted(cfg, st, k), k);
      TouchKeeps(cfg, Promoted(cfg, st, k), k);
    } else if k !in st.entries {
      FetchedWf(cfg, st, k);
      ReadWf(cfg, st, k);
      RoomKeepsAbsent(cfg, Read(cfg, st, k), k, cfg.size(k));
      RoomOnlyLoses(cfg, Read(cfg, st, k), cfg.size(k));
      AdmitReads(cfg, MakeRoom(cfg, Read(cfg, st, k), cfg.size(k)), k);
      ClaimWf(cfg, Fetched(cfg, st, k), k);
      TouchKeeps(cfg, Fetched(cfg, st, k), k);
    }
  }

  lemma Cancel(a: multiset<Payload>, b: multiset<Payload>, c: multiset<Payload>)
    requires a + b == b + c
    ensures a == c
  {
    forall p ensures a[p] == c[p] {
      assert (a + b)[p] == (b + c)[p];
    }
  }

  lemma StartBalance(cfg: Config, deviceBytes: nat, hostBytes: nat, pinned: set<Key>)
    ensures Balance(cfg, Start(deviceBytes, hostBytes, pinned)) == multiset{}
  {}

  lemma {:induction false} RunBalance(cfg: Config, deviceBytes: nat, hostBytes: nat, pinned: set<Key>, ops: seq<Op>)
    requires cfg.Valid() && Wf(cfg, Start(deviceBytes, hostBytes, pinned))
    ensures var st := Run(cfg, Start(deviceBytes, hostBytes, pinned), ops); st.fetched == Balance(cfg, st)
    decreases |ops|
  {
    hide Wf, Step, Balance;
    if ops == [] {
      StartBalance(cfg, deviceBytes, hostBytes, pinned);
    } else {
      RunBalance(cfg, deviceBytes, hostBytes, pinned, ops[..|ops| - 1]);
      var before := Run(cfg, Start(deviceBytes, hostBytes, pinned), ops[..|ops| - 1]);
      StepBalance(cfg, before, ops[|ops| - 1]);
      var st := Step(cfg, before, ops[|ops| - 1]);
      Cancel(Balance(cfg, st), before.fetched, st.fetched);
    }
  }

  /** The payloads read from storage are, with multiplicity, those still tracked, those handed back and those
      a host eviction cleared; so tracked and handed back account for all of them exactly when no host
      eviction has happened. */
  lemma PayloadsConserved(cfg: Config, deviceBytes: nat, hostBytes: nat, pinned: set<Key>, ops: seq<Op>)
    requires cfg.Valid()
    ensures Wf(cfg, Start(deviceBytes, hostBytes, pinned))
    ensures var st := Run(cfg, Start(deviceBytes, hostBytes, pinned), ops);
      && (forall k :: k in st.entries ==> st.entries[k].payload == cfg.fetch(k))
      && st.fetched == Contents(cfg.fetch, st.entries.Keys) + st.discarded.back + st.discarded.cleared
      && (st.fetched == Contents(cfg.fetch, st.entries.Keys) + st.discarded.back <==> st.discarded.cleared == multiset{})
  {
    StartWf(cfg, deviceBytes, hostBytes, pinned);
    RunBalance(cfg, deviceBytes, hostBytes, pinned, ops);
    var st := Run(cfg, Start(deviceBytes, hostBytes, pinned), ops);
    forall k | k in st.entries ensures st.entries[k].payload == cfg.fetch(k) { assert EntryWf(cfg, st, k); }
    hide Wf, Run;
    var known := Contents(cfg.fetch, st.entries.Keys) + st.discarded.back;
    if st.fetched == known {
      assert |known + st.discarded.cleared| == |known| + |st.discarded.cleared|;
    }
  }

  // ---- entries in use ------------------------------------------------------------------------------------------------

  // Nothing about an entry changed but how popular it is.
  predicate SameBut(e: Entry, f: Entry) {
    f == e.(uses := f.uses)
  }

  /** Acquiring one key leaves every other entry that is in use or pinned where it is, with its payload
      and its users. */
  lemma InUseStays(cfg: Config, st: State, k: Key, j: Key)
    requires Wf(cfg, st) && j != k && j in st.entries && !st.entries[j].Evictable()
    ensures var r := Acquire(cfg, st, k).0; j in r.entries && SameBut(st.entries[j], r.entries[j])
  {
    hide Wf, Balance, Touch, MakeRoom, Admit;
    AgingIsSet(cfg, st);
    TouchKeeps(cfg, st, k);
    if k in st.entries && st.entries[k].tier.Host? {
      LiftHostedWf(cfg, st, k);
      PromotedWf(cfg, st, k);
      TouchKeeps(cfg, Promoted(cfg, st, k), k);
      assert LiftHosted(st, k).entries[j] == st.entries[j];
    } else if k !in st.entries {
      FetchedWf(cfg, st, k);
      TouchKeeps(cfg, Fetched(cfg, st, k), k);
    }
  }

  /** The other operations never move, drop or discard an entry in use either. */
  lemma OthersStay(cfg: Config, st: State, op: Op, j: Key)
    requires Wf(cfg, st) && !op.AcquireOp? && j in st.entries && st.entries[j].refs > 0
    requires op.ReleaseOp? ==> op.key != j
    ensures var r := Step(cfg, st, op);
      j in r.entries && r.entries[j] == st.entries[j].(pinned := r.entries[j].pinned)
  {
    hide Wf, Balance, MakeRoom;
    match op
    case ReleaseOp(k) => ReleaseWf(cfg, st, k);
    case PlanOp(plan) =>
    case ResizeOp(capacity) =>
    case ClearOp(keepPinned) => DropAllWf(cfg, st, Doomed(st, keepPinned));
  }

  // Unpinned dense layers on the device that somebody is reading.
  ghost function Reading(st: State): set<Key> {
    set k | k in st.device.keys && k in st.entries && k.kind.Dense? && !st.entries[k].pinned && st.entries[k].refs > 0
  }

  lemma CardLess(a: set<Key>, b: set<Key>)
    requires a < b
    ensures |a| < |b|
  {
    var rest := b - a;
    assert b == a + rest && a !! rest && rest != {};
    assert |b| == |a| + |rest|;
  }

  lemma {:induction false} RoomKeepsReading(cfg: Config, st: State, bytes: nat)
    requires Wf(cfg, st)
    ensures Reading(MakeRoom(cfg, st, bytes)) == Reading(st)
    decreases |st.device.keys|
  {
    hide Demote, Wf, First, Kept, Balance;
    DeviceIsTracked(cfg, st);
    if !(st.device.capacity == 0 || st.device.bytes + bytes <= st.device.capacity || Victims(st) == {}) {
      var k := First(st.entries, Victims(st));
      FirstOf(st.entries, Victims(st));
      DemoteWf(cfg, st, k);
      RoomKeepsReading(cfg, Demote(cfg, st, k), bytes);
    }
  }

  lemma WindowSplits(st: State)
    requires st.device.keys <= st.entries.Keys
    ensures Windowed(st) == Reading(st) + Idle(st) && Reading(st) !! Idle(st)
    ensures |Windowed(st)| == |Reading(st)| + |Idle(st)|
  {
    assert Windowed(st) == Reading(st) + Idle(st);
  }

  lemma DemotionKeepsReading(st: State, k: Key, r: State)
    requires st.device.keys <= st.entries.Keys && k in st.device.keys && st.entries[k].Evictable()
    requires Demoted(st, k, r)
    ensures Reading(r) == Reading(st) && k !in r.device.keys
    ensures r.device.keys == st.device.keys - {k}
  {}

  // The newest dense layer goes only after every other one that can: it stays exactly when fewer than a
  // window of them are being read.
  lemma {:induction false} NewestStays(cfg: Config, st: State, k: Key)
    requires Wf(cfg, st) && k in Windowed(st) && st.entries[k].refs == 0
    requires forall j :: j in st.entries && j != k ==> st.entries[j].inserted < st.entries[k].inserted
    ensures var r := EnforceWindow(cfg, st);
      && (k in r.device.keys <==> |Reading(st)| < cfg.window)
      && (k in r.device.keys ==> k in r.entries && r.entries[k] == st.entries[k])
    decreases |st.device.keys|
  {
    DeviceIsTracked(cfg, st);
    WindowSplits(st);
    assert k in Idle(st);
    hide Demote, Wf, First, Kept, Balance, Reading;
    if |Windowed(st)| > cfg.window {
      var first := First(st.entries, Idle(st));
      FirstOf(st.entries, Idle(st));
      DemoteWf(cfg, st, first);
      var next := Demote(cfg, st, first);
      DemotionKeepsReading(st, first, next);
      if first == k {
        DenseByAge(cfg, st, Idle(st), k);
        WindowOnlyLoses(cfg, next);
      } else {
        NewestStays(cfg, next, k);
      }
    }
  }

  // Among dense layers the order is by age alone, so the newest goes last.
  lemma DenseByAge(cfg: Config, st: State, s: set<Key>, k: Key)
    requires Wf(cfg, st) && s <= st.entries.Keys && k in s && forall j :: j in s ==> j.kind.Dense?
    requires forall j :: j in st.entries && j != k ==> st.entries[j].inserted < st.entries[k].inserted
    ensures First(st.entries, s) == k ==> s == {k}
  {
    FirstOf(st.entries, s);
    forall j | j in s && j != k ensures !Sooner(st.entries, k, j) {
      assert EntryWf(cfg, st, j) && EntryWf(cfg, st, k);
    }
    assert s != {k} ==> exists j :: j in s && j != k;
  }

  // An acquisition that pushes out what it has just admitted: a new unpinned dense layer that fits, with
  // a window's worth of such layers being read.
  ghost predicate PushesItselfOut(cfg: Config, st: State, k: Key) {
    && k !in st.entries && k.kind.Dense? && k !in st.pinned
    && 0 < st.device.capacity && cfg.size(k) <= st.device.capacity
    && |Reading(st)| >= cfg.window
  }

  // The caller's claim: on the device or held for it alone, one more user than before, the payload read
  // from storage.
  predicate Settled(cfg: Config, st: State, k: Key, r: (State, Option<Payload>)) {
    && k in r.0.entries && !r.0.entries[k].tier.Host?
    && r.0.entries[k].refs == (if k in st.entries then st.entries[k].refs else 0) + 1
    && r.1 == Some(cfg.fetch(k))
  }

  lemma AdmitSettles(cfg: Config, st: State, k: Key)
    requires Wf(cfg, st) && k !in st.entries
    ensures var r := Admit(cfg, st, k);
      var out := k.kind.Dense? && k !in st.pinned && 0 < st.device.capacity && cfg.size(k) <= st.device.capacity
                 && |Reading(st)| >= cfg.window;
      && (!out ==> k in r.entries && r.entries[k].refs == (if r.entries[k].tier.Transient? then 1 else 0)
                   && !r.entries[k].tier.Host?)
      && (out ==> k !in r.device.keys)
      && (out && k in r.entries ==> r.entries[k].tier.Host?)
  {
    hide Wf, Balance, EnforceWindow;
    TickedWf(cfg, st, k);
    var e := NewEntry(cfg, Ticked(st), k);
    var added := OnDevice(Ticked(st), k, e);
    if 0 < st.device.capacity && cfg.size(k) <= st.device.capacity && k.kind.Dense? {
      WindowOnlyLoses(cfg, added);
      OlderThanClock(cfg, st);
      if k !in st.pinned {
        assert Reading(added) == Reading(st);
        NewestStays(cfg, added, k);
        if k in Admit(cfg, st, k).entries { ShelfOf(cfg, Admit(cfg, st, k), k); }
      } else {
        PinnedStays(cfg, added, k);
      }
    }
  }

  lemma OlderThanClock(cfg: Config, st: State)
    requires Wf(cfg, st)
    ensures forall j :: j in st.entries ==> st.entries[j].inserted <= st.clock
  {
    forall j | j in st.entries ensures st.entries[j].inserted <= st.clock { assert EntryWf(cfg, st, j); }
  }

  lemma PinnedStays(cfg: Config, st: State, k: Key)
    requires Wf(cfg, st) && k in st.entries && st.entries[k].pinned
    ensures k in EnforceWindow(cfg, st).entries && EnforceWindow(cfg, st).entries[k] == st.entries[k]
  {}

  lemma ShelfOf(cfg: Config, st: State, k: Key)
    requires Wf(cfg, st) && k in st.entries
    ensures st.entries[k].tier.Device? <==> k in st.device.keys
    ensures st.entries[k].payload == cfg.fetch(k) && (st.entries[k].tier.Transient? ==> st.entries[k].refs > 0)
  {
    assert EntryWf(cfg, st, k);
  }

  /** An acquisition ends with its entry bound and counted, unless it pushes itself out; then the entry is
      gone or on the host, whatever the caller goes on to do with it. */
  lemma AcquireSettlesExactly(cfg: Config, st: State, k: Key)
    requires Wf(cfg, st)
    ensures Settled(cfg, st, k, Acquire(cfg, st, k)) <==> !PushesItselfOut(cfg, st, k)
  {
    hide Wf, Balance, Touch, MakeRoom, Admit, Reading;
    AgingIsSet(cfg, st);
    TouchKeeps(cfg, st, k);
    if k in st.entries {
      ShelfOf(cfg, st, k);
      if st.entries[k].tier.Host? {
        PromotedWf(cfg, st, k);
        TouchKeeps(cfg, Promoted(cfg, st, k), k);
      }
    } else {
      var counted := Read(cfg, st, k);
      ReadWf(cfg, st, k);
      RoomKeepsAbsent(cfg, counted, k, cfg.size(k));
      RoomOnlyLoses(cfg, counted, cfg.size(k));
      RoomKeepsReading(cfg, counted, cfg.size(k));
      SameReading(st, counted);
      AdmitSettles(cfg, MakeRoom(cfg, counted, cfg.size(k)), k);
      var admitted := Fetched(cfg, st, k);
      TouchKeeps(cfg, admitted, k);
      if k in admitted.entries { ShelfOf(cfg, admitted, k); }
    }
  }

  lemma SameReading(st: State, r: State)
    requires r.entries == st.entries && r.device == st.device
    ensures Reading(r) == Reading(st)
  {}

  /** It does happen: with a window of one, a second layer acquired while the first is being read leaves
      its caller without a payload to run on. */
  lemma SecondLayerIsLost(cfg: Config, deviceBytes: nat, a: nat, b: nat)
    requires cfg.Valid() && cfg.window == 1 && a != b
    requires 0 < deviceBytes && cfg.size(Key(a, Dense(""))) <= deviceBytes && cfg.size(Key(b, Dense(""))) <= deviceBytes
    ensures Wf(cfg, Start(deviceBytes, 0, {}))
    ensures var st := Acquire(cfg, Start(deviceBytes, 0, {}), Key(a, Dense(""))).0;
      !Settled(cfg, st, Key(b, Dense("")), Acquire(cfg, st, Key(b, Dense(""))))
  {
    hide Acquire;
    var start, ka, kb := Start(deviceBytes, 0, {}), Key(a, Dense("")), Key(b, Dense(""));
    StartWf(cfg, deviceBytes, 0, {});
    AcquireSettlesExactly(cfg, start, ka);
    var st := Acquire(cfg, start, ka).0;
    FirstLayerIsThere(cfg, deviceBytes, ka, kb);
    assert ka in Reading(st);
    CardLess({}, Reading(st));
    AcquireSettlesExactly(cfg, st, kb);
  }

  lemma FirstLayerIsThere(cfg: Config, deviceBytes: nat, ka: Key, kb: Key)
    requires cfg.Valid() && Wf(cfg, Start(deviceBytes, 0, {})) && ka != kb && ka.kind.Dense?
    requires 0 < deviceBytes && cfg.size(ka) <= deviceBytes
    ensures var st := Acquire(cfg, Start(deviceBytes, 0, {}), ka).0;
      && ka in st.device.keys && ka in st.entries && st.entries[ka].refs == 1 && !st.entries[ka].pinned
      && kb !in st.entries && st.pinned == {} && st.device.capacity == deviceBytes
  {
    var start := Start(deviceBytes, 0, {});
    var counted := Read(cfg, start, ka);
    var e := NewEntry(cfg, Ticked(counted), ka);
    var added := OnDevice(Ticked(counted), ka, e);
    assert Windowed(added) == {ka};
    assert MakeRoom(cfg, counted, cfg.size(ka)) == counted;
    TickedWf(cfg, counted, ka);
    assert EnforceWindow(cfg, added) == added;
  }
}
