// The limits on the weight cache: its window, its host tier and its users, each with the runs that break it.
module WeightCacheLimits {
  import opened Options
  import opened WeightCache
  import opened WeightCacheRuns

  // ---- the window ---------------------------------------------------------------------------------------

  lemma CardAtMost(a: set<Key>, b: set<Key>)
    requires a <= b
    ensures |a| <= |b|
  {
    if a != b { CardLess(a, b); }
  }

  // Whatever is on the device in `r` was there before, pinned alike.
  ghost predicate NoneJoined(st: State, r: State) {
    forall k :: k in r.entries && r.entries[k].tier.Device? ==>
      k in st.entries && st.entries[k].tier.Device? && st.entries[k].pinned == r.entries[k].pinned
  }

  lemma WindowShrinks(cfg: Config, st: State, r: State)
    requires Wf(cfg, st) && Wf(cfg, r) && NoneJoined(st, r)
    ensures Windowed(r) <= Windowed(st) && |Windowed(r)| <= |Windowed(st)|
  {
    DeviceIsTracked(cfg, st);
    DeviceIsTracked(cfg, r);
    forall k | k in Windowed(r) ensures k in Windowed(st) { ShelfOf(cfg, st, k); }
    CardAtMost(Windowed(r), Windowed(st));
  }

  lemma RoomShrinks(cfg: Config, st: State, bytes: nat)
    requires Wf(cfg, st)
    ensures Windowed(MakeRoom(cfg, st, bytes)) <= Windowed(st) && |Windowed(MakeRoom(cfg, st, bytes))| <= |Windowed(st)|
  {
    RoomOnlyLoses(cfg, st, bytes);
    var r := MakeRoom(cfg, st, bytes);
    hide MakeRoom;
    DeviceIsTracked(cfg, st);
    DeviceIsTracked(cfg, r);
    hide Wf;
    assert Windowed(r) <= Windowed(st);
    CardAtMost(Windowed(r), Windowed(st));
  }

  // Uses and claims put nothing on the device and pin nothing.
  lemma ClaimWindow(cfg: Config, st: State, k: Key)
    requires Wf(cfg, st)
    ensures Wf(cfg, Claim(Touch(cfg, st, k), k)) && Wf(cfg, Touch(cfg, st, k))
    ensures Windowed(Claim(Touch(cfg, st, k), k)) == Windowed(st) == Windowed(Touch(cfg, st, k))
    ensures Idle(Claim(Touch(cfg, st, k), k)) <= Idle(st) && Idle(Touch(cfg, st, k)) == Idle(st)
  {
    AgingIsSet(cfg, st);
    ClaimWf(cfg, st, k);
    TouchKeeps(cfg, st, k);
    DeviceIsTracked(cfg, st);
    hide Touch, Wf;
  }

  // What an admission leaves on the device.
  lemma AdmitWindow(cfg: Config, st: State, k: Key)
    requires Wf(cfg, st) && k !in st.entries
    ensures var r := Admit(cfg, st, k);
      && (|Windowed(st)| <= cfg.window ==> |Windowed(r)| <= cfg.window)
      && (k.kind.Dense? && 0 < st.device.capacity && cfg.size(k) <= st.device.capacity ==>
            |Windowed(r)| <= cfg.window || Idle(r) == {})
  {
    hide Wf, EnforceWindow, Balance, Kept;
    TickedWf(cfg, st, k);
    DeviceIsTracked(cfg, st);
    var r := Admit(cfg, st, k);
    DeviceIsTracked(cfg, r);
    var added := OnDevice(Ticked(st), k, NewEntry(cfg, Ticked(st), k));
    if st.device.capacity == 0 || cfg.size(k) > st.device.capacity {
      assert Windowed(r) == Windowed(st);
    } else if k.kind.Expert? {
      assert Windowed(r) == Windowed(st);
    } else {
      WindowOnlyLoses(cfg, added);
      if k in Windowed(r) {
        assert k in Idle(r);
      } else {
        assert Windowed(r) <= Windowed(st);
        CardAtMost(Windowed(r), Windowed(st));
      }
    }
  }

  lemma ReadWindow(cfg: Config, st: State, k: Key)
    requires Wf(cfg, st)
    ensures Wf(cfg, Read(cfg, st, k)) && Windowed(Read(cfg, st, k)) == Windowed(st)
  {
    ReadWf(cfg, st, k);
  }

  lemma MissWindow(cfg: Config, st: State, k: Key)
    requires Wf(cfg, st) && k !in st.entries
    ensures var r := Acquire(cfg, st, k).0;
      && (|Windowed(st)| <= cfg.window ==> |Windowed(r)| <= cfg.window)
      && (k.kind.Dense? && 0 < st.device.capacity && cfg.size(k) <= st.device.capacity ==>
            |Windowed(r)| <= cfg.window || Idle(r) == {})
  {
    hide Wf, MakeRoom, Admit, Touch, Balance, Kept, Windowed, Idle;
    var counted := Read(cfg, st, k);
    ReadWindow(cfg, st, k);
    RoomKeepsAbsent(cfg, counted, k, cfg.size(k));
    RoomOnlyLoses(cfg, counted, cfg.size(k));
    RoomShrinks(cfg, counted, cfg.size(k));
    AdmitWindow(cfg, MakeRoom(cfg, counted, cfg.size(k)), k);
    FetchedWf(cfg, st, k);
    ClaimWindow(cfg, Fetched(cfg, st, k), k);
  }

  /** A dense layer read in from storage leaves no more unpinned dense layers on the device than the window
      holds, or none that could go. */
  lemma DenseMissEnforces(cfg: Config, st: State, k: Key)
    requires Wf(cfg, st) && k !in st.entries && k.kind.Dense? && 0 < st.device.capacity && cfg.size(k) <= st.device.capacity
    ensures var r := Acquire(cfg, st, k).0; |Windowed(r)| <= cfg.window || Idle(r) == {}
  {
    hide Acquire, Wf;
    MissWindow(cfg, st, k);
  }

  predicate Promotes(st: State, op: Op) {
    op.AcquireOp? && op.key in st.entries && st.entries[op.key].tier.Host?
  }

  lemma StepWindow(cfg: Config, st: State, op: Op)
    requires Wf(cfg, st) && !op.PlanOp? && !Promotes(st, op) && |Windowed(st)| <= cfg.window
    ensures |Windowed(Step(cfg, st, op))| <= cfg.window
  {
    hide Wf, Balance, Kept, MakeRoom, Windowed;
    match op
    case AcquireOp(k) =>
      hide Acquire;
      if k !in st.entries { MissWindow(cfg, st, k); } else { HitWindow(cfg, st, k); }
    case ReleaseOp(k) =>
      ReleaseWf(cfg, st, k);
      WindowShrinks(cfg, st, Release(cfg, st, k));
    case ResizeOp(capacity) =>
      ResizedWf(cfg, st, capacity);
      RoomShrinks(cfg, st.(device := st.device.(capacity := capacity)), 0);
      WindowShrinks(cfg, st, st.(device := st.device.(capacity := capacity)));
    case ClearOp(keepPinned) =>
      DropAllWf(cfg, st, Doomed(st, keepPinned));
      WindowShrinks(cfg, st, Clear(st, keepPinned));
  }

  lemma HitWindow(cfg: Config, st: State, k: Key)
    requires Wf(cfg, st) && k in st.entries && !st.entries[k].tier.Host?
    ensures Windowed(Acquire(cfg, st, k).0) == Windowed(st)
  {
    ClaimWindow(cfg, st, k);
    ClaimWf(cfg, st, k);
    hide Wf, Touch;
  }

  // No operation of the run changes the plan.
  predicate KeepsPlan(ops: seq<Op>) {
    forall i :: 0 <= i < |ops| ==> !ops[i].PlanOp?
  }

  ghost predicate NeverPromotes(cfg: Config, start: State, ops: seq<Op>)
    requires Wf(cfg, start)
  {
    forall i :: 0 <= i < |ops| ==> !Promotes(Run(cfg, start, ops[..i]), ops[i])
  }

  /** While the plan stands and nothing is promoted from the host, the device never holds more unpinned
      dense layers than the window. */
  lemma {:induction false} WindowHolds(cfg: Config, start: State, ops: seq<Op>)
    requires Wf(cfg, start) && |Windowed(start)| <= cfg.window && KeepsPlan(ops) && NeverPromotes(cfg, start, ops)
    ensures |Windowed(Run(cfg, start, ops))| <= cfg.window
    decreases |ops|
  {
    hide Wf, Step, Promotes, Windowed;
    if ops != [] {
      var n := |ops| - 1;
      forall i | 0 <= i < n ensures !Promotes(Run(cfg, start, ops[..n][..i]), ops[..n][i]) {
        assert ops[..n][..i] == ops[..i];
      }
      WindowHolds(cfg, start, ops[..n]);
      StepWindow(cfg, Run(cfg, start, ops[..n]), ops[n]);
    }
  }

  // More unpinned dense layers than the window holds, though some could go.
  ghost predicate Overfull(cfg: Config, st: State)
    requires Wf(cfg, st)
  {
    |Windowed(st)| > cfg.window && Idle(st) != {}
  }

  // A dense layer put on the device and claimed at once joins the window, and is not idle.
  lemma Joins(room: State, k: Key, e: Entry)
    requires room.device.keys <= room.entries.Keys && k !in room.entries && k.kind.Dense? && !e.pinned
    ensures var r := Claim(OnDevice(room, k, e), k);
      && r.device.keys <= r.entries.Keys && Windowed(r) == Windowed(room) + {k} && k !in Windowed(room)
      && Idle(r) == Idle(room)
  {
    var r := Claim(OnDevice(room, k, e), k);
    assert r.device.keys == room.device.keys + {k} && r.entries.Keys == room.entries.Keys + {k};
    forall j | j in room.device.keys ensures r.entries[j] == room.entries[j] {}
  }

  lemma PromotedJoins(cfg: Config, st: State, room: State, k: Key, r: State)
    requires Wf(cfg, room) && Wf(cfg, r) && k !in room.entries && k.kind.Dense?
    requires k in st.entries && !st.entries[k].pinned && r == Claim(OnDevice(room, k, st.entries[k]), k)
    ensures Windowed(r) == Windowed(room) + {k} && |Windowed(r)| == |Windowed(room)| + 1 && Idle(r) == Idle(room)
  {
    hide Wf, Claim, OnDevice, Idle, Windowed;
    DeviceIsTracked(cfg, room);
    Joins(room, k, st.entries[k]);
  }

  // A dense layer's acquisition from the host, step by step.
  lemma PromotionIs(cfg: Config, st: State, k: Key)
    requires Wf(cfg, st) && k in st.entries && st.entries[k].tier.Host? && k.kind.Dense?
    ensures Wf(cfg, LiftHosted(st, k)) && st.entries[k].bytes == cfg.size(k)
    ensures var room := MakeRoom(cfg, LiftHosted(st, k), cfg.size(k));
      Wf(cfg, room) && k !in room.entries && Acquire(cfg, st, k).0 == Claim(OnDevice(room, k, st.entries[k]), k)
  {
    LiftHostedWf(cfg, st, k);
    AgingIsSet(cfg, st);
    assert st.entries[k].bytes == cfg.size(k) by { assert EntryWf(cfg, st, k); }
    RoomOnlyLoses(cfg, LiftHosted(st, k), cfg.size(k));
    hide Wf, MakeRoom, Claim, Balance, Kept, Victims;
  }

  lemma RoomIsThere(cfg: Config, st: State, k: Key)
    requires Wf(cfg, st) && k in st.entries && st.entries[k].tier.Host? && Wf(cfg, LiftHosted(st, k))
    requires st.device.bytes + cfg.size(k) <= st.device.capacity
    ensures var room := MakeRoom(cfg, LiftHosted(st, k), cfg.size(k));
      Windowed(room) == Windowed(st) && Idle(room) == Idle(st)
  {
    DeviceIsTracked(cfg, st);
    ShelfOf(cfg, st, k);
    hide Wf;
    assert MakeRoom(cfg, LiftHosted(st, k), cfg.size(k)) == LiftHosted(st, k);
  }

  /** A promotion does not enforce the window: it leaves the device overfull exactly when a window's worth
      of unpinned dense layers, not all of them being read, is there beside the room made for it. When
      there is room already that is what was there before. */
  lemma PromotionOverfillsExactly(cfg: Config, st: State, k: Key)
    requires Wf(cfg, st) && k in st.entries && st.entries[k].tier.Host? && k.kind.Dense? && !st.entries[k].pinned
    ensures Wf(cfg, LiftHosted(st, k))
    ensures var room := MakeRoom(cfg, LiftHosted(st, k), cfg.size(k));
      Overfull(cfg, Acquire(cfg, st, k).0) <==> |Windowed(room)| >= cfg.window && Idle(room) != {}
    ensures st.device.bytes + cfg.size(k) <= st.device.capacity ==>
      (Overfull(cfg, Acquire(cfg, st, k).0) <==> |Windowed(st)| >= cfg.window && Idle(st) != {})
  {
    PromotionIs(cfg, st, k);
    PromotedJoins(cfg, st, MakeRoom(cfg, LiftHosted(st, k), cfg.size(k)), k, Acquire(cfg, st, k).0);
    if st.device.bytes + cfg.size(k) <= st.device.capacity { RoomIsThere(cfg, st, k); }
    hide Wf, Acquire, MakeRoom, Windowed, Idle;
  }

  // ---- what the host may clear -----------------------------------------------------------------------------

  // Every key that is ever acquired would fit in host memory together, or there is no host tier.
  ghost predicate Roomy(cfg: Config, st: State, keys: set<Key>) {
    st.entries.Keys <= keys && (st.host.capacity == 0 || Sum(cfg.size, keys) <= st.host.capacity)
  }

  // `r` came about without clearing a payload or admitting a key.
  predicate ClearsNone(st: State, r: State) {
    && r.discarded.cleared == st.discarded.cleared && r.entries.Keys <= st.entries.Keys
    && r.host.capacity == st.host.capacity
  }

  lemma DemoteClearsNone(cfg: Config, st: State, keys: set<Key>, k: Key)
    requires Wf(cfg, st) && Roomy(cfg, st, keys) && k in st.device.keys && k in st.entries && st.entries[k].Evictable()
    ensures ClearsNone(st, Demote(cfg, st, k))
  {
    LiftOffWf(cfg, st, k);
    ShelfOf(cfg, st, k);
    assert st.entries[k].bytes == cfg.size(k) by { assert EntryWf(cfg, st, k); }
    assert st.host.bytes == Sum(cfg.size, st.host.keys) && st.host.keys <= st.entries.Keys;
    assert k !in st.host.keys by { assert EntryWf(cfg, st, k); }
    SumAdd(cfg.size, st.host.keys, k);
    SumSubset(cfg.size, st.host.keys + {k}, keys);
    hide Wf, Sum, First;
    assert Lifted(cfg, st, k) == LiftOff(st, k);
  }

  lemma {:induction false} RoomClearsNone(cfg: Config, st: State, keys: set<Key>, bytes: nat)
    requires Wf(cfg, st) && Roomy(cfg, st, keys)
    ensures ClearsNone(st, MakeRoom(cfg, st, bytes))
    decreases |st.device.keys|
  {
    hide Demote, Wf, First, Kept, Balance;
    DeviceIsTracked(cfg, st);
    if !(st.device.capacity == 0 || st.device.bytes + bytes <= st.device.capacity || Victims(st) == {}) {
      var k := First(st.entries, Victims(st));
      FirstOf(st.entries, Victims(st));
      DemoteWf(cfg, st, k);
      DemoteClearsNone(cfg, st, keys, k);
      RoomClearsNone(cfg, Demote(cfg, st, k), keys, bytes);
    }
  }

  lemma {:induction false} WindowClearsNone(cfg: Config, st: State, keys: set<Key>)
    requires Wf(cfg, st) && Roomy(cfg, st, keys)
    ensures ClearsNone(st, EnforceWindow(cfg, st))
    decreases |st.device.keys|
  {
    hide Demote, Wf, First, Kept, Balance;
    DeviceIsTracked(cfg, st);
    if !(|Windowed(st)| <= cfg.window || Idle(st) == {}) {
      var k := First(st.entries, Idle(st));
      FirstOf(st.entries, Idle(st));
      DemoteWf(cfg, st, k);
      DemoteClearsNone(cfg, st, keys, k);
      WindowClearsNone(cfg, Demote(cfg, st, k), keys);
    }
  }

  lemma AdmitClearsNone(cfg: Config, st: State, keys: set<Key>, k: Key)
    requires Wf(cfg, st) && Roomy(cfg, st, keys) && k !in st.entries && k in keys
    ensures var r := Admit(cfg, st, k);
      r.discarded.cleared == st.discarded.cleared && Roomy(cfg, r, keys) && r.host.capacity == st.host.capacity
  {
    hide Wf, EnforceWindow, Balance, Kept, Sum, Ordered;
    TickedWf(cfg, st, k);
    var added := OnDevice(Ticked(st), k, NewEntry(cfg, Ticked(st), k));
    if 0 < st.device.capacity && cfg.size(k) <= st.device.capacity && k.kind.Dense? {
      WindowClearsNone(cfg, added, keys);
    }
  }

  lemma AcquireClearsNone(cfg: Config, st: State, keys: set<Key>, k: Key)
    requires Wf(cfg, st) && Roomy(cfg, st, keys) && k in keys
    ensures var r := Acquire(cfg, st, k).0;
      r.discarded.cleared == st.discarded.cleared && Roomy(cfg, r, keys)
  {
    hide Wf, Balance, Touch, MakeRoom, Admit, Sum, Kept;
    AgingIsSet(cfg, st);
    TouchKeeps(cfg, st, k);
    if k in st.entries && st.entries[k].tier.Host? {
      LiftHostedWf(cfg, st, k);
      PromotedWf(cfg, st, k);
      RoomClearsNone(cfg, LiftHosted(st, k), keys, st.entries[k].bytes);
      TouchKeeps(cfg, Promoted(cfg, st, k), k);
    } else if k !in st.entries {
      var counted := Read(cfg, st, k);
      ReadWf(cfg, st, k);
      RoomKeepsAbsent(cfg, counted, k, cfg.size(k));
      RoomClearsNone(cfg, counted, keys, cfg.size(k));
      AdmitClearsNone(cfg, MakeRoom(cfg, counted, cfg.size(k)), keys, k);
      FetchedWf(cfg, st, k);
      TouchKeeps(cfg, Fetched(cfg, st, k), k);
    }
  }

  lemma {:induction false} DropAllClearsNone(st: State, doomed: set<Key>)
    requires doomed <= st.entries.Keys
    ensures ClearsNone(st, DropAll(st, doomed))
    decreases |doomed|
  {
    if doomed != {} {
      var k :| k in doomed && DropAll(st, doomed) == DropAll(Dropped(st, k), doomed - {k});
      DropAllClearsNone(Dropped(st, k), doomed - {k});
    }
  }

  lemma StepClearsNone(cfg: Config, st: State, keys: set<Key>, op: Op)
    requires Wf(cfg, st) && Roomy(cfg, st, keys) && (op.AcquireOp? ==> op.key in keys)
    ensures var r := Step(cfg, st, op); r.discarded.cleared == st.discarded.cleared && Roomy(cfg, r, keys)
  {
    hide Wf, Balance, Acquire, MakeRoom, Sum;
    match op
    case AcquireOp(k) => AcquireClearsNone(cfg, st, keys, k);
    case ReleaseOp(k) => ReleaseWf(cfg, st, k);
    case PlanOp(plan) => ApplyPlanWf(cfg, st, plan);
    case ResizeOp(capacity) =>
      ResizedWf(cfg, st, capacity);
      RoomClearsNone(cfg, st.(device := st.device.(capacity := capacity)), keys, 0);
    case ClearOp(keepPinned) =>
      DropAllWf(cfg, st, Doomed(st, keepPinned));
      DropAllClearsNone(st, Doomed(st, keepPinned));
  }

  // Only these keys are acquired.
  predicate Asks(ops: seq<Op>, keys: set<Key>) {
    forall i :: 0 <= i < |ops| && ops[i].AcquireOp? ==> ops[i].key in keys
  }

  lemma {:induction false} RunClearsNone(cfg: Config, start: State, keys: set<Key>, ops: seq<Op>)
    requires Wf(cfg, start) && Roomy(cfg, start, keys) && Asks(ops, keys)
    ensures var r := Run(cfg, start, ops); r.discarded.cleared == start.discarded.cleared && Roomy(cfg, r, keys)
    decreases |ops|
  {
    hide Wf, Step, Roomy;
    if ops != [] {
      var n := |ops| - 1;
      RunClearsNone(cfg, start, keys, ops[..n]);
      StepClearsNone(cfg, Run(cfg, start, ops[..n]), keys, ops[n]);
    }
  }

  /** With no host tier, or one that could hold every key asked for, no run clears a payload, so each one read
      is tracked or has been handed back. */
  lemma NothingIsLost(cfg: Config, deviceBytes: nat, hostBytes: nat, pinned: set<Key>, ops: seq<Op>, keys: set<Key>)
    requires cfg.Valid() && Asks(ops, keys) && (hostBytes == 0 || Sum(cfg.size, keys) <= hostBytes)
    ensures Wf(cfg, Start(deviceBytes, hostBytes, pinned))
    ensures var st := Run(cfg, Start(deviceBytes, hostBytes, pinned), ops);
      && st.discarded.cleared == multiset{}
      && st.fetched == Contents(cfg.fetch, st.entries.Keys) + st.discarded.back
  {
    StartWf(cfg, deviceBytes, hostBytes, pinned);
    RunClearsNone(cfg, Start(deviceBytes, hostBytes, pinned), keys, ops);
    PayloadsConserved(cfg, deviceBytes, hostBytes, pinned, ops);
    hide Run, Wf;
  }

  // ---- who is using what -----------------------------------------------------------------------------------

  // Acquisitions of `k` not yet released; a release too many does nothing.
  function Claims(ops: seq<Op>, k: Key): nat
    decreases |ops|
  {
    if ops == [] then 0
    else
      var before, op := Claims(ops[..|ops| - 1], k), ops[|ops| - 1];
      if op == AcquireOp(k) then before + 1
      else if op == ReleaseOp(k) && before > 0 then before - 1
      else before
  }

  function Users(st: State, k: Key): nat {
    if k in st.entries then st.entries[k].refs else 0
  }

  // Nothing but `k` gains a user.
  predicate OthersUnclaimed(st: State, r: State, k: Key) {
    forall j :: j in r.entries && j != k ==> j in st.entries && r.entries[j].refs == st.entries[j].refs
  }

  lemma AdmitUsers(cfg: Config, st: State, k: Key)
    requires Wf(cfg, st) && k !in st.entries
    ensures OthersUnclaimed(st, Admit(cfg, st, k), k)
  {
    hide Wf, EnforceWindow, Balance, Kept, Ordered;
    TickedWf(cfg, st, k);
    WindowOnlyLoses(cfg, OnDevice(Ticked(st), k, NewEntry(cfg, Ticked(st), k)));
  }

  lemma AcquireUsers(cfg: Config, st: State, k: Key)
    requires Wf(cfg, st)
    ensures OthersUnclaimed(st, Acquire(cfg, st, k).0, k)
  {
    hide Wf, Balance, Touch, MakeRoom, Admit, Kept;
    AgingIsSet(cfg, st);
    TouchKeeps(cfg, st, k);
    if k in st.entries && st.entries[k].tier.Host? {
      LiftHostedWf(cfg, st, k);
      PromotedWf(cfg, st, k);
      RoomOnlyLoses(cfg, LiftHosted(st, k), st.entries[k].bytes);
      TouchKeeps(cfg, Promoted(cfg, st, k), k);
    } else if k !in st.entries {
      var counted := Read(cfg, st, k);
      ReadWf(cfg, st, k);
      RoomKeepsAbsent(cfg, counted, k, cfg.size(k));
      RoomOnlyLoses(cfg, counted, cfg.size(k));
      AdmitUsers(cfg, MakeRoom(cfg, counted, cfg.size(k)), k);
      FetchedWf(cfg, st, k);
      TouchKeeps(cfg, Fetched(cfg, st, k), k);
    }
  }

  lemma StepUsers(cfg: Config, st: State, op: Op, j: Key)
    requires Wf(cfg, st) && (op.AcquireOp? ==> !PushesItselfOut(cfg, st, op.key))
    ensures Users(Step(cfg, st, op), j)
         == if op == AcquireOp(j) then Users(st, j) + 1
            else if op == ReleaseOp(j) && Users(st, j) > 0 then Users(st, j) - 1
            else Users(st, j)
  {
    hide Wf, Balance, Kept, Acquire, MakeRoom, PushesItselfOut;
    match op
    case AcquireOp(k) =>
      if k == j {
        AcquireSettlesExactly(cfg, st, k);
      } else {
        AcquireUsers(cfg, st, k);
        if Users(st, j) > 0 { InUseStays(cfg, st, k, j); }
      }
    case ReleaseOp(k) => ReleaseWf(cfg, st, k);
    case PlanOp(plan) => ApplyPlanWf(cfg, st, plan);
    case ResizeOp(capacity) =>
      ResizedWf(cfg, st, capacity);
      RoomOnlyLoses(cfg, st.(device := st.device.(capacity := capacity)), 0);
      if Users(st, j) > 0 { OthersStay(cfg, st, op, j); }
    case ClearOp(keepPinned) => DropAllWf(cfg, st, Doomed(st, keepPinned));
  }

  // No acquisition of the run pushes itself out.
  ghost predicate Settles(cfg: Config, start: State, ops: seq<Op>)
    requires Wf(cfg, start)
  {
    forall i :: 0 <= i < |ops| && ops[i].AcquireOp? ==> !PushesItselfOut(cfg, Run(cfg, start, ops[..i]), ops[i].key)
  }

  /** In every run in which no acquisition pushes itself out, each entry's count is the number of claims on it
      that have not been released. */
  lemma {:induction false} UsersAreClaims(cfg: Config, deviceBytes: nat, hostBytes: nat, pinned: set<Key>,
                                          ops: seq<Op>, k: Key)
    requires cfg.Valid() && Wf(cfg, Start(deviceBytes, hostBytes, pinned))
    requires Settles(cfg, Start(deviceBytes, hostBytes, pinned), ops)
    ensures Users(Run(cfg, Start(deviceBytes, hostBytes, pinned), ops), k) == Claims(ops, k)
    decreases |ops|
  {
    hide Wf, Step, PushesItselfOut;
    var start := Start(deviceBytes, hostBytes, pinned);
    if ops != [] {
      var n := |ops| - 1;
      forall i | 0 <= i < n && ops[..n][i].AcquireOp?
        ensures !PushesItselfOut(cfg, Run(cfg, start, ops[..n][..i]), ops[..n][i].key)
      {
        assert ops[..n][..i] == ops[..i];
      }
      UsersAreClaims(cfg, deviceBytes, hostBytes, pinned, ops[..n], k);
      StepUsers(cfg, Run(cfg, start, ops[..n]), ops[n], k);
    }
  }

  // ---- runs that break the limits ----------------------------------------------------------------------------

  function Loaded(cfg: Config, st: State, k: Key): State {
    OnDevice(Ticked(Read(cfg, st, k)), k, NewEntry(cfg, Ticked(st), k))
  }

  lemma LoadedWf(cfg: Config, st: State, y: Key)
    requires Wf(cfg, st) && y !in st.entries
    ensures Wf(cfg, Loaded(cfg, st, y)) && Wf(cfg, Read(cfg, st, y))
    ensures Loaded(cfg, st, y).device.keys <= Loaded(cfg, st, y).entries.Keys
  {
    hide Wf, Balance, Kept;
    ReadWf(cfg, st, y);
    TickedWf(cfg, Read(cfg, st, y), y);
    DeviceIsTracked(cfg, Loaded(cfg, st, y));
  }

  lemma RoomAlready(cfg: Config, st: State, bytes: nat)
    requires Wf(cfg, st) && st.device.bytes + bytes <= st.device.capacity
    ensures MakeRoom(cfg, st, bytes) == st
  {
    hide Wf, First, Demote, Victims;
  }

  lemma AdmitsLoaded(cfg: Config, st: State, y: Key)
    requires Wf(cfg, Read(cfg, st, y)) && y !in st.entries && y.kind.Dense? && Wf(cfg, Loaded(cfg, st, y))
    requires 0 < st.device.capacity && cfg.size(y) <= st.device.capacity
    ensures Admit(cfg, Read(cfg, st, y), y) == EnforceWindow(cfg, Loaded(cfg, st, y))
  {
    hide Wf, EnforceWindow;
  }

  lemma MissOfDense(cfg: Config, st: State, y: Key)
    requires Wf(cfg, st) && y !in st.entries && y.kind.Dense?
    requires y in Fetched(cfg, st, y).entries && !Fetched(cfg, st, y).entries[y].tier.Transient?
    ensures Acquire(cfg, st, y).0 == Claim(Fetched(cfg, st, y), y)
  {
    AgingIsSet(cfg, st);
    FetchedWf(cfg, st, y);
    hide Wf, Fetched, Claim, Balance;
  }

  // A missing dense layer for which there is room.
  lemma LoadsInPlace(cfg: Config, st: State, y: Key)
    requires Wf(cfg, st) && y !in st.entries && y.kind.Dense? && Wf(cfg, Loaded(cfg, st, y)) && Wf(cfg, Read(cfg, st, y))
    requires 0 < st.device.capacity && cfg.size(y) <= st.device.capacity
    requires st.device.bytes + cfg.size(y) <= st.device.capacity
    requires y in EnforceWindow(cfg, Loaded(cfg, st, y)).entries
      && !EnforceWindow(cfg, Loaded(cfg, st, y)).entries[y].tier.Transient?
    ensures Acquire(cfg, st, y).0 == Claim(EnforceWindow(cfg, Loaded(cfg, st, y)), y)
  {
    hide Wf, MakeRoom, EnforceWindow, Claim, Admit, Acquire, Loaded, Balance, Kept;
    RoomAlready(cfg, Read(cfg, st, y), cfg.size(y));
    AdmitsLoaded(cfg, st, y);
    MissOfDense(cfg, st, y);
  }

  // The older of two idle layers leaves a window of one.
  lemma OlderLeaves(cfg: Config, st: State, x: Key, y: Key)
    requires Wf(cfg, st) && cfg.window == 1 && st.device.keys == {x, y} && x != y && x.kind.Dense? && y.kind.Dense?
    requires x in st.entries && y in st.entries && st.entries[x].Evictable() && st.entries[y].Evictable()
    requires st.entries[x].inserted < st.entries[y].inserted && st.entries[x].uses == st.entries[y].uses
    ensures EnforceWindow(cfg, st) == Demote(cfg, st, x)
    ensures var r := Demote(cfg, st, x); y in r.entries && r.entries[y] == st.entries[y]
  {
    hide Wf, Demote, First, Balance, Kept, Demoted, Ordered;
    DeviceIsTracked(cfg, st);
    assert Windowed(st) == {x, y} && Idle(st) == {x, y};
    OlderFirst(st.entries, x, y);
    DemoteWf(cfg, st, x);
    DemotedBeside(st, x, Demote(cfg, st, x), y);
    DeviceIsTracked(cfg, Demote(cfg, st, x));
    assert Windowed(Demote(cfg, st, x)) == {y};
  }

  lemma OlderFirst(entries: map<Key, Entry>, x: Key, y: Key)
    requires Ordered(entries) && x in entries && y in entries && x != y && x.kind.Dense? && y.kind.Dense?
    requires entries[x].inserted < entries[y].inserted && entries[x].uses == entries[y].uses
    ensures First(entries, {x, y}) == x
  {
    FirstOf(entries, {x, y});
    hide First;
    assert !Sooner(entries, y, x);
  }

  lemma DemotedBeside(st: State, x: Key, r: State, y: Key)
    requires x in st.entries && Demoted(st, x, r) && y in st.entries && y != x && y in st.device.keys
    ensures r.device.keys == st.device.keys - {x} && y in r.entries && r.entries[y] == st.entries[y]
  {}

  // A missing layer for which there is room, with the window's only other layer idle: that one leaves.
  lemma NextLayer(cfg: Config, st: State, x: Key, y: Key)
    requires Wf(cfg, st) && cfg.window == 1 && st.device.keys == {x} && x.kind.Dense? && x in st.entries
    requires st.entries[x].Evictable() && y !in st.entries && y.kind.Dense? && y !in st.pinned
    requires 0 < st.device.capacity && cfg.size(y) <= st.device.capacity
    requires st.device.bytes + cfg.size(y) <= st.device.capacity
    ensures Wf(cfg, Loaded(cfg, st, y)) && x in Loaded(cfg, st, y).device.keys && Loaded(cfg, st, y).entries[x].Evictable()
    ensures Acquire(cfg, st, y).0 == Claim(Demote(cfg, Loaded(cfg, st, y), x), y)
  {
    LoadedWf(cfg, st, y);
    OlderThanClock(cfg, st);
    assert st.entries[x].uses == 0.0 by { assert EntryWf(cfg, st, x); }
    hide Wf;
    OlderLeaves(cfg, Loaded(cfg, st, y), x, y);
    hide Demote, EnforceWindow, Claim;
    LoadsInPlace(cfg, st, y);
  }

  lemma DeviceHeld(cfg: Config, st: State)
    requires Wf(cfg, st)
    ensures st.device.bytes == Sum(cfg.size, st.device.keys) && st.host.bytes == Sum(cfg.size, st.host.keys)
  {}

  // Leaving for a host with room for it.
  lemma DemoteToHost(cfg: Config, st: State, x: Key)
    requires Wf(cfg, st) && x in st.device.keys && x in st.entries && st.entries[x].Evictable() && cfg.hosts(x)
    requires 0 < st.host.capacity && st.host.bytes + cfg.size(x) <= st.host.capacity
    ensures Demote(cfg, st, x) == OnHost(LiftOff(st, x), x, st.entries[x])
  {
    assert EntryWf(cfg, st, x);
    LiftOffWf(cfg, st, x);
    hide Wf, First;
  }

  // Leaving for a host whose only entry has to go first.
  lemma DemoteOverHost(cfg: Config, st: State, x: Key, z: Key)
    requires Wf(cfg, st) && x in st.device.keys && x in st.entries && st.entries[x].Evictable() && cfg.hosts(x)
    requires st.host.keys == {z} && z in st.entries && z != x && st.entries[z].Evictable()
    requires cfg.size(x) <= st.host.capacity < st.host.bytes + cfg.size(x)
    ensures Demote(cfg, st, x) == OnHost(DropHosted(LiftOff(st, x), z), x, st.entries[x])
  {
    assert EntryWf(cfg, st, x) && EntryWf(cfg, st, z);
    LiftOffWf(cfg, st, x);
    var lifted := LiftOff(st, x);
    assert HostVictims(lifted) == {z};
    DropHostedWf(cfg, lifted, z);
    DeviceHeld(cfg, DropHosted(lifted, z));
    assert DropHosted(lifted, z).host.keys == {};
    FirstOf(lifted.entries, {z});
    hide Wf, First, Balance, Kept;
    assert MakeHostRoom(cfg, lifted, cfg.size(x)) == DropHosted(lifted, z);
  }

  lemma FirstLayer(cfg: Config, st: State, x: Key)
    requires Wf(cfg, st) && st.entries == map[] && st.device.keys == {} && x.kind.Dense? && x !in st.pinned
    requires 0 < st.device.capacity && cfg.size(x) <= st.device.capacity && st.device.bytes == 0
    ensures Acquire(cfg, st, x).0 == Claim(Loaded(cfg, st, x), x)
  {
    LoadedWf(cfg, st, x);
    AgingIsSet(cfg, st);
    var added := Loaded(cfg, st, x);
    assert Windowed(added) == {x};
    hide Wf;
    assert EnforceWindow(cfg, added) == added;
    hide EnforceWindow;
    LoadsInPlace(cfg, st, x);
  }

  // Three layers read one after another: the keys, and what they take up.
  predicate Three(cfg: Config, a: Key, b: Key, c: Key) {
    && cfg.Valid() && cfg.window == 1 && a != b && a != c && b != c
    && a.kind.Dense? && b.kind.Dense? && c.kind.Dense? && cfg.hosts(a) && cfg.hosts(b)
  }

  // A layer's forward: acquired, run, released.
  function Forward(k: Key): seq<Op> {
    [AcquireOp(k), ReleaseOp(k)]
  }

  // One idle layer on the device.
  ghost predicate OneIdle(cfg: Config, st: State, x: Key) {
    && Wf(cfg, st) && st.device.keys == {x} && x in st.entries && st.entries[x].Evictable() && x.kind.Dense?
    && st.pinned == {} && st.device.bytes == cfg.size(x)
  }

  lemma ForwardIs(cfg: Config, start: State, ops: seq<Op>, k: Key)
    requires Wf(cfg, start)
    ensures var st := Run(cfg, start, ops);
      && Run(cfg, start, ops + [AcquireOp(k)]) == Acquire(cfg, st, k).0
      && Run(cfg, start, ops + Forward(k)) == Release(cfg, Acquire(cfg, st, k).0, k)
  {
    hide Acquire, Release, Wf;
    assert (ops + [AcquireOp(k)])[..|ops|] == ops;
    assert (ops + Forward(k))[..|ops| + 1] == ops + [AcquireOp(k)];
  }

  // The first layer's forward leaves it alone on the device.
  lemma FirstForward(cfg: Config, deviceBytes: nat, hostBytes: nat, a: Key)
    requires cfg.Valid() && a.kind.Dense? && 0 < deviceBytes && cfg.size(a) <= deviceBytes
    requires Wf(cfg, Start(deviceBytes, hostBytes, {}))
    ensures var st := Run(cfg, Start(deviceBytes, hostBytes, {}), Forward(a));
      && OneIdle(cfg, st, a) && st.entries.Keys == {a} && st.host.keys == {} && st.host.capacity == hostBytes
      && st.device.capacity == deviceBytes && st.discarded == Gone(multiset{}, multiset{})
  {
    var start := Start(deviceBytes, hostBytes, {});
    FirstLayer(cfg, start, a);
    LoadedWf(cfg, start, a);
    ForwardIs(cfg, start, [], a);
    assert [] + Forward(a) == Forward(a);
    var st := Run(cfg, start, Forward(a));
    DeviceHeld(cfg, st);
    hide Wf, Acquire, Run;
    SumOne(cfg, a);
  }

  lemma SumOne(cfg: Config, k: Key)
    ensures Sum(cfg.size, {k}) == cfg.size(k)
  {
    SumRemove(cfg.size, {k}, k);
    assert {k} - {k} == {};
  }

  // The next layer's forward takes the place of one that goes to an empty host.
  lemma SecondForward(cfg: Config, st: State, x: Key, y: Key)
    requires OneIdle(cfg, st, x) && st.entries.Keys == {x} && st.host.keys == {} && cfg.window == 1 && cfg.hosts(x)
    requires y != x && y.kind.Dense? && cfg.size(x) + cfg.size(y) <= st.device.capacity && 0 < st.device.capacity
    requires 0 < st.host.capacity && cfg.size(x) <= st.host.capacity
    ensures var r := Release(cfg, Acquire(cfg, st, y).0, y);
      && OneIdle(cfg, r, y) && r.entries.Keys == {x, y} && r.host.keys == {x} && r.host.bytes == cfg.size(x)
      && r.entries[x].Evictable() && r.host.capacity == st.host.capacity && r.device.capacity == st.device.capacity
      && r.discarded == st.discarded
  {
    hide Wf, Acquire, Demote, Sum, Balance, Kept, Loaded, Release, Claim, OnHost, LiftOff;
    HeldAs(cfg, st, x);
    DeviceHeld(cfg, st);
    SumEmpty(cfg);
    LoadedIs(cfg, st, y);
    NextLayer(cfg, st, x, y);
    var added := Loaded(cfg, st, y);
    DemoteToHost(cfg, added, x);
    ReleaseWf(cfg, Acquire(cfg, st, y).0, y);
    Relieved(cfg, added, x, y);
  }

  lemma LoadedIs(cfg: Config, st: State, k: Key)
    requires k !in st.pinned
    ensures var r := Loaded(cfg, st, k);
      && r.entries == st.entries[k := Entry(cfg.size(k), Device, cfg.fetch(k), 0, false, 0.0, st.clock + 1)]
      && r.device == On(st.device, k, cfg.size(k)) && r.host == st.host && r.pinned == st.pinned
      && r.discarded == st.discarded
  {}

  // Moving one of two layers to the host and reading the other.
  lemma Relieved(cfg: Config, st: State, x: Key, y: Key)
    requires x in st.entries && y in st.entries && x != y && st.entries[y].refs == 0 && st.entries[y].tier.Device?
    ensures var r := Release(cfg, Claim(OnHost(LiftOff(st, x), x, st.entries[x]), y), y);
      && r.entries == st.entries[x := st.entries[x].(tier := Host)]
      && r.device == Off(st.device, x, st.entries[x].bytes) && r.host == On(st.host, x, st.entries[x].bytes)
      && r.discarded == st.discarded && r.pinned == st.pinned
  {
    var moved := OnHost(LiftOff(st, x), x, st.entries[x]);
    assert moved.entries == st.entries[x := st.entries[x].(tier := Host)];
    var e := st.entries[y];
    assert moved.entries[y := e.(refs := 1)][y := e] == moved.entries;
  }

  lemma SumEmpty(cfg: Config)
    ensures Sum(cfg.size, {}) == 0
  {}

  /** A run that overfills the device: a layer is read, another takes its place, and the first is promoted
      beside it. */
  lemma PromotionOverfills(cfg: Config, deviceBytes: nat, hostBytes: nat, a: Key, b: Key)
    requires cfg.Valid() && cfg.window == 1 && a != b && a.kind.Dense? && b.kind.Dense? && cfg.hosts(a)
    requires cfg.size(a) + cfg.size(b) <= deviceBytes && 0 < deviceBytes && 0 < hostBytes && cfg.size(a) <= hostBytes
    ensures Wf(cfg, Start(deviceBytes, hostBytes, {}))
    ensures Overfull(cfg, Run(cfg, Start(deviceBytes, hostBytes, {}), Forward(a) + Forward(b) + [AcquireOp(a)]))
  {
    var start := Start(deviceBytes, hostBytes, {});
    StartWf(cfg, deviceBytes, hostBytes, {});
    FirstForward(cfg, deviceBytes, hostBytes, a);
    ForwardIs(cfg, start, Forward(a), b);
    ForwardIs(cfg, start, Forward(a) + Forward(b), a);
    hide Run, Acquire, Release, Overfull, Wf, Windowed, Idle, Forward;
    SecondForward(cfg, Run(cfg, start, Forward(a)), a, b);
    var st := Run(cfg, start, Forward(a) + Forward(b));
    OneIdleWindow(cfg, st, b);
    HeldAs(cfg, st, a);
    PromotionOverfillsExactly(cfg, st, a);
  }

  lemma OneIdleWindow(cfg: Config, st: State, x: Key)
    requires OneIdle(cfg, st, x)
    ensures st.device.keys <= st.entries.Keys && |Windowed(st)| == 1 && Idle(st) != {}
  {
    DeviceIsTracked(cfg, st);
    hide Wf;
    assert Windowed(st) == {x} && x in Idle(st);
  }

  lemma HeldAs(cfg: Config, st: State, k: Key)
    requires Wf(cfg, st) && k in st.entries
    ensures st.entries[k].bytes == cfg.size(k) && st.entries[k].payload == cfg.fetch(k)
    ensures k in st.host.keys ==> st.entries[k].tier.Host?
  {
    assert EntryWf(cfg, st, k);
  }

  /** A run that loses a payload: the host has room for one layer, and a third layer's forward clears it. */
  lemma HostEvictionClears(cfg: Config, deviceBytes: nat, hostBytes: nat, a: Key, b: Key, c: Key)
    requires Three(cfg, a, b, c)
    requires 0 < deviceBytes && cfg.size(a) + cfg.size(b) <= deviceBytes && cfg.size(b) + cfg.size(c) <= deviceBytes
    requires 0 < hostBytes && cfg.size(a) <= hostBytes && cfg.size(b) <= hostBytes < cfg.size(a) + cfg.size(b)
    ensures Wf(cfg, Start(deviceBytes, hostBytes, {}))
    ensures var st := Run(cfg, Start(deviceBytes, hostBytes, {}), Forward(a) + Forward(b) + [AcquireOp(c)]);
      && st.discarded == Gone(multiset{}, multiset{cfg.fetch(a)}) && a !in st.entries
      && st.fetched != Contents(cfg.fetch, st.entries.Keys) + st.discarded.back
  {
    var start := Start(deviceBytes, hostBytes, {});
    StartWf(cfg, deviceBytes, hostBytes, {});
    FirstForward(cfg, deviceBytes, hostBytes, a);
    ForwardIs(cfg, start, Forward(a), b);
    ForwardIs(cfg, start, Forward(a) + Forward(b), c);
    PayloadsConserved(cfg, deviceBytes, hostBytes, {}, Forward(a) + Forward(b) + [AcquireOp(c)]);
    hide Run, Acquire, Release, Wf, Demote, Forward, Contents;
    SecondForward(cfg, Run(cfg, start, Forward(a)), a, b);
    var st := Run(cfg, start, Forward(a) + Forward(b));
    HeldAs(cfg, st, a);
    NextLayer(cfg, st, b, c);
    LoadedIs(cfg, st, c);
    hide Loaded;
    var added := Loaded(cfg, st, c);
    DemoteOverHost(cfg, added, b, a);
    assert st.discarded == Gone(multiset{}, multiset{});
    Replaced(added, b, a, c);
  }

  lemma Replaced(st: State, x: Key, z: Key, y: Key)
    requires x in st.entries && z in st.entries && x != z && y != z
    ensures var r := Claim(OnHost(DropHosted(LiftOff(st, x), z), x, st.entries[x]), y);
      && r.discarded == st.discarded.(cleared := st.discarded.cleared + multiset{st.entries[z].payload})
      && z !in r.entries
  {}
}
