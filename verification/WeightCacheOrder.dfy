// The order in which weights leave their tier, how many leave, and where they go: of two that could go the
// less valuable one does, no more than are in the way, and to host memory whenever it can take them.
module WeightCacheOrder {
  import opened Options
  import opened WeightCache
  import opened WeightCacheRuns
  import opened WeightCacheUse

  // ---- who goes first --------------------------------------------------------------------------------------

  // Experts before dense layers, of experts the less used, and then whichever was admitted earlier.
  predicate GoesBefore(st: State, a: Key, b: Key)
    requires a in st.entries && b in st.entries
  {
    var e, f := st.entries[a], st.entries[b];
    if a.kind.Expert? && b.kind.Expert? then e.uses < f.uses || (e.uses == f.uses && e.inserted < f.inserted)
    else if a.kind.Dense? && b.kind.Dense? then e.inserted < f.inserted
    else a.kind.Expert?
  }

  lemma FirstGoesBefore(cfg: Config, st: State, s: set<Key>, b: Key)
    requires Wf(cfg, st) && s <= st.entries.Keys && b in s
    ensures First(st.entries, s) in s && (b != First(st.entries, s) ==> GoesBefore(st, First(st.entries, s), b))
  {
    FirstOf(st.entries, s);
    var k := First(st.entries, s);
    assert EntryWf(cfg, st, b) && EntryWf(cfg, st, k);
  }

  // `a` has left the device and `b` has not; `a` has left host memory and the cache and `b` is still there.
  predicate LeftDevice(st: State, r: State, a: Key, b: Key) {
    a in st.device.keys && b in st.device.keys && a !in r.device.keys && b in r.device.keys
  }

  predicate LeftHost(st: State, r: State, a: Key, b: Key) {
    a in st.host.keys && b in st.host.keys && a !in r.entries && b in r.host.keys
  }

  predicate Free(st: State, a: Key, b: Key) {
    a in st.entries && b in st.entries && st.entries[a].Evictable() && st.entries[b].Evictable()
  }

  lemma HostIsTracked(cfg: Config, st: State)
    requires Wf(cfg, st)
    ensures st.host.keys <= st.entries.Keys && Ordered(st.entries) && st.device.keys <= st.entries.Keys
    ensures forall k :: k in st.host.keys ==> st.entries[k].tier.Host?
  {
    forall k | k in st.host.keys ensures st.entries[k].tier.Host? { assert EntryWf(cfg, st, k); }
  }

  lemma HostRoomOnlyLoses(cfg: Config, st: State, bytes: nat, k: Key)
    requires Wf(cfg, st)
    ensures var r := MakeHostRoom(cfg, st, bytes);
      && Wf(cfg, r) && (k in r.entries ==> k in st.entries && r.entries[k] == st.entries[k])
      && (k in r.host.keys <==> k in r.entries && k in st.host.keys)
  {
    var r := MakeHostRoom(cfg, st, bytes);
    assert HostOnly(st, r);
    hide MakeHostRoom, Sum;
    if k in r.entries { assert EntryWf(cfg, r, k) && EntryWf(cfg, st, k); }
    HostIsTracked(cfg, r);
  }

  // Either nothing has to go from host memory, or the first in turn goes and the rest is as after it.
  lemma HostRoomStep(cfg: Config, st: State, bytes: nat, b: Key) returns (k: Option<Key>)
    requires Wf(cfg, st)
    ensures k.None? ==> MakeHostRoom(cfg, st, bytes) == st
    ensures k.Some? ==>
      && k.value in st.host.keys && k.value in st.entries && Wf(cfg, DropHosted(st, k.value))
      && st.host.bytes + bytes > st.host.capacity
      && MakeHostRoom(cfg, st, bytes) == MakeHostRoom(cfg, DropHosted(st, k.value), bytes)
      && (b in st.host.keys && b in st.entries && st.entries[b].Evictable() && b != k.value ==> GoesBefore(st, k.value, b))
  {
    HostIsTracked(cfg, st);
    hide Wf, Kept, Balance, GoesBefore, HostOnly;
    if st.host.bytes + bytes <= st.host.capacity || HostVictims(st) == {} {
      k := None;
    } else {
      var first := First(st.entries, HostVictims(st));
      FirstOf(st.entries, HostVictims(st));
      DropHostedWf(cfg, st, first);
      if b in HostVictims(st) { FirstGoesBefore(cfg, st, HostVictims(st), b); }
      k := Some(first);
    }
  }

  lemma {:induction false} HostRoomInTurn(cfg: Config, st: State, bytes: nat, a: Key, b: Key)
    requires Wf(cfg, st) && Free(st, a, b)
    ensures LeftHost(st, MakeHostRoom(cfg, st, bytes), a, b) ==> GoesBefore(st, a, b)
    decreases |st.host.keys|
  {
    hide Wf, GoesBefore, MakeHostRoom;
    var k := HostRoomStep(cfg, st, bytes, b);
    if k.Some? {
      var next := DropHosted(st, k.value);
      HostRoomOnlyLoses(cfg, next, bytes, b);
      if a != k.value && b != k.value {
        HostRoomInTurn(cfg, next, bytes, a, b);
        SameTurn(st, next, a, b);
      }
    }
  }

  lemma SameTurn(st: State, r: State, a: Key, b: Key)
    requires a in st.entries && b in st.entries && a in r.entries && b in r.entries
    requires r.entries[a] == st.entries[a].(tier := r.entries[a].tier)
    requires r.entries[b] == st.entries[b].(tier := r.entries[b].tier)
    ensures GoesBefore(r, a, b) == GoesBefore(st, a, b)
  {}

  // Lifting an entry off the device leaves the rest as they are.
  lemma LiftInTurn(cfg: Config, st: State, k: Key, a: Key, b: Key)
    requires Wf(cfg, st) && k in st.device.keys && k in st.entries && st.entries[k].Evictable()
    requires Free(st, a, b) && a != k && b != k
    ensures var room := Lifted(cfg, st, k);
      && (LeftHost(st, room, a, b) ==> GoesBefore(st, a, b))
      && (a in st.host.keys && a in room.entries ==> room.entries[a] == st.entries[a] && a in room.host.keys)
  {
    hide Wf, GoesBefore, MakeHostRoom, Balance, LiftOff, LeftHost;
    LiftOffWf(cfg, st, k);
    OffTheDevice(st, k, a, b);
    var off := LiftOff(st, k);
    if st.host.capacity > 0 {
      HostRoomInTurn(cfg, off, st.entries[k].bytes, a, b);
      HostRoomOnlyLoses(cfg, off, st.entries[k].bytes, a);
      SameLeft(st, off, MakeHostRoom(cfg, off, st.entries[k].bytes), a, b);
    } else {
      SameLeft(st, off, off, a, b);
      NoneLeft(off, a, b);
    }
  }

  lemma OffTheDevice(st: State, k: Key, a: Key, b: Key)
    requires k in st.entries && a != k && b != k && Free(st, a, b)
    ensures var off := LiftOff(st, k);
      && off.host == st.host && Free(off, a, b)
      && off.entries[a] == st.entries[a] && off.entries[b] == st.entries[b] && GoesBefore(off, a, b) == GoesBefore(st, a, b)
  {}

  lemma SameLeft(st: State, off: State, r: State, a: Key, b: Key)
    requires off.host == st.host
    ensures LeftHost(st, r, a, b) == LeftHost(off, r, a, b)
  {}

  lemma DemoteInTurn(cfg: Config, st: State, k: Key, a: Key, b: Key)
    requires Wf(cfg, st) && k in st.device.keys && k in st.entries && st.entries[k].Evictable()
    requires Free(st, a, b) && a != k && b != k
    ensures var r := Demote(cfg, st, k);
      && (LeftHost(st, r, a, b) ==> GoesBefore(st, a, b))
      && (a in st.host.keys && a in r.entries ==> r.entries[a] == st.entries[a] && a in r.host.keys)
  {
    hide Wf, GoesBefore, Lifted;
    LiftInTurn(cfg, st, k, a, b);
  }

  // Either no room has to be made on the device, or the first in turn goes and the rest is as after it.
  lemma RoomStep(cfg: Config, st: State, bytes: nat, b: Key) returns (k: Option<Key>)
    requires Wf(cfg, st)
    ensures k.None? ==> MakeRoom(cfg, st, bytes) == st
    ensures k.Some? ==>
      && k.value in st.device.keys && k.value in st.entries && st.entries[k.value].Evictable()
      && Wf(cfg, Demote(cfg, st, k.value)) && Demoted(st, k.value, Demote(cfg, st, k.value))
      && st.device.capacity > 0 && st.device.bytes + bytes > st.device.capacity
      && MakeRoom(cfg, st, bytes) == MakeRoom(cfg, Demote(cfg, st, k.value), bytes)
      && (b in st.device.keys && b in st.entries && st.entries[b].Evictable() && b != k.value
         ==> GoesBefore(st, k.value, b))
  {
    DeviceIsTracked(cfg, st);
    hide Wf, Kept, Balance, GoesBefore, Demote, Demoted;
    if st.device.capacity == 0 || st.device.bytes + bytes <= st.device.capacity || Victims(st) == {} {
      k := None;
    } else {
      var first := First(st.entries, Victims(st));
      FirstOf(st.entries, Victims(st));
      DemoteWf(cfg, st, first);
      if b in Victims(st) { FirstGoesBefore(cfg, st, Victims(st), b); }
      k := Some(first);
    }
  }

  // If only one of the two has left a tier, it is the one to go before the other. While the window is being
  // enforced a dense layer may also leave the device before an expert.
  predicate InTurn(st: State, r: State, window: bool, a: Key, b: Key)
    requires a in st.entries && b in st.entries
  {
    && (LeftDevice(st, r, a, b) ==> GoesBefore(st, a, b) || (window && a.kind.Dense? && b.kind.Expert?))
    && (LeftHost(st, r, a, b) ==> GoesBefore(st, a, b))
  }

  // What comes after a demotion only takes more out.
  predicate OnlyLess(st: State, r: State, k: Key) {
    && (k in r.entries ==> k in st.entries) && r.device.keys <= st.device.keys
    && (k in r.host.keys ==> k in r.entries) && (k in r.device.keys ==> k in r.entries)
  }

  lemma RoomOnlyLess(cfg: Config, st: State, bytes: nat, k: Key)
    requires Wf(cfg, st)
    ensures Wf(cfg, MakeRoom(cfg, st, bytes)) && OnlyLess(st, MakeRoom(cfg, st, bytes), k)
  {
    RoomOnlyLoses(cfg, st, bytes);
    HostIsTracked(cfg, MakeRoom(cfg, st, bytes));
  }

  // Turns after one demotion, and after what follows it, put together.
  lemma TurnsTogether(cfg: Config, st: State, k: Key, r: State, window: bool, a: Key, b: Key)
    requires Wf(cfg, st) && k in st.device.keys && k in st.entries && st.entries[k].Evictable() && Free(st, a, b)
    requires b in st.device.keys && b != k ==> GoesBefore(st, k, b) || (window && k.kind.Dense? && b.kind.Expert?)
    requires var next := Demote(cfg, st, k);
      Demoted(st, k, next) && OnlyLess(next, r, b) && (Free(next, a, b) ==> InTurn(next, r, window, a, b))
    ensures InTurn(st, r, window, a, b)
  {
    HostIsTracked(cfg, st);
    DeviceIsTracked(cfg, st);
    hide Wf, GoesBefore, Demote;
    var next := Demote(cfg, st, k);
    if a != k && b != k {
      DemoteInTurn(cfg, st, k, a, b);
      DemoteInTurn(cfg, st, k, b, a);
      if a in next.entries && b in next.entries { SameTurn(st, next, a, b); }
    }
  }

  /** Making room takes entries off the device, and on their account out of host memory, in turn: of two
      that could go, if one has left a tier and the other is still there, it goes before it. */
  lemma {:induction false} RoomInTurn(cfg: Config, st: State, bytes: nat, a: Key, b: Key)
    requires Wf(cfg, st) && Free(st, a, b)
    ensures InTurn(st, MakeRoom(cfg, st, bytes), false, a, b)
    decreases |st.device.keys|
  {
    hide Wf, GoesBefore, MakeRoom, Demote, OnlyLess, InTurn;
    var k := RoomStep(cfg, st, bytes, b);
    if k.None? {
      NoneLeft(st, a, b);
    } else {
      var next := Demote(cfg, st, k.value);
      if Free(next, a, b) { RoomInTurn(cfg, next, bytes, a, b); }
      RoomOnlyLess(cfg, next, bytes, b);
      TurnsTogether(cfg, st, k.value, MakeRoom(cfg, st, bytes), false, a, b);
    }
  }

  lemma NoneLeft(st: State, a: Key, b: Key)
    requires a in st.entries && b in st.entries
    ensures InTurn(st, st, false, a, b) && InTurn(st, st, true, a, b)
  {}

  lemma WindowStep(cfg: Config, st: State, b: Key) returns (k: Option<Key>)
    requires Wf(cfg, st)
    ensures k.None? ==> EnforceWindow(cfg, st) == st
    ensures k.Some? ==>
      && k.value in st.device.keys && k.value in st.entries && st.entries[k.value].Evictable() && k.value.kind.Dense?
      && Wf(cfg, Demote(cfg, st, k.value)) && Demoted(st, k.value, Demote(cfg, st, k.value))
      && st.device.keys <= st.entries.Keys && |Windowed(st)| > cfg.window
      && EnforceWindow(cfg, st) == EnforceWindow(cfg, Demote(cfg, st, k.value))
      && (b in st.device.keys && b in st.entries && st.entries[b].Evictable() && b != k.value ==>
            GoesBefore(st, k.value, b) || b.kind.Expert?)
  {
    DeviceIsTracked(cfg, st);
    hide Wf, Kept, Balance, GoesBefore, Demote, Demoted;
    if |Windowed(st)| <= cfg.window || Idle(st) == {} {
      k := None;
    } else {
      var first := First(st.entries, Idle(st));
      FirstOf(st.entries, Idle(st));
      DemoteWf(cfg, st, first);
      if b in Idle(st) { FirstGoesBefore(cfg, st, Idle(st), b); }
      k := Some(first);
    }
  }

  lemma WindowOnlyLess(cfg: Config, st: State, k: Key)
    requires Wf(cfg, st)
    ensures Wf(cfg, EnforceWindow(cfg, st)) && OnlyLess(st, EnforceWindow(cfg, st), k)
  {
    WindowOnlyLoses(cfg, st);
    HostIsTracked(cfg, EnforceWindow(cfg, st));
  }

  lemma {:induction false} WindowInTurn(cfg: Config, st: State, a: Key, b: Key)
    requires Wf(cfg, st) && Free(st, a, b)
    ensures InTurn(st, EnforceWindow(cfg, st), true, a, b)
    decreases |st.device.keys|
  {
    hide Wf, GoesBefore, EnforceWindow, Demote, OnlyLess, InTurn;
    var k := WindowStep(cfg, st, b);
    if k.None? {
      NoneLeft(st, a, b);
    } else {
      var next := Demote(cfg, st, k.value);
      if Free(next, a, b) { WindowInTurn(cfg, next, a, b); }
      WindowOnlyLess(cfg, next, b);
      TurnsTogether(cfg, st, k.value, EnforceWindow(cfg, st), true, a, b);
    }
  }

  lemma DemotedShrinks(st: State, k: Key, r: State)
    requires k in st.entries && k in st.device.keys && Demoted(st, k, r)
    ensures r.device.keys == st.device.keys - {k} && |r.device.keys| < |st.device.keys|
  {}

  // What is in host memory when room is made on the device stays there or leaves the cache.
  lemma {:induction false} RoomKeepsHosted(cfg: Config, st: State, bytes: nat, k: Key)
    requires Wf(cfg, st) && k in st.entries && st.entries[k].Evictable() && k in st.host.keys
    ensures var r := MakeRoom(cfg, st, bytes); k in r.entries ==> k in r.host.keys
    decreases |st.device.keys|
  {
    HostIsTracked(cfg, st);
    DeviceIsTracked(cfg, st);
    hide Wf, MakeRoom, Demote, GoesBefore, LeftHost, Demoted;
    var first := RoomStep(cfg, st, bytes, k);
    if first.Some? {
      var next := Demote(cfg, st, first.value);
      DemotedShrinks(st, first.value, next);
      DemoteInTurn(cfg, st, first.value, k, k);
      RoomOnlyLess(cfg, next, bytes, k);
      if k in next.entries { RoomKeepsHosted(cfg, next, bytes, k); }
    }
  }

  // How one of them stands halfway.
  predicate Midway(st: State, mid: State, r: State, k: Key)
    requires k in st.entries
  {
    && (k in mid.entries ==> mid.entries[k] == st.entries[k].(tier := mid.entries[k].tier))
    && (k in st.host.keys && k in mid.entries ==> k in mid.host.keys) && (k in mid.device.keys ==> k in mid.entries)
    && (k in r.device.keys ==> k in mid.device.keys) && (k in r.host.keys ==> k in mid.entries)
  }

  lemma TurnsCompose(st: State, mid: State, r: State, window: bool, a: Key, b: Key)
    requires Free(st, a, b) && Midway(st, mid, r, a) && Midway(st, mid, r, b)
    requires InTurn(st, mid, false, a, b) && (Free(mid, a, b) ==> InTurn(mid, r, window, a, b))
    ensures InTurn(st, r, window, a, b)
  {
    hide GoesBefore;
    if a in mid.entries && b in mid.entries { SameTurn(st, mid, a, b); }
  }

  predicate SameTiers(st: State, r: State) {
    && r.device.keys == st.device.keys && r.host.keys == st.host.keys && r.entries.Keys == st.entries.Keys
    && r.device.capacity == st.device.capacity
  }

  // Turns depend on the tiers before and after alone.
  lemma TurnsByShelf(st: State, r: State, t: State, window: bool, a: Key, b: Key)
    requires a in st.entries && b in st.entries && InTurn(st, r, window, a, b)
    requires SameTiers(r, t)
    ensures InTurn(st, t, window, a, b)
  {}

  lemma TouchedShelves(cfg: Config, st: State, k: Key)
    requires cfg.Valid()
    ensures SameTiers(st, Touch(cfg, st, k)) && SameTiers(st, Claim(Touch(cfg, st, k), k))
  {
    TouchKeeps(cfg, st, k);
    hide Touch;
  }

  lemma PromotedInTurn(cfg: Config, st: State, k: Key, a: Key, b: Key)
    requires Wf(cfg, st) && Free(st, a, b) && k in st.entries && st.entries[k].tier.Host?
    ensures InTurn(st, Promoted(cfg, st, k), false, a, b)
  {
    LiftHostedWf(cfg, st, k);
    HostIsTracked(cfg, st);
    DeviceIsTracked(cfg, st);
    hide Wf, MakeRoom, Balance, GoesBefore, LiftHosted, Loose, OnDevice, Kept, Victims, InTurn, OnlyLess;
    var lifted, bytes := LiftHosted(st, k), st.entries[k].bytes;
    HostedLifted(st, k, a, b);
    RoomOnlyLess(cfg, lifted, bytes, b);
    var room := MakeRoom(cfg, lifted, bytes);
    BackOnDevice(room, k, st.entries[k]);
    if a != k && b != k { RoomInTurn(cfg, lifted, bytes, a, b); }
    TurnsPutBack(st, k, lifted, room, Promoted(cfg, st, k), a, b);
  }

  lemma TurnsPutBack(st: State, k: Key, lifted: State, room: State, r: State, a: Key, b: Key)
    requires a in st.entries && b in st.entries && k in st.host.keys && k !in st.device.keys && OnlyLess(lifted, room, b)
    requires lifted.device == st.device && lifted.host.keys == st.host.keys - {k} && lifted.entries == st.entries - {k}
    requires r.device.keys == room.device.keys + {k} && r.host == room.host && r.entries.Keys == room.entries.Keys + {k}
    requires a != k && b != k ==> InTurn(lifted, room, false, a, b)
    ensures InTurn(st, r, false, a, b)
  {
    if a != k && b != k { SameTurn(st, lifted, a, b); }
    hide GoesBefore;
  }

  lemma HostedLifted(st: State, k: Key, a: Key, b: Key)
    requires k in st.entries && k in st.host.keys && k !in st.device.keys && Free(st, a, b)
    ensures var r := LiftHosted(st, k);
      && r.device == st.device && r.host.keys == st.host.keys - {k} && r.entries == st.entries - {k}
      && (a != k && b != k ==> Free(r, a, b) && GoesBefore(r, a, b) == GoesBefore(st, a, b))
  {}

  lemma BackOnDevice(st: State, k: Key, e: Entry)
    ensures var r := OnDevice(st, k, e);
      r.device.keys == st.device.keys + {k} && r.host == st.host && r.entries.Keys == st.entries.Keys + {k}
  {}

  lemma AdmitInTurn(cfg: Config, st: State, k: Key, a: Key, b: Key)
    requires Wf(cfg, st) && Free(st, a, b) && k !in st.entries
    ensures InTurn(st, Admit(cfg, st, k), k.kind.Dense?, a, b)
  {
    HostIsTracked(cfg, st);
    DeviceIsTracked(cfg, st);
    TickedWf(cfg, st, k);
    hide Wf, EnforceWindow, Balance, Kept, GoesBefore, InTurn, OnDevice;
    if st.device.capacity == 0 || cfg.size(k) > st.device.capacity {
      AddedInTurn(st, Admit(cfg, st, k), a, b);
    } else {
      var added := OnDevice(Ticked(st), k, NewEntry(cfg, Ticked(st), k));
      AddedOnDevice(st, k, NewEntry(cfg, Ticked(st), k));
      AddedInTurn(st, added, a, b);
      if k.kind.Dense? {
        WindowInTurn(cfg, added, a, b);
        TurnsFrom(st, added, EnforceWindow(cfg, added), a, b);
      }
    }
  }

  lemma AddedOnDevice(st: State, k: Key, e: Entry)
    requires k !in st.entries
    ensures var r := OnDevice(Ticked(st), k, e);
      && (forall x :: x in st.entries ==> x in r.entries && r.entries[x] == st.entries[x])
      && st.device.keys <= r.device.keys && r.host.keys == st.host.keys
  {}

  lemma AddedInTurn(st: State, r: State, a: Key, b: Key)
    requires a in st.entries && b in st.entries && a in r.entries
    requires st.device.keys <= r.device.keys && r.host.keys == st.host.keys
    ensures InTurn(st, r, false, a, b) && InTurn(st, r, true, a, b)
  {}

  lemma TurnsFrom(st: State, added: State, r: State, a: Key, b: Key)
    requires a in st.entries && b in st.entries && a in added.entries && b in added.entries
    requires added.entries[a] == st.entries[a] && added.entries[b] == st.entries[b]
    requires st.device.keys <= added.device.keys && added.host.keys == st.host.keys
    requires InTurn(added, r, true, a, b)
    ensures InTurn(st, r, true, a, b)
  {
    SameTurn(st, added, a, b);
    hide GoesBefore;
  }

  lemma FetchedInTurn(cfg: Config, st: State, k: Key, a: Key, b: Key)
    requires Wf(cfg, st) && Free(st, a, b) && k !in st.entries
    ensures InTurn(st, Fetched(cfg, st, k), k.kind.Dense?, a, b)
  {
    var read := Read(cfg, st, k);
    ReadWf(cfg, st, k);
    RoomKeepsAbsent(cfg, read, k, cfg.size(k));
    RoomOnlyLoses(cfg, read, cfg.size(k));
    hide Wf, MakeRoom, Admit, Balance, GoesBefore, Fetched;
    var room := MakeRoom(cfg, read, cfg.size(k));
    RoomInTurn(cfg, read, cfg.size(k), a, b);
    SameTurn(st, read, a, b);
    if Free(room, a, b) { AdmitInTurn(cfg, room, k, a, b); }
    forall x | x == a || x == b ensures Midway(st, room, Fetched(cfg, st, k), x) {
      FetchedMidway(cfg, st, k, x);
    }
    TurnsCompose(st, room, Fetched(cfg, st, k), k.kind.Dense?, a, b);
  }

  lemma FetchedMidway(cfg: Config, st: State, k: Key, x: Key)
    requires Wf(cfg, st) && x in st.entries && st.entries[x].Evictable() && k !in st.entries
    ensures Wf(cfg, Read(cfg, st, k))
    ensures Midway(st, MakeRoom(cfg, Read(cfg, st, k), cfg.size(k)), Fetched(cfg, st, k), x)
  {
    var read := Read(cfg, st, k);
    ReadWf(cfg, st, k);
    RoomKeepsAbsent(cfg, read, k, cfg.size(k));
    RoomOnlyLoses(cfg, read, cfg.size(k));
    if x in st.host.keys { RoomKeepsHosted(cfg, read, cfg.size(k), x); }
    hide Wf, MakeRoom, Balance, EnforceWindow;
    var room := MakeRoom(cfg, read, cfg.size(k));
    DeviceIsTracked(cfg, room);
    TickedWf(cfg, room, k);
    var added := OnDevice(Ticked(room), k, NewEntry(cfg, Ticked(room), k));
    WindowOnlyLoses(cfg, added);
    AdmitCounts(cfg, room, k, x);
    HostIsTracked(cfg, Admit(cfg, room, k));
  }

  /** Whatever the operation, of two entries nobody uses or pins and that share a tier, the one that leaves it
      while the other stays is the one to go first: an expert before a dense layer, the expert used less,
      then whichever was admitted earlier. Only a dense layer coming in may push out another one ahead of an
      expert. */
  lemma LeavesInTurn(cfg: Config, st: State, op: Op, a: Key, b: Key)
    requires Wf(cfg, st) && Free(st, a, b)
    ensures InTurn(st, Step(cfg, st, op), Misses(st, op) && op.key.kind.Dense?, a, b)
  {
    hide Wf, Balance, Kept, MakeRoom, Acquire, GoesBefore, InTurn;
    match op
    case AcquireOp(k) => AcquireInTurn(cfg, st, k, a, b);
    case ReleaseOp(k) => ReleaseInTurn(cfg, st, k, a, b);
    case PlanOp(plan) => NoneLeft(st, a, b); TurnsByShelf(st, st, ApplyPlan(st, plan), false, a, b);
    case ResizeOp(capacity) =>
      var resized := st.(device := st.device.(capacity := capacity));
      ResizedWf(cfg, st, capacity);
      RoomInTurn(cfg, resized, 0, a, b);
      SameTurn(st, resized, a, b);
      TurnsFromSame(st, resized, MakeRoom(cfg, resized, 0), a, b);
    case ClearOp(keepPinned) => ClearInTurn(cfg, st, keepPinned, a, b);
  }

  lemma TurnsFromSame(st: State, same: State, r: State, a: Key, b: Key)
    requires a in st.entries && b in st.entries && same.entries == st.entries
    requires same.device.keys == st.device.keys && same.host.keys == st.host.keys && InTurn(same, r, false, a, b)
    ensures InTurn(st, r, false, a, b)
  {}

  lemma ReleaseInTurn(cfg: Config, st: State, k: Key, a: Key, b: Key)
    requires Wf(cfg, st) && Free(st, a, b)
    ensures InTurn(st, Release(cfg, st, k), false, a, b)
  {
    HostIsTracked(cfg, st);
    hide Wf, GoesBefore;
  }

  lemma ClearInTurn(cfg: Config, st: State, keepPinned: bool, a: Key, b: Key)
    requires Wf(cfg, st) && Free(st, a, b)
    ensures InTurn(st, Clear(st, keepPinned), false, a, b)
  {
    DropAllWf(cfg, st, Doomed(st, keepPinned));
    var r := Clear(st, keepPinned);
    hide Wf, GoesBefore, DropAll, Balance, Clear;
    HostIsTracked(cfg, r);
    assert b !in r.entries;
  }

  lemma ClaimedShelves(st: State, k: Key)
    ensures SameTiers(st, Claim(st, k)) && SameTiers(st, st)
  {}

  // What is on each tier after an acquisition is what is there once it has been served.
  lemma HeldShelves(cfg: Config, st: State, k: Key)
    requires Wf(cfg, st) && k in st.entries && !st.entries[k].tier.Host?
    ensures SameTiers(st, Acquire(cfg, st, k).0)
  {
    AgingIsSet(cfg, st);
    hide Wf, Balance, Touch, Claim, SameTiers;
    ClaimedShelves(st, k);
    TouchedShelves(cfg, st, k);
  }

  lemma PromotedShelves(cfg: Config, st: State, k: Key)
    requires Wf(cfg, st) && k in st.entries && st.entries[k].tier.Host?
    ensures SameTiers(Promoted(cfg, st, k), Acquire(cfg, st, k).0)
  {
    AgingIsSet(cfg, st);
    hide Wf, Balance, Promoted, Touch, Claim, SameTiers;
    TouchedShelves(cfg, Promoted(cfg, st, k), k);
  }

  lemma FetchedShelves(cfg: Config, st: State, k: Key)
    requires Wf(cfg, st) && k !in st.entries
    ensures SameTiers(Fetched(cfg, st, k), Acquire(cfg, st, k).0)
  {
    AgingIsSet(cfg, st);
    hide Wf, Balance, Fetched, Touch, Claim, SameTiers;
    TouchedShelves(cfg, Fetched(cfg, st, k), k);
  }

  lemma AcquireInTurn(cfg: Config, st: State, k: Key, a: Key, b: Key)
    requires Wf(cfg, st) && Free(st, a, b)
    ensures InTurn(st, Acquire(cfg, st, k).0, k !in st.entries && k.kind.Dense?, a, b)
  {
    hide Wf, Acquire, Promoted, Fetched, InTurn;
    NoneLeft(st, a, b);
    if k !in st.entries {
      FetchedInTurn(cfg, st, k, a, b);
      FetchedShelves(cfg, st, k);
      TurnsByShelf(st, Fetched(cfg, st, k), Acquire(cfg, st, k).0, k.kind.Dense?, a, b);
    } else if st.entries[k].tier.Host? {
      PromotedInTurn(cfg, st, k, a, b);
      PromotedShelves(cfg, st, k);
      TurnsByShelf(st, Promoted(cfg, st, k), Acquire(cfg, st, k).0, false, a, b);
    } else {
      HeldShelves(cfg, st, k);
      TurnsByShelf(st, st, Acquire(cfg, st, k).0, false, a, b);
    }
  }

  // ---- no more than is needed --------------------------------------------------------------------------------

  // Something that has left the device, and without whose leaving there would not be room.
  ghost predicate WasNeeded(cfg: Config, st: State, r: State, bytes: nat) {
    exists k :: k in st.device.keys && k !in r.device.keys && r.device.bytes + cfg.size(k) + bytes > st.device.capacity
  }

  /** Making room stops as soon as there is room: if anything left the device, the room would be too little
      with the last of it still there. */
  lemma {:induction false} RoomTakesNoMore(cfg: Config, st: State, bytes: nat)
    requires Wf(cfg, st)
    ensures var r := MakeRoom(cfg, st, bytes); r == st || WasNeeded(cfg, st, r, bytes)
    decreases |st.device.keys|
  {
    hide Wf, MakeRoom, Demote, GoesBefore;
    var k := RoomStep(cfg, st, bytes, Key(0, Expert(0)));
    if k.Some? {
      SizeOfEntry(cfg, st, k.value);
      var next, r := Demote(cfg, st, k.value), MakeRoom(cfg, st, bytes);
      RoomTakesNoMore(cfg, next, bytes);
      RoomOnlyLess(cfg, next, bytes, k.value);
      if r != next {
        var j :| j in next.device.keys && j !in r.device.keys
          && r.device.bytes + cfg.size(j) + bytes > next.device.capacity;
        assert j in st.device.keys;
      }
    }
  }

  lemma SizeOfEntry(cfg: Config, st: State, k: Key)
    requires Wf(cfg, st) && k in st.entries
    ensures st.entries[k].bytes == cfg.size(k)
  {
    assert EntryWf(cfg, st, k);
  }

  /** Enforcing the window takes no layer off the device that the window has a place for. */
  lemma {:induction false} WindowTakesNoMore(cfg: Config, st: State)
    requires Wf(cfg, st)
    ensures var r := EnforceWindow(cfg, st);
      r.device.keys <= r.entries.Keys && (r == st || |Windowed(r)| >= cfg.window)
    decreases |st.device.keys|
  {
    DeviceIsTracked(cfg, st);
    hide Wf, EnforceWindow, Demote, GoesBefore, Demoted, Windowed, Idle, Kept, Balance;
    var k := WindowStep(cfg, st, Key(0, Expert(0)));
    if k.Some? {
      var next := Demote(cfg, st, k.value);
      DeviceIsTracked(cfg, next);
      WindowLosesOne(st, k.value, next);
      DemotedShrinks(st, k.value, next);
      WindowTakesNoMore(cfg, next);
    }
  }

  lemma WindowLosesOne(st: State, k: Key, r: State)
    requires st.device.keys <= st.entries.Keys && r.device.keys <= r.entries.Keys
    requires k in st.device.keys && k in st.entries && Demoted(st, k, r)
    ensures |Windowed(r)| >= |Windowed(st)| - 1
  {
    assert Windowed(r) == Windowed(st) - {k};
  }

  /** Clearing leaves what is in use, and what is pinned if that is to be kept, as it was, and nothing else. */
  lemma ClearLeavesExactly(cfg: Config, st: State, keepPinned: bool, k: Key)
    requires Wf(cfg, st)
    ensures var r := Clear(st, keepPinned);
      && (k in r.entries <==> k in st.entries && (st.entries[k].refs > 0 || (keepPinned && k in st.pinned)))
      && (k in r.entries ==> r.entries[k] == st.entries[k])
  {
    hide Wf, DropAll, Balance;
    DropAllWf(cfg, st, Doomed(st, keepPinned));
    if k in st.entries { PinnedIsFlag(cfg, st, k); }
  }

  lemma PinnedIsFlag(cfg: Config, st: State, k: Key)
    requires Wf(cfg, st) && k in st.entries
    ensures st.entries[k].pinned == (k in st.pinned)
  {
    assert EntryWf(cfg, st, k);
  }

  // ---- and no less ----------------------------------------------------------------------------------------------

  // The device holds what fits it, or all it holds beside `k` was in use or pinned.
  predicate RoomMade(st: State, r: State, k: Key) {
    || r.device.bytes <= r.device.capacity
    || forall j :: j in r.device.keys && j != k ==> j in st.entries && !st.entries[j].Evictable()
  }

  lemma RoomIsMade(cfg: Config, st: State, bytes: nat)
    requires Wf(cfg, st) && st.device.capacity > 0
    ensures var r := MakeRoom(cfg, st, bytes);
      || r.device.bytes + bytes <= r.device.capacity
      || forall j :: j in r.device.keys ==> j in st.entries && !st.entries[j].Evictable()
  {
    RoomOnlyLoses(cfg, st, bytes);
    var r := MakeRoom(cfg, st, bytes);
    DeviceIsTracked(cfg, r);
    if Victims(r) == {} {
      forall j | j in r.device.keys ensures j in st.entries && !st.entries[j].Evictable() { assert j !in Victims(r); }
    }
  }

  lemma PromotedFits(cfg: Config, st: State, k: Key)
    requires Wf(cfg, st) && st.device.capacity > 0 && k in st.entries && st.entries[k].tier.Host?
    ensures RoomMade(st, Promoted(cfg, st, k), k)
  {
    LiftHostedWf(cfg, st, k);
    hide Wf, MakeRoom, Balance;
    var lifted, bytes := LiftHosted(st, k), st.entries[k].bytes;
    RoomOnlyLoses(cfg, lifted, bytes);
    RoomIsMade(cfg, lifted, bytes);
  }

  lemma FetchedFits(cfg: Config, st: State, k: Key)
    requires Wf(cfg, st) && st.device.capacity > 0 && k !in st.entries
    ensures RoomMade(st, Fetched(cfg, st, k), k)
  {
    var read := Read(cfg, st, k);
    ReadWf(cfg, st, k);
    RoomKeepsAbsent(cfg, read, k, cfg.size(k));
    hide Wf, MakeRoom, Balance, Admit;
    RoomOnlyLoses(cfg, read, cfg.size(k));
    RoomIsMade(cfg, read, cfg.size(k));
    AdmitAddsOne(cfg, MakeRoom(cfg, read, cfg.size(k)), k);
  }

  lemma AdmitAddsOne(cfg: Config, st: State, k: Key)
    requires Wf(cfg, st) && k !in st.entries
    ensures var r := Admit(cfg, st, k);
      && r.device.keys <= st.device.keys + {k} && r.device.capacity == st.device.capacity
      && r.device.bytes <= st.device.bytes + cfg.size(k)
  {
    hide Wf, EnforceWindow, Balance, Kept, OnDevice, NewEntry, Loose;
    TickedWf(cfg, st, k);
    BackWithBytes(cfg, st, k);
    var added := OnDevice(Ticked(st), k, NewEntry(cfg, Ticked(st), k));
    WindowOnlyLoses(cfg, added);
    FewerBytes(cfg, added, EnforceWindow(cfg, added));
  }

  lemma BackWithBytes(cfg: Config, st: State, k: Key)
    ensures var r := OnDevice(Ticked(st), k, NewEntry(cfg, Ticked(st), k));
      && r.device.keys == st.device.keys + {k} && r.device.capacity == st.device.capacity
      && r.device.bytes == st.device.bytes + cfg.size(k)
  {}

  lemma FewerBytes(cfg: Config, st: State, r: State)
    requires Wf(cfg, st) && Wf(cfg, r) && r.device.keys <= st.device.keys
    ensures r.device.bytes <= st.device.bytes
  {
    SumSubset(cfg.size, r.device.keys, st.device.keys);
  }

  /** What comes onto the device has room made for it: afterwards the device holds no more than fits, or all else
      on it was in use or pinned. */
  lemma AcquireMakesRoom(cfg: Config, st: State, k: Key)
    requires Wf(cfg, st) && st.device.capacity > 0 && (k !in st.entries || st.entries[k].tier.Host?)
    ensures RoomMade(st, Acquire(cfg, st, k).0, k)
  {
    hide Wf, Acquire, Promoted, Fetched, RoomMade;
    var r := Acquire(cfg, st, k).0;
    if k in st.entries {
      PromotedFits(cfg, st, k);
      PromotedWf(cfg, st, k);
      PromotedShelves(cfg, st, k);
      SameRoom(cfg, st, Promoted(cfg, st, k), r, k);
    } else {
      FetchedFits(cfg, st, k);
      FetchedWf(cfg, st, k);
      FetchedShelves(cfg, st, k);
      SameRoom(cfg, st, Fetched(cfg, st, k), r, k);
    }
  }

  lemma SameRoom(cfg: Config, st: State, mid: State, r: State, k: Key)
    requires Wf(cfg, mid) && Wf(cfg, r) && r.device.keys == mid.device.keys && r.device.capacity == mid.device.capacity
    requires RoomMade(st, mid, k)
    ensures RoomMade(st, r, k)
  {
    FewerBytes(cfg, mid, r);
    FewerBytes(cfg, r, mid);
  }

  // ---- where a demoted entry goes ------------------------------------------------------------------------------

  ghost function HostStays(st: State): set<Key>
    requires st.host.keys <= st.entries.Keys
  {
    set k | k in st.host.keys && !st.entries[k].Evictable()
  }

  lemma {:induction false} HostFits(cfg: Config, st: State, bytes: nat)
    requires Wf(cfg, st) && st.host.keys <= st.entries.Keys
    ensures MakeHostRoom(cfg, st, bytes).host.bytes + bytes <= st.host.capacity
            <==> Sum(cfg.size, HostStays(st)) + bytes <= st.host.capacity
    decreases |st.host.keys|
  {
    HostIsTracked(cfg, st);
    HostTotal(cfg, st);
    hide Wf, Kept, Balance, HostOnly, First;
    if st.host.bytes + bytes <= st.host.capacity {
      SumSubset(cfg.size, HostStays(st), st.host.keys);
    } else if HostVictims(st) == {} {
      forall k | k in st.host.keys ensures k in HostStays(st) {
        assert k !in HostVictims(st);
      }
      assert HostStays(st) == st.host.keys;
    } else {
      var k := First(st.entries, HostVictims(st));
      FirstOf(st.entries, HostVictims(st));
      DropHostedWf(cfg, st, k);
      var next := DropHosted(st, k);
      HostIsTracked(cfg, next);
      assert HostStays(next) == HostStays(st);
      HostFits(cfg, next, bytes);
    }
  }

  lemma HostTotal(cfg: Config, st: State)
    requires Wf(cfg, st)
    ensures st.host.bytes == Sum(cfg.size, st.host.keys)
  {}

  /** What leaves the device goes to host memory exactly when there is some, its owner lets it, and it fits
      beside what is in use or pinned there; otherwise it leaves the cache. */
  lemma DemotesToHostExactly(cfg: Config, st: State, k: Key)
    requires Wf(cfg, st) && k in st.device.keys && k in st.entries && st.entries[k].Evictable()
    requires st.host.keys <= st.entries.Keys
    ensures var r := Demote(cfg, st, k);
      k in r.entries <==> && 0 < st.host.capacity && cfg.hosts(k)
                          && Sum(cfg.size, HostStays(st)) + cfg.size(k) <= st.host.capacity
    ensures var r := Demote(cfg, st, k); k in r.entries ==> r.entries[k] == st.entries[k].(tier := Host)
  {
    SizeOfEntry(cfg, st, k);
    LiftOffWf(cfg, st, k);
    var off := LiftOff(st, k);
    HostIsTracked(cfg, off);
    HostIsTracked(cfg, st);
    DeviceIsTracked(cfg, st);
    hide Wf, MakeHostRoom, Balance, Sum;
    HostFits(cfg, off, st.entries[k].bytes);
    HostRoomOnlyLoses(cfg, off, st.entries[k].bytes, k);
    assert HostStays(off) == HostStays(st);
  }

  // ---- least popular first --------------------------------------------------------------------------------

  /** Of two experts nobody uses or pins, on one tier, the one that leaves it while the other stays is worth no
      more by the acquisitions since each was admitted, and among equals was admitted earlier. */
  lemma PopularStays(cfg: Config, init: State, ops: seq<Op>, op: Op, a: Key, b: Key)
    requires cfg.Valid() && Wf(cfg, init) && Empty(init) && a.kind.Expert? && b.kind.Expert?
    requires Free(Run(cfg, init, ops), a, b)
    requires var st, r := Run(cfg, init, ops), Run(cfg, init, ops + [op]);
      LeftDevice(st, r, a, b) || LeftHost(st, r, a, b)
    ensures var i, j := Admitted(cfg, init, ops, a), Admitted(cfg, init, ops, b);
      var p, q := Popularity(cfg, init, ops, a, i, |ops|), Popularity(cfg, init, ops, b, j, |ops|);
      i < |ops| && j < |ops| && (p < q || (p == q && i < j))
  {
    hide Wf, Step, Popularity, Free, LeftDevice, LeftHost;
    assert (ops + [op])[..|ops + [op]| - 1] == ops;
    var st := Run(cfg, init, ops);
    TrackedIfFree(st, a, b);
    assert Run(cfg, init, ops + [op]) == Step(cfg, st, op);
    LeavesInTurn(cfg, st, op, a, b);
    CountIsPopularity(cfg, init, ops, a);
    CountIsPopularity(cfg, init, ops, b);
    NumberedByAdmission(cfg, init, ops, a, b);
  }

  lemma TrackedIfFree(st: State, a: Key, b: Key)
    requires Free(st, a, b)
    ensures a in st.entries && b in st.entries
  {}

  /** Of two such experts admitted since the last aging, the one acquired more often is not evicted while the
      other stays. */
  lemma MostUsedStays(cfg: Config, init: State, ops: seq<Op>, op: Op, a: Key, b: Key)
    requires cfg.Valid() && Wf(cfg, init) && Empty(init) && a.kind.Expert? && b.kind.Expert?
    requires Free(Run(cfg, init, ops), a, b)
    requires var i, j := Admitted(cfg, init, ops, a), Admitted(cfg, init, ops, b);
      && i < |ops| && j < |ops|
      && Agings(cfg, init, ops[..i]) == Agings(cfg, init, ops) == Agings(cfg, init, ops[..j])
      && UsesIn(cfg, init, ops, a, i, |ops|) > UsesIn(cfg, init, ops, b, j, |ops|)
    ensures var st, r := Run(cfg, init, ops), Run(cfg, init, ops + [op]);
      !LeftDevice(st, r, a, b) && !LeftHost(st, r, a, b)
  {
    hide Wf, Run, Popularity, UsesIn, Agings, LeftDevice, LeftHost, Free;
    TrackedIfFree(Run(cfg, init, ops), a, b);
    var i, j := Admitted(cfg, init, ops, a), Admitted(cfg, init, ops, b);
    var st, r := Run(cfg, init, ops), Run(cfg, init, ops + [op]);
    if LeftDevice(st, r, a, b) || LeftHost(st, r, a, b) {
      PopularStays(cfg, init, ops, op, a, b);
      PopularityCounts(cfg, init, ops, a, i, |ops|);
      PopularityCounts(cfg, init, ops, b, j, |ops|);
    }
  }
}
