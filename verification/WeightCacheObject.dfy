// The tiered cache as an object: entries, byte counters and tiers updated in place.
module WeightCacheObject {
  import opened Options
  import opened WeightCache
  import opened WeightCacheRuns

  // The order things are dropped in does not show.
  lemma {:induction false} DropAny(st: State, doomed: set<Key>, k: Key)
    requires doomed <= st.entries.Keys && k in doomed
    ensures DropAll(st, doomed) == DropAll(Dropped(st, k), doomed - {k})
    decreases |doomed|
  {
    var j :| j in doomed && DropAll(st, doomed) == DropAll(Dropped(st, j), doomed - {j});
    if j != k {
      DropAny(Dropped(st, j), doomed - {j}, k);
      DropAny(Dropped(st, k), doomed - {k}, j);
      DropsCommute(st, j, k);
      assert doomed - {j} - {k} == doomed - {k} - {j};
    }
  }

  lemma DropsCommute(st: State, j: Key, k: Key)
    requires j in st.entries && k in st.entries && j != k
    ensures Dropped(Dropped(st, j), k) == Dropped(Dropped(st, k), j)
  {
    var a, b := Dropped(Dropped(st, j), k), Dropped(Dropped(st, k), j);
    assert st.entries - {j} - {k} == st.entries - {k} - {j};
    assert st.device.keys - {j} - {k} == st.device.keys - {k} - {j};
    assert st.host.keys - {j} - {k} == st.host.keys - {k} - {j};
    assert a.discarded == b.discarded;
  }

  class TieredWeightCache {
    const cfg: Config
    var entries: map<Key, Entry>
    var device: Shelf
    var host: Shelf
    var pinned: set<Key>
    var clock: nat
    var accesses: nat
    var fetched: multiset<Payload>
    var discarded: Gone

    function St(): State
      reads this
    {
      State(entries, device, host, pinned, clock, accesses, fetched, discarded)
    }

    constructor (cfg: Config, deviceBytes: nat, hostBytes: nat, pinned: set<Key>)
      requires cfg.Valid()
      ensures this.cfg == cfg && St() == Start(deviceBytes, hostBytes, pinned) && Wf(cfg, St())
    {
      this.cfg := cfg;
      entries, device, host, this.pinned := map[], Shelf({}, 0, deviceBytes), Shelf({}, 0, hostBytes), pinned;
      clock, accesses, fetched, discarded := 0, 0, multiset{}, Gone(multiset{}, multiset{});
    }

    // The candidate that is worth least, by a scan.
    method PickVictim(s: set<Key>) returns (k: Key)
      requires s != {} && s <= entries.Keys && Ordered(entries)
      ensures k in s && k == First(entries, s)
    {
      k :| k in s;
      var rest := s - {k};
      while rest != {}
        invariant rest <= s && k in s - rest && Leads(entries, s - rest, k)
        decreases |rest|
      {
        var j :| j in rest;
        var seen := s - rest;
        if Sooner(entries, j, k) {
          forall i | i in seen ensures Sooner(entries, j, i) {
            assert i == k || Sooner(entries, k, i);
          }
          k := j;
        }
        rest := rest - {j};
        assert s - rest == seen + {j};
      }
      assert s - rest == s;
    }

    // Out of host memory, its payload cleared before the owner hears of it.
    method DropHost(k: Key)
      requires k in entries
      modifies this`entries, this`host, this`discarded
      ensures St() == DropHosted(old(St()), k)
    {
      discarded := discarded.(cleared := discarded.cleared + multiset{entries[k].payload});
      host, entries := Off(host, k, entries[k].bytes), entries - {k};
    }

    method MakeHostRoom(bytes: nat)
      requires Wf(cfg, St())
      modifies this`entries, this`host, this`discarded
      ensures St() == WeightCache.MakeHostRoom(cfg, old(St()), bytes) && Wf(cfg, St())
    {
      hide Wf, Ordered, DropHosted, Balance, Kept, HostOnly;
      ghost var goal := WeightCache.MakeHostRoom(cfg, St(), bytes);
      while host.bytes + bytes > host.capacity
        invariant Wf(cfg, St()) && WeightCache.MakeHostRoom(cfg, St(), bytes) == goal
        decreases |host.keys|
      {
        HostIsTracked(cfg, St());
        var victims := set k | k in host.keys && entries[k].Evictable();
        if victims == {} {
          return;
        }
        var k := PickVictim(victims);
        DropHostedWf(cfg, St(), k);
        HostShrinks(St(), k);
        DropHost(k);
      }
    }

    // Device to host if the host will take it, otherwise out of the cache entirely.
    method Demote(k: Key)
      requires Wf(cfg, St()) && k in device.keys && k in entries && entries[k].Evictable()
      modifies this`entries, this`device, this`host, this`discarded
      ensures St() == WeightCache.Demote(cfg, old(St()), k) && Wf(cfg, St())
    {
      hide Wf, WeightCache.MakeHostRoom;
      DemoteWf(cfg, St(), k);
      LiftOffWf(cfg, St(), k);
      var e := entries[k];
      device, entries := Off(device, k, e.bytes), entries - {k};
      if host.capacity > 0 {
        MakeHostRoom(e.bytes);
        if host.bytes + e.bytes <= host.capacity && cfg.hosts(k) {
          entries, host := entries[k := e.(tier := Host)], On(host, k, e.bytes);
          return;
        }
      }
      discarded := discarded.(back := discarded.back + multiset{e.payload});
    }

    method MakeRoom(bytes: nat)
      requires Wf(cfg, St())
      modifies this`entries, this`device, this`host, this`discarded
      ensures St() == WeightCache.MakeRoom(cfg, old(St()), bytes) && Wf(cfg, St())
    {
      hide Wf, WeightCache.Demote, Ordered;
      ghost var goal := WeightCache.MakeRoom(cfg, St(), bytes);
      if device.capacity == 0 {
        return;
      }
      while device.bytes + bytes > device.capacity
        invariant Wf(cfg, St()) && WeightCache.MakeRoom(cfg, St(), bytes) == goal && device.capacity > 0
        decreases |device.keys|
      {
        DeviceIsTracked(cfg, St());
        var victims := set k | k in device.keys && entries[k].Evictable();
        if victims == {} {
          return;
        }
        var k := PickVictim(victims);
        DemoteWf(cfg, St(), k);
        Demote(k);
      }
    }

    method EnforceWindow()
      requires Wf(cfg, St())
      modifies this`entries, this`device, this`host, this`discarded
      ensures St() == WeightCache.EnforceWindow(cfg, old(St())) && Wf(cfg, St())
    {
      hide Wf, WeightCache.Demote, Ordered;
      ghost var goal := WeightCache.EnforceWindow(cfg, St());
      while true
        invariant Wf(cfg, St()) && WeightCache.EnforceWindow(cfg, St()) == goal
        decreases |device.keys|
      {
        DeviceIsTracked(cfg, St());
        var resident := set k | k in device.keys && k.kind.Dense? && !entries[k].pinned;
        if |resident| <= cfg.window {
          return;
        }
        var evictable := set k | k in resident && entries[k].refs == 0;
        if evictable == {} {
          return;
        }
        var k := PickVictim(evictable);
        DemoteWf(cfg, St(), k);
        Demote(k);
      }
    }

    /** A key's payload, from the fastest tier that has it, with one more user. */
    method Acquire(k: Key) returns (payload: Option<Payload>)
      requires Wf(cfg, St())
      modifies this
      ensures (St(), payload) == WeightCache.Acquire(cfg, old(St()), k) && Wf(cfg, St())
    {
      hide Wf, WeightCache.MakeRoom, WeightCache.EnforceWindow, WeightCache.Touch, WeightCache.Claim, WeightCache.Admit,
        Balance, Kept, Loose, Ordered;
      AgingIsSet(cfg, St());
      ghost var before := St();
      ghost var spec := WeightCache.Acquire(cfg, before, k);
      ClaimWf(cfg, before, k);
      TouchKeeps(cfg, before, k);
      if k in entries && entries[k].tier.Device? {
        payload := Some(entries[k].payload);
        Touch(k);
        Claim(k);
      } else if k in entries && entries[k].tier.Transient? {
        payload := Some(entries[k].payload);
        Claim(k);
      } else if k in entries {
        var e := entries[k];
        payload := Some(e.payload);
        LiftHostedWf(cfg, before, k);
        PromotedWf(cfg, before, k);
        host, entries := Off(host, k, e.bytes), entries - {k};
        MakeRoom(e.bytes);
        entries, device := entries[k := e.(tier := Device)], On(device, k, e.bytes);
        Touch(k);
        Claim(k);
      } else {
        ReadWf(cfg, before, k);
        FetchedWf(cfg, before, k);
        RoomKeepsAbsent(cfg, Read(cfg, before, k), k, cfg.size(k));
        fetched := fetched + multiset{cfg.fetch(k)};
        MakeRoom(cfg.size(k));
        Admit(k);
        TouchKeeps(cfg, St(), k);
        Touch(k);
        if k in entries {
          payload := Some(entries[k].payload);
          if !entries[k].tier.Transient? {
            Claim(k);
          }
        } else {
          payload := None;
        }
      }
      assert (St(), payload) == spec;
    }

    method Admit(k: Key)
      requires Wf(cfg, St()) && k !in entries
      modifies this
      ensures St() == WeightCache.Admit(cfg, old(St()), k) && Wf(cfg, St())
    {
      hide Wf, WeightCache.EnforceWindow, Balance, Kept, Ordered;
      TickedWf(cfg, St(), k);
      clock := clock + 1;
      var e := NewEntry(cfg, St(), k);
      if device.capacity == 0 || e.bytes > device.capacity {
        entries := entries[k := e.(tier := Transient, refs := 1)];
        return;
      }
      entries, device := entries[k := e.(tier := Device)], On(device, k, e.bytes);
      if k.kind.Dense? {
        EnforceWindow();
      }
    }

    method Touch(k: Key)
      requires cfg.Valid()
      modifies this`entries, this`accesses
      ensures St() == WeightCache.Touch(cfg, old(St()), k)
    {
      if k.kind.Dense? || k !in entries {
        return;
      }
      entries := entries[k := entries[k].(uses := entries[k].uses + 1.0)];
      accesses := accesses + 1;
      if accesses % cfg.aging == 0 {
        entries := Aged(entries);
      }
    }

    method Claim(k: Key)
      modifies this`entries
      ensures St() == WeightCache.Claim(old(St()), k)
    {
      if k in entries {
        entries := entries[k := entries[k].(refs := entries[k].refs + 1)];
      }
    }

    /** Give up one claim; what no tier holds goes back to its owner with the last one. */
    method Release(k: Key)
      requires Wf(cfg, St())
      modifies this`entries, this`discarded
      ensures St() == WeightCacheRuns.Release(cfg, old(St()), k) && Wf(cfg, St())
    {
      hide Wf;
      ReleaseWf(cfg, St(), k);
      if k !in entries {
        return;
      }
      var e := entries[k];
      if e.refs > 0 {
        e := e.(refs := e.refs - 1);
      }
      entries := entries[k := e];
      if !e.tier.Transient? || e.refs > 0 {
        return;
      }
      entries := entries - {k};
      discarded := discarded.(back := discarded.back + multiset{e.payload});
      assert entries == old(entries) - {k};
    }

    method ApplyPlan(plan: set<Key>)
      requires Wf(cfg, St())
      modifies this`entries, this`pinned
      ensures St() == WeightCacheRuns.ApplyPlan(old(St()), plan) && Wf(cfg, St())
    {
      hide Wf, EntryWf;
      ApplyPlanWf(cfg, St(), plan);
      var released := pinned - plan;
      entries := map k | k in entries :: if k in released then entries[k].(pinned := false) else entries[k];
      entries := map k | k in entries :: if k in plan then entries[k].(pinned := true) else entries[k];
      pinned := plan;
    }

    method Resize(capacity: nat)
      requires Wf(cfg, St())
      modifies this
      ensures St() == WeightCacheRuns.Resize(cfg, old(St()), capacity) && Wf(cfg, St())
    {
      ResizedWf(cfg, St(), capacity);
      hide Wf;
      device := device.(capacity := capacity);
      MakeRoom(0);
    }

    method Drop(k: Key)
      requires k in entries
      modifies this`entries, this`device, this`host, this`discarded
      ensures St() == Dropped(old(St()), k)
    {
      var e := entries[k];
      if k in device.keys {
        device := Off(device, k, e.bytes);
      }
      if k in host.keys {
        host := Off(host, k, e.bytes);
      }
      entries, discarded := entries - {k}, discarded.(back := discarded.back + multiset{e.payload});
    }

    method Clear(keepPinned: bool)
      requires Wf(cfg, St())
      modifies this
      ensures St() == WeightCacheRuns.Clear(old(St()), keepPinned) && Wf(cfg, St())
    {
      hide Wf, Dropped, Balance;
      var doomed := set k | k in entries && !(entries[k].refs > 0 || (keepPinned && entries[k].pinned));
      assert doomed == Doomed(St(), keepPinned);
      ghost var goal := DropAll(St(), doomed);
      while doomed != {}
        invariant doomed <= entries.Keys && Wf(cfg, St()) && DropAll(St(), doomed) == goal
        decreases |doomed|
      {
        var k :| k in doomed;
        DropAny(St(), doomed, k);
        DroppedWf(cfg, St(), k);
        Drop(k);
        doomed := doomed - {k};
      }
    }
  }

  lemma HostShrinks(st: State, k: Key)
    requires k in st.entries && k in st.host.keys
    ensures DropHosted(st, k).host.keys == st.host.keys - {k} && |DropHosted(st, k).host.keys| < |st.host.keys|
  {}

  lemma HostIsTracked(cfg: Config, st: State)
    requires Wf(cfg, st)
    ensures st.host.keys <= st.entries.Keys && Ordered(st.entries)
  {}
}
