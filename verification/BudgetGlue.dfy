// The published budget moved: a new plan is adopted, then the cache is resized, in that order.
module BudgetGlue {
  import opened Options
  import opened WeightCache
  import opened WeightCacheRuns
  import opened Placement

  function Floor(x: real): int {
    x.Floor
  }

  // The window keeps its share of the new capacity and the rest goes to pinning.
  function PinShare(capacity: nat, share: real): (b: nat)
    requires 0.0 <= share <= 1.0
    ensures b <= capacity
    ensures capacity as real * share - 1.0 < (capacity - b) as real <= capacity as real * share
  {
    assert 0.0 <= capacity as real * share;
    PinBudget(capacity, Floor(capacity as real * share))
  }

  function KeysOf(cs: seq<Candidate>): set<Key> {
    set i | 0 <= i < |cs| :: cs[i].key
  }

  function NewPlan(candidates: seq<Candidate>, capacity: nat, share: real): set<Key>
    requires 0.0 <= share <= 1.0
  {
    KeysOf(Fill(NOTHING, Rank(candidates), PinShare(capacity, share)).pinned)
  }

  // An estimated reading is tracked and not acted on.
  ghost function BudgetChanged(cfg: Config, st: State, candidates: seq<Candidate>, capacity: nat, share: real,
                               estimated: bool, pins: bool): State
    requires Wf(cfg, st) && 0.0 <= share <= 1.0
  {
    if estimated then st
    else
      var planned := if pins then ApplyPlan(st, NewPlan(candidates, capacity, share)) else st;
      ApplyPlanWf(cfg, st, NewPlan(candidates, capacity, share));
      Resize(cfg, planned, capacity)
  }

  /** An estimated reading changes nothing. Any other sets the capacity, and the pins to the plan if pinning is
      on; nothing is brought in, and what is in use stays as it is. */
  lemma BudgetTaken(cfg: Config, st: State, candidates: seq<Candidate>, capacity: nat, share: real, estimated: bool,
                    pins: bool)
    requires Wf(cfg, st) && 0.0 <= share <= 1.0
    ensures var r := BudgetChanged(cfg, st, candidates, capacity, share, estimated, pins);
      && (estimated ==> r == st)
      && (!estimated ==>
            && r.device.capacity == capacity && r.host.capacity == st.host.capacity
            && r.pinned == (if pins then NewPlan(candidates, capacity, share) else st.pinned)
            && (forall k :: k in r.entries ==> k in st.entries && r.entries[k].pinned == (k in r.pinned))
            && (forall k :: k in st.entries && st.entries[k].refs > 0 ==>
                  k in r.entries && r.entries[k] == st.entries[k].(pinned := r.entries[k].pinned))
            && (capacity > 0 && st.device.bytes <= capacity ==> r.entries.Keys == st.entries.Keys))
  {
    var plan := NewPlan(candidates, capacity, share);
    var planned := if pins then ApplyPlan(st, plan) else st;
    ApplyPlanWf(cfg, st, plan);
    ResizedWf(cfg, planned, capacity);
    var resized := planned.(device := planned.device.(capacity := capacity));
    hide Wf, Balance, NewPlan, Kept;
    RoomOnlyLoses(cfg, resized, 0);
    var r := MakeRoom(cfg, resized, 0);
    PinnedIsPlanned(cfg, r);
    KeptInUse(resized, r);
  }

  lemma PinnedIsPlanned(cfg: Config, st: State)
    requires Wf(cfg, st)
    ensures forall k :: k in st.entries ==> st.entries[k].pinned == (k in st.pinned)
  {
    forall k | k in st.entries ensures st.entries[k].pinned == (k in st.pinned) { assert EntryWf(cfg, st, k); }
  }

  lemma KeptInUse(st: State, r: State)
    requires Kept(st, r)
    ensures forall k :: k in st.entries && st.entries[k].refs > 0 ==> k in r.entries && r.entries[k] == st.entries[k]
  {}

  // ---- how far a resize gets ---------------------------------------------------------------------------

  predicate NoUsers(st: State) {
    forall k :: k in st.entries ==> st.entries[k].refs == 0
  }

  ghost function PinnedOnDevice(st: State): set<Key> {
    set k | k in st.device.keys && k in st.entries && st.entries[k].pinned
  }

  lemma OnlyPinsLeft(st: State)
    requires st.device.keys <= st.entries.Keys && Victims(st) == {} && NoUsers(st)
    ensures st.device.keys == PinnedOnDevice(st)
  {
    forall k | k in st.device.keys ensures k in PinnedOnDevice(st) { assert k !in Victims(st); }
  }

  lemma {:induction false} RoomEnds(cfg: Config, st: State, bytes: nat)
    requires Wf(cfg, st) && NoUsers(st) && st.device.capacity > 0
    ensures var r := MakeRoom(cfg, st, bytes);
      && PinnedOnDevice(r) == PinnedOnDevice(st) && r.device.capacity == st.device.capacity
      && (r.device.bytes + bytes <= r.device.capacity || r.device.keys == PinnedOnDevice(r))
    decreases |st.device.keys|
  {
    hide Demote, Wf, First, Kept, Balance;
    DeviceIsTracked(cfg, st);
    if st.device.bytes + bytes > st.device.capacity {
      if Victims(st) == {} {
        OnlyPinsLeft(st);
      } else {
        var k := First(st.entries, Victims(st));
        FirstOf(st.entries, Victims(st));
        DemoteWf(cfg, st, k);
        RoomEnds(cfg, Demote(cfg, st, k), bytes);
      }
    }
  }

  /** With nobody using the cache, a resize to a positive capacity gets there exactly when the entries
      pinned on the device fit in it. */
  lemma ResizeFitsExactly(cfg: Config, st: State, capacity: nat)
    requires Wf(cfg, st) && NoUsers(st) && capacity > 0
    ensures Resize(cfg, st, capacity).device.bytes <= capacity <==> Sum(cfg.size, PinnedOnDevice(st)) <= capacity
  {
    var resized := st.(device := st.device.(capacity := capacity));
    ResizedWf(cfg, st, capacity);
    RoomEnds(cfg, resized, 0);
    var r := MakeRoom(cfg, resized, 0);
    SumSubset(cfg.size, PinnedOnDevice(r), r.device.keys);
    assert PinnedOnDevice(resized) == PinnedOnDevice(st);
  }

  // ---- what a plan pins ---------------------------------------------------------------------------------

  // Candidates are told apart by their keys, and carry the cache's own sizes.
  predicate FromCache(cfg: Config, cs: seq<Candidate>) {
    && (forall i, j :: 0 <= i < |cs| && 0 <= j < |cs| && cs[i].key == cs[j].key ==> i == j)
    && forall i :: 0 <= i < |cs| ==> cs[i].bytes == cfg.size(cs[i].key)
  }

  lemma {:induction false} InsertFromCache(cfg: Config, c: Candidate, cs: seq<Candidate>)
    requires FromCache(cfg, cs) && c.bytes == cfg.size(c.key) && c.key !in KeysOf(cs)
    ensures FromCache(cfg, Insert(c, cs)) && KeysOf(Insert(c, cs)) == KeysOf(cs) + {c.key}
    decreases |cs|
  {
    hide Before;
    if cs != [] {
      var n := |cs| - 1;
      KeysSplit(cs[..n], cs[n]);
      assert cs == cs[..n] + [cs[n]];
      if Before(c, cs[n]) {
        LastIsNew(cfg, cs);
        InsertFromCache(cfg, c, cs[..n]);
        JoinFromCache(cfg, Insert(c, cs[..n]), cs[n]);
      } else {
        JoinFromCache(cfg, cs, c);
      }
    } else {
      assert KeysOf([c]) == {[c][0].key};
      assert KeysOf(cs) == {};
    }
  }

  lemma KeysSplit(cs: seq<Candidate>, c: Candidate)
    ensures KeysOf(cs + [c]) == KeysOf(cs) + {c.key}
  {
    var all := cs + [c];
    assert all[|cs|] == c;
    forall k | k in KeysOf(cs) ensures k in KeysOf(all) {
      var i :| 0 <= i < |cs| && cs[i].key == k;
      assert all[i].key == k;
    }
  }

  lemma LastIsNew(cfg: Config, cs: seq<Candidate>)
    requires FromCache(cfg, cs) && cs != []
    ensures FromCache(cfg, cs[..|cs| - 1]) && cs[|cs| - 1].key !in KeysOf(cs[..|cs| - 1])
  {}

  lemma JoinFromCache(cfg: Config, cs: seq<Candidate>, c: Candidate)
    requires FromCache(cfg, cs) && c.bytes == cfg.size(c.key) && c.key !in KeysOf(cs)
    ensures FromCache(cfg, cs + [c]) && KeysOf(cs + [c]) == KeysOf(cs) + {c.key}
  {
    KeysSplit(cs, c);
    assert forall i :: 0 <= i < |cs| ==> cs[i].key in KeysOf(cs);
  }

  lemma {:induction false} RankFromCache(cfg: Config, cs: seq<Candidate>)
    requires FromCache(cfg, cs)
    ensures FromCache(cfg, Rank(cs)) && KeysOf(Rank(cs)) == KeysOf(cs)
    decreases |cs|
  {
    hide Insert, FromCache;
    if cs != [] {
      var n := |cs| - 1;
      LastIsNew(cfg, cs);
      RankFromCache(cfg, cs[..n]);
      SizeOfLast(cfg, cs);
      InsertFromCache(cfg, cs[n], Rank(cs[..n]));
      KeysSplit(cs[..n], cs[n]);
      assert cs == cs[..n] + [cs[n]];
    }
  }

  lemma SizeOfLast(cfg: Config, cs: seq<Candidate>)
    requires FromCache(cfg, cs) && cs != []
    ensures cs[|cs| - 1].bytes == cfg.size(cs[|cs| - 1].key)
  {}

  lemma {:induction false} FillFromCache(cfg: Config, p: Plan, cs: seq<Candidate>, budget: nat)
    requires FromCache(cfg, p.pinned) && FromCache(cfg, cs) && KeysOf(p.pinned) !! KeysOf(cs)
    ensures FromCache(cfg, Fill(p, cs, budget).pinned)
    decreases |cs|
  {
    hide Fill, FromCache;
    FillUnfolds(p, cs, budget);
    if cs != [] {
      FirstIsNew(cfg, cs);
      var o := Offer(p, cs[0], budget);
      if o.pinned != p.pinned {
        JoinFromCache(cfg, p.pinned, cs[0]);
      }
      FillFromCache(cfg, o, cs[1..], budget);
    }
  }

  lemma FillUnfolds(p: Plan, cs: seq<Candidate>, budget: nat)
    ensures Fill(p, cs, budget) == if cs == [] then p else Fill(Offer(p, cs[0], budget), cs[1..], budget)
  {}

  lemma FirstIsNew(cfg: Config, cs: seq<Candidate>)
    requires FromCache(cfg, cs) && cs != []
    ensures FromCache(cfg, cs[1..]) && cs[0].key !in KeysOf(cs[1..]) && cs[0].bytes == cfg.size(cs[0].key)
    ensures KeysOf(cs) == {cs[0].key} + KeysOf(cs[1..])
  {
    var rest := cs[1..];
    forall k | k in KeysOf(cs) ensures k in {cs[0].key} + KeysOf(rest) {
      var i :| 0 <= i < |cs| && cs[i].key == k;
      assert i > 0 ==> rest[i - 1].key == k;
    }
    forall k | k in KeysOf(rest) ensures k in KeysOf(cs) && k != cs[0].key {
      var i :| 0 <= i < |rest| && rest[i].key == k;
      assert cs[i + 1].key == k;
    }
  }

  lemma {:induction false} BytesOfKeys(cfg: Config, cs: seq<Candidate>)
    requires FromCache(cfg, cs)
    ensures Sum(cfg.size, KeysOf(cs)) == TotalBytes(cs)
    decreases |cs|
  {
    hide Sum, FromCache;
    if cs == [] {
      NoKeys(cfg);
    } else {
      var n := |cs| - 1;
      LastIsNew(cfg, cs);
      BytesOfKeys(cfg, cs[..n]);
      SizeOfLast(cfg, cs);
      KeysSplit(cs[..n], cs[n]);
      assert cs == cs[..n] + [cs[n]];
      SumAdd(cfg.size, KeysOf(cs[..n]), cs[n].key);
    }
  }

  lemma NoKeys(cfg: Config)
    ensures Sum(cfg.size, KeysOf([])) == 0
  {
    assert KeysOf([]) == {};
  }

  // What the engine offers the planner: its layers, the always-on modules beside the experts, and the
  // experts with how often each was picked.
  function Candidates(cfg: Config, spell: Key -> string, layers: seq<nat>, shared: seq<Key>, routed: seq<(Key, real)>)
    : seq<Candidate>
  {
    seq(|layers|, i requires 0 <= i < |layers| =>
      var k := Key(layers[i], Dense("")); Candidate(k, cfg.size(k), 0, 1.0, spell(k)))
    + seq(|shared|, i requires 0 <= i < |shared| =>
      Candidate(shared[i], cfg.size(shared[i]), 1, 1.0, spell(shared[i])))
    + seq(|routed|, i requires 0 <= i < |routed| =>
      Candidate(routed[i].0, cfg.size(routed[i].0), 2, routed[i].1, spell(routed[i].0)))
  }

  // Each layer is streamed once, and each module or expert registered under one key.
  predicate Registered(layers: seq<nat>, shared: seq<Key>, routed: seq<(Key, real)>) {
    && (forall i, j :: 0 <= i < j < |layers| ==> layers[i] != layers[j])
    && (forall i, j :: 0 <= i < j < |shared| ==> shared[i] != shared[j])
    && (forall i, j :: 0 <= i < j < |routed| ==> routed[i].0 != routed[j].0)
    && (forall i :: 0 <= i < |shared| ==> shared[i].kind.Dense? && shared[i].kind.unit != "")
    && forall i :: 0 <= i < |routed| ==> routed[i].0.kind.Expert?
  }

  /** They are told apart by their keys, and carry the sizes the cache keeps its books in. */
  lemma CandidatesAreCached(cfg: Config, spell: Key -> string, layers: seq<nat>, shared: seq<Key>, routed: seq<(Key, real)>)
    requires Registered(layers, shared, routed)
    ensures FromCache(cfg, Candidates(cfg, spell, layers, shared, routed))
  {
    var cs := Candidates(cfg, spell, layers, shared, routed);
    var n, m := |layers|, |layers| + |shared|;
    forall i | 0 <= i < |cs|
      ensures cs[i].bytes == cfg.size(cs[i].key)
        && cs[i].key == if i < n then Key(layers[i], Dense("")) else if i < m then shared[i - n] else routed[i - m].0
    {}
  }

  // A whole layer goes ahead of an always-on module, and that ahead of an expert.
  function ClassOf(k: Key): nat {
    if k.kind.Expert? then 2 else if k.kind.unit == "" then 0 else 1
  }

  /** Layers are offered ahead of modules and modules ahead of experts, so the plan is spent in that order; a layer
      or a module is worth one access, an expert as many as it was picked. */
  lemma LayersFirst(cfg: Config, spell: Key -> string, layers: seq<nat>, shared: seq<Key>, routed: seq<(Key, real)>,
                    i: nat, j: nat)
    requires Registered(layers, shared, routed) && i < j < |layers| + |shared| + |routed|
    ensures var cs := Candidates(cfg, spell, layers, shared, routed);
      && |Rank(cs)| == |cs| == |layers| + |shared| + |routed|
      && ClassOf(Rank(cs)[i].key) <= ClassOf(Rank(cs)[j].key)
      && forall c :: c in multiset(Rank(cs)) ==>
           if c.key.kind.Expert? then (c.key, c.accesses) in routed else c.accesses == 1.0
  {
    hide Before, Rank, Candidates, Registered, ClassOf;
    var cs := Candidates(cfg, spell, layers, shared, routed);
    OfferedAs(cfg, spell, layers, shared, routed);
    RankRanks(cs);
    RankOrder(cs, i, j);
    forall c | c in multiset(Rank(cs)) ensures OfferedWell(c, routed) {
      assert c in cs;
    }
    assert Rank(cs)[i] in multiset(Rank(cs)) && Rank(cs)[j] in multiset(Rank(cs));
  }

  predicate OfferedWell(c: Candidate, routed: seq<(Key, real)>) {
    c.priority == ClassOf(c.key) && if c.key.kind.Expert? then (c.key, c.accesses) in routed else c.accesses == 1.0
  }

  lemma OfferedAs(cfg: Config, spell: Key -> string, layers: seq<nat>, shared: seq<Key>, routed: seq<(Key, real)>)
    requires Registered(layers, shared, routed)
    ensures var cs := Candidates(cfg, spell, layers, shared, routed);
      |cs| == |layers| + |shared| + |routed| && forall c :: c in cs ==> OfferedWell(c, routed)
  {
    var cs := Candidates(cfg, spell, layers, shared, routed);
    var n, m := |layers|, |layers| + |shared|;
    forall x | 0 <= x < |cs| ensures OfferedWell(cs[x], routed) {
      if x < n {
        assert cs[x].key == Key(layers[x], Dense("")) && cs[x].priority == 0 && cs[x].accesses == 1.0;
      } else if x < m {
        assert cs[x].key == shared[x - n] && cs[x].priority == 1 && cs[x].accesses == 1.0;
      } else {
        assert cs[x].key == routed[x - m].0 && cs[x].priority == 2 && routed[x - m] == (cs[x].key, cs[x].accesses);
      }
    }
  }

  /** A plan made from the cache's own candidates pins distinct keys whose sizes add up to no more than
      what the window leaves of the capacity. */
  lemma PlanFits(cfg: Config, candidates: seq<Candidate>, capacity: nat, share: real)
    requires FromCache(cfg, candidates) && 0.0 <= share <= 1.0
    ensures var pinned := Fill(NOTHING, Rank(candidates), PinShare(capacity, share)).pinned;
      FromCache(cfg, pinned) && TotalBytes(pinned) == Sum(cfg.size, KeysOf(pinned))
    ensures Sum(cfg.size, NewPlan(candidates, capacity, share)) <= PinShare(capacity, share) <= capacity
  {
    hide Fill, Rank, FromCache;
    var budget := PinShare(capacity, share);
    RankFromCache(cfg, candidates);
    NothingPinned(cfg);
    FillFromCache(cfg, NOTHING, Rank(candidates), budget);
    FillInBudget(NOTHING, Rank(candidates), budget);
    BytesOfKeys(cfg, Fill(NOTHING, Rank(candidates), budget).pinned);
  }

  lemma NothingPinned(cfg: Config)
    ensures FromCache(cfg, NOTHING.pinned) && KeysOf(NOTHING.pinned) == {}
  {}

  // ---- the order matters -------------------------------------------------------------------------------------

  lemma PlannedPins(cfg: Config, st: State, plan: set<Key>)
    requires Wf(cfg, st)
    ensures PinnedOnDevice(ApplyPlan(st, plan)) <= plan
  {
    ApplyPlanWf(cfg, st, plan);
    var r := ApplyPlan(st, plan);
    forall k | k in PinnedOnDevice(r) ensures k in plan { assert EntryWf(cfg, r, k); }
  }

  /** Adopting the new plan and then resizing leaves the device within any positive capacity, whatever the
      cache held before. */
  lemma BudgetIsMet(cfg: Config, st: State, candidates: seq<Candidate>, capacity: nat, share: real)
    requires Wf(cfg, st) && NoUsers(st) && capacity > 0 && FromCache(cfg, candidates) && 0.0 <= share <= 1.0
    ensures BudgetChanged(cfg, st, candidates, capacity, share, false, true).device.bytes <= capacity
  {
    hide Wf, Resize, FromCache, NewPlan;
    var plan := NewPlan(candidates, capacity, share);
    ApplyPlanWf(cfg, st, plan);
    PlannedPins(cfg, st, plan);
    PlanFits(cfg, candidates, capacity, share);
    SumSubset(cfg.size, PinnedOnDevice(ApplyPlan(st, plan)), plan);
    ResizeFitsExactly(cfg, ApplyPlan(st, plan), capacity);
  }

  // The other way round.
  ghost function ResizedFirst(cfg: Config, st: State, plan: set<Key>, capacity: nat): State
    requires Wf(cfg, st)
  {
    ApplyPlan(Resize(cfg, st, capacity), plan)
  }

  /** Resizing first gets there exactly when what the old plan pinned on the device happens to fit. */
  lemma ReverseOrderExactly(cfg: Config, st: State, plan: set<Key>, capacity: nat)
    requires Wf(cfg, st) && NoUsers(st) && capacity > 0
    ensures ResizedFirst(cfg, st, plan, capacity).device.bytes <= capacity
      <==> Sum(cfg.size, PinnedOnDevice(st)) <= capacity
  {
    hide Wf, Resize;
    ResizeFitsExactly(cfg, st, capacity);
  }

  // A single pinned entry on the device.
  function OnePin(cfg: Config, k: Key, e: Entry): State {
    State(map[k := e], Shelf({k}, cfg.size(k), cfg.size(k)), Shelf({}, 0, 0), {k}, 1, 0, multiset{cfg.fetch(k)},
          Gone(multiset{}, multiset{}))
  }

  /** So a single pinned layer larger than the new capacity is left behind by it, though nothing needs it
      any more. */
  lemma ReverseOrderOverruns(cfg: Config, capacity: nat, k: Key, e: Entry)
    requires cfg.Valid() && 0 < capacity < cfg.size(k)
    requires e == Entry(cfg.size(k), Device, cfg.fetch(k), 0, true, 0.0, 1)
    ensures var st := OnePin(cfg, k, e);
      && Wf(cfg, st) && NoUsers(st)
      && ResizedFirst(cfg, st, {}, capacity).device.bytes > capacity
      && (FromCache(cfg, []) && BudgetChanged(cfg, st, [], capacity, 1.0, false, true).device.bytes <= capacity)
  {
    var st := OnePin(cfg, k, e);
    SumAdd(cfg.size, {}, k);
    assert {} + {k} == {k};
    assert Wf(cfg, st);
    assert PinnedOnDevice(st) == {k};
    hide Resize, Wf;
    ReverseOrderExactly(cfg, st, {}, capacity);
    BudgetIsMet(cfg, st, [], capacity, 1.0);
  }

  /** And at capacity zero nothing is evicted at all. */
  lemma ZeroKeepsEverything(cfg: Config, st: State)
    requires Wf(cfg, st)
    ensures Resize(cfg, st, 0) == st.(device := st.device.(capacity := 0))
  {}
}
