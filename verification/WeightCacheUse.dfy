// What weights are valued by: how often an expert was used, halved as uses age, and how long ago an entry was
// admitted, both read off the operations alone.
module WeightCacheUse {
  import opened Options
  import Arithmetic
  import opened WeightCache
  import opened WeightCacheRuns

  // ---- one operation ----------------------------------------------------------------------------------

  // An acquisition that counts: of an expert, served by a tier or from storage and not by a claim still open.
  predicate Counts(st: State, op: Op) {
    op.AcquireOp? && op.key.kind.Expert? && !(op.key in st.entries && st.entries[op.key].tier.Transient?)
  }

  predicate Misses(st: State, op: Op) {
    op.AcquireOp? && op.key !in st.entries
  }

  // The uses an expert stood at, if it was tracked at all.
  function UsesOf(st: State, k: Key): real {
    if k in st.entries then st.entries[k].uses else 0.0
  }

  // One more use of `used`, and all halved when it is the last of an interval.
  predicate CountedIn(cfg: Config, st: State, used: Key, r: State, k: Key)
    requires cfg.Valid() && k in r.entries
  {
    var now := UsesOf(st, k) + if used == k then 1.0 else 0.0;
    r.entries[k].uses == if (st.accesses + 1) % cfg.aging == 0 then now * 0.5 else now
  }

  lemma TouchCounts(cfg: Config, st: State, used: Key, k: Key)
    requires cfg.Valid() && used in st.entries && used.kind.Expert? && k in st.entries && k.kind.Expert?
    ensures var r := Touch(cfg, st, used);
      r.accesses == st.accesses + 1 && k in r.entries && CountedIn(cfg, st, used, r, k)
  {}

  lemma TouchPassesDense(cfg: Config, st: State, used: Key)
    requires cfg.Valid() && used.kind.Dense?
    ensures Touch(cfg, st, used) == st
  {}

  // What admission does to the counts: the newcomer starts at none, under the next number.
  lemma AdmitCounts(cfg: Config, st: State, k: Key, j: Key)
    requires Wf(cfg, st) && k !in st.entries
    ensures var r := Admit(cfg, st, k);
      && r.clock == st.clock + 1 && r.accesses == st.accesses
      && (k.kind.Expert? ==> k in r.entries)
      && (k in r.entries ==> r.entries[k].uses == 0.0 && r.entries[k].inserted == r.clock)
      && (j != k && j in r.entries ==> j in st.entries && r.entries[j] == st.entries[j].(tier := r.entries[j].tier))
  {
    hide Wf, EnforceWindow, Balance, Kept;
    TickedWf(cfg, st, k);
    WindowOnlyLoses(cfg, OnDevice(Ticked(st), k, NewEntry(cfg, Ticked(st), k)));
  }

  // Everything before the use is counted: `mid` holds what `st` held, and `used` if it came in.
  predicate Brought(st: State, used: Key, mid: State) {
    && mid.accesses == st.accesses && (used.kind.Expert? ==> used in mid.entries)
    && mid.clock == st.clock + (if used in st.entries then 0 else 1)
    && (forall j :: j in mid.entries ==> j in st.entries || j == used)
    && (forall j :: j in mid.entries && j in st.entries ==>
          mid.entries[j].uses == st.entries[j].uses && mid.entries[j].inserted == st.entries[j].inserted)
    && (used !in st.entries && used in mid.entries ==>
          mid.entries[used].uses == 0.0 && mid.entries[used].inserted == mid.clock)
  }

  lemma PromotedBrings(cfg: Config, st: State, k: Key)
    requires Wf(cfg, st) && k in st.entries && st.entries[k].tier.Host?
    ensures Brought(st, k, Promoted(cfg, st, k))
  {
    hide Wf, MakeRoom, Balance;
    LiftHostedWf(cfg, st, k);
    RoomOnlyLoses(cfg, LiftHosted(st, k), st.entries[k].bytes);
  }

  lemma FetchedBrings(cfg: Config, st: State, k: Key)
    requires Wf(cfg, st) && k !in st.entries
    ensures Brought(st, k, Fetched(cfg, st, k))
  {
    hide Wf, MakeRoom, Admit, Balance;
    ReadWf(cfg, st, k);
    RoomKeepsAbsent(cfg, Read(cfg, st, k), k, cfg.size(k));
    RoomOnlyLoses(cfg, Read(cfg, st, k), cfg.size(k));
    var room := MakeRoom(cfg, Read(cfg, st, k), cfg.size(k));
    AdmitCounts(cfg, room, k, k);
    forall j | j in Admit(cfg, room, k).entries && j != k
      ensures var r := Admit(cfg, room, k); j in room.entries && r.entries[j] == room.entries[j].(tier := r.entries[j].tier)
    {
      AdmitCounts(cfg, room, k, j);
    }
  }

  // Whether or not the use is claimed, counts are those after the use.
  lemma ClaimCounts(st: State, k: Key, j: Key)
    ensures var r := Claim(st, k);
      && r.accesses == st.accesses && r.clock == st.clock && (j in r.entries <==> j in st.entries)
      && (j in st.entries ==> r.entries[j].uses == st.entries[j].uses && r.entries[j].inserted == st.entries[j].inserted)
  {}

  // An acquisition in three steps: bring it in, count the use, claim it.
  lemma AcquireInSteps(cfg: Config, st: State, k: Key) returns (mid: State)
    requires Wf(cfg, st) && !(k in st.entries && st.entries[k].tier.Transient?)
    ensures cfg.Valid() && Brought(st, k, mid)
    ensures var r := Acquire(cfg, st, k).0; r == Touch(cfg, mid, k) || r == Claim(Touch(cfg, mid, k), k)
  {
    hide Wf, Balance, Touch, MakeRoom, Admit, Brought, Promoted, Fetched;
    AgingIsSet(cfg, st);
    if k in st.entries && st.entries[k].tier.Device? {
      mid := st;
      SameBrings(st, k);
    } else if k in st.entries {
      mid := Promoted(cfg, st, k);
      PromotedBrings(cfg, st, k);
    } else {
      mid := Fetched(cfg, st, k);
      FetchedBrings(cfg, st, k);
    }
  }

  lemma SameBrings(st: State, k: Key)
    requires k in st.entries
    ensures Brought(st, k, st)
  {}

  lemma AcquireCounts(cfg: Config, st: State, k: Key, j: Key)
    requires Wf(cfg, st) && j.kind.Expert? && Counts(st, AcquireOp(k))
    ensures cfg.Valid()
    ensures var r := Acquire(cfg, st, k).0;
      && r.accesses == st.accesses + 1 && (j in r.entries ==> CountedIn(cfg, st, k, r, j) && (j in st.entries || j == k))
  {
    hide Wf, Acquire, Touch;
    var mid := AcquireInSteps(cfg, st, k);
    TouchKeeps(cfg, mid, k);
    TouchCounts(cfg, mid, k, k);
    ClaimCounts(Touch(cfg, mid, k), k, j);
    if j in mid.entries { TouchCounts(cfg, mid, k, j); }
  }

  // What an acquisition that counts for nothing leaves alone.
  lemma AcquirePasses(cfg: Config, st: State, k: Key, j: Key)
    requires Wf(cfg, st) && j.kind.Expert? && !Counts(st, AcquireOp(k))
    ensures var r := Acquire(cfg, st, k).0;
      r.accesses == st.accesses && (j in r.entries ==> j in st.entries && r.entries[j].uses == st.entries[j].uses)
  {
    if k in st.entries && st.entries[k].tier.Transient? {
      ClaimCounts(st, k, j);
    } else {
      hide Wf, Acquire;
      var mid := AcquireInSteps(cfg, st, k);
      TouchPassesDense(cfg, mid, k);
      ClaimCounts(mid, k, j);
    }
  }

  /** What one operation does to an expert's count: one more when it is what an acquisition served, halved
      when that was the last use of an interval, and otherwise nothing. */
  lemma StepCounts(cfg: Config, st: State, op: Op, k: Key)
    requires Wf(cfg, st) && k.kind.Expert?
    ensures cfg.Valid()
    ensures var r := Step(cfg, st, op);
      && r.accesses == st.accesses + (if Counts(st, op) then 1 else 0)
      && (k in r.entries ==> k in st.entries || op == AcquireOp(k))
      && (k in r.entries ==>
            if Counts(st, op) then CountedIn(cfg, st, op.key, r, k) else r.entries[k].uses == UsesOf(st, k))
      && (k in r.entries && k !in st.entries ==> Counts(st, op))
  {
    hide Wf, Balance, Kept, MakeRoom, Acquire;
    AgingIsSet(cfg, st);
    match op
    case AcquireOp(used) =>
      if Counts(st, op) { AcquireCounts(cfg, st, used, k); } else { AcquirePasses(cfg, st, used, k); }
    case ReleaseOp(_) => ReleaseWf(cfg, st, op.key);
    case PlanOp(plan) => ApplyPlanWf(cfg, st, plan);
    case ResizeOp(capacity) =>
      ResizedWf(cfg, st, capacity);
      RoomOnlyLoses(cfg, st.(device := st.device.(capacity := capacity)), 0);
    case ClearOp(keepPinned) =>
      DropAllWf(cfg, st, Doomed(st, keepPinned));
      DropAllReads(st, Doomed(st, keepPinned));
  }

  // Every entry keeps the number it was admitted under, and each admission takes the next.
  lemma StepNumbers(cfg: Config, st: State, op: Op, k: Key)
    requires Wf(cfg, st)
    ensures var r := Step(cfg, st, op);
      && r.clock == st.clock + (if Misses(st, op) then 1 else 0)
      && (k in r.entries && k in st.entries ==> r.entries[k].inserted == st.entries[k].inserted)
      && (k in r.entries && k !in st.entries ==> op == AcquireOp(k) && r.entries[k].inserted == r.clock)
  {
    hide Wf, Balance, Kept, MakeRoom, Acquire;
    match op
    case AcquireOp(used) => AcquireNumbers(cfg, st, used, k);
    case ReleaseOp(_) => ReleaseWf(cfg, st, op.key);
    case PlanOp(plan) => ApplyPlanWf(cfg, st, plan);
    case ResizeOp(capacity) =>
      ResizedWf(cfg, st, capacity);
      RoomOnlyLoses(cfg, st.(device := st.device.(capacity := capacity)), 0);
    case ClearOp(keepPinned) =>
      DropAllWf(cfg, st, Doomed(st, keepPinned));
      DropAllReads(st, Doomed(st, keepPinned));
  }

  lemma AcquireNumbers(cfg: Config, st: State, used: Key, k: Key)
    requires Wf(cfg, st)
    ensures var r := Acquire(cfg, st, used).0;
      && r.clock == st.clock + (if used in st.entries then 0 else 1)
      && (k in r.entries && k in st.entries ==> r.entries[k].inserted == st.entries[k].inserted)
      && (k in r.entries && k !in st.entries ==> used == k && r.entries[k].inserted == r.clock)
  {
    if used in st.entries && st.entries[used].tier.Transient? {
      ClaimCounts(st, used, k);
    } else {
      hide Wf, Acquire, Touch;
      var mid := AcquireInSteps(cfg, st, used);
      TouchKeeps(cfg, mid, used);
      ClaimCounts(Touch(cfg, mid, used), used, k);
    }
  }

  // ---- whole runs ---------------------------------------------------------------------------------------

  predicate Empty(st: State) {
    st.entries == map[] && st.clock == 0 && st.accesses == 0
  }

  // How many acquisitions have counted, and how often all counts have been halved because of them.
  ghost function Accesses(cfg: Config, init: State, ops: seq<Op>): nat
    requires cfg.Valid() && Wf(cfg, init)
  {
    if ops == [] then 0
    else
      var past := ops[..|ops| - 1];
      Accesses(cfg, init, past) + if Counts(Run(cfg, init, past), ops[|ops| - 1]) then 1 else 0
  }

  predicate Due(cfg: Config, accesses: nat)
    requires cfg.Valid()
  {
    accesses % cfg.aging == 0
  }

  ghost function Agings(cfg: Config, init: State, ops: seq<Op>): nat
    requires cfg.Valid() && Wf(cfg, init)
  {
    if ops == [] then 0
    else
      var past := ops[..|ops| - 1];
      Agings(cfg, init, past)
      + if Counts(Run(cfg, init, past), ops[|ops| - 1]) && Due(cfg, Accesses(cfg, init, past) + 1) then 1 else 0
  }

  // The operation that let an entry in for good: it has been tracked ever since.
  ghost function Admitted(cfg: Config, init: State, ops: seq<Op>, k: Key): (i: nat)
    requires cfg.Valid() && Wf(cfg, init) && Empty(init) && k in Run(cfg, init, ops).entries
    ensures i < |ops|
  {
    var past := ops[..|ops| - 1];
    if k in Run(cfg, init, past).entries then Admitted(cfg, init, past, k) else |ops| - 1
  }

  // The operations that counted as a use of `k`.
  ghost predicate Uses(cfg: Config, init: State, ops: seq<Op>, i: nat, k: Key)
    requires cfg.Valid() && Wf(cfg, init) && i < |ops|
  {
    ops[i] == AcquireOp(k) && Counts(Run(cfg, init, ops[..i]), ops[i])
  }

  ghost function UsesIn(cfg: Config, init: State, ops: seq<Op>, k: Key, from: nat, till: nat): nat
    requires cfg.Valid() && Wf(cfg, init) && from <= till <= |ops|
  {
    if from == till then 0
    else UsesIn(cfg, init, ops, k, from, till - 1) + if Uses(cfg, init, ops, till - 1, k) then 1 else 0
  }

  function Half(n: int): real {
    if n <= 0 then 1.0 else Half(n - 1) * 0.5
  }

  // What the operation at `i` still counts for: one if it was a use, halved once for every aging since.
  ghost function Share(cfg: Config, init: State, ops: seq<Op>, i: nat, k: Key): real
    requires cfg.Valid() && Wf(cfg, init) && i < |ops|
  {
    if Uses(cfg, init, ops, i, k) then Half(Agings(cfg, init, ops) - Agings(cfg, init, ops[..i])) else 0.0
  }

  // The sum of what the operations from `from` up to `till` still count for.
  ghost function Popularity(cfg: Config, init: State, ops: seq<Op>, k: Key, from: nat, till: nat): real
    requires cfg.Valid() && Wf(cfg, init) && from <= till <= |ops|
  {
    if from == till then 0.0
    else
      Popularity(cfg, init, ops, k, from, till - 1) + Share(cfg, init, ops, till - 1, k)
  }

  lemma {:induction false} AccessesAre(cfg: Config, init: State, ops: seq<Op>, k: Key)
    requires cfg.Valid() && Wf(cfg, init) && Empty(init) && k.kind.Expert?
    ensures Run(cfg, init, ops).accesses == Accesses(cfg, init, ops)
    decreases |ops|
  {
    hide Wf, Step;
    if ops != [] {
      var past := ops[..|ops| - 1];
      AccessesAre(cfg, init, past, k);
      StepCounts(cfg, Run(cfg, init, past), ops[|ops| - 1], k);
    }
  }

  lemma {:induction false} AccessesGrow(cfg: Config, init: State, ops: seq<Op>, i: nat)
    requires cfg.Valid() && Wf(cfg, init) && i <= |ops|
    ensures Agings(cfg, init, ops[..i]) <= Agings(cfg, init, ops)
    ensures Accesses(cfg, init, ops[..i]) <= Accesses(cfg, init, ops)
    decreases |ops|
  {
    hide Wf, Counts, Run, Due;
    if i == |ops| {
      assert ops[..i] == ops;
    } else {
      var past := ops[..|ops| - 1];
      assert ops[..i] == past[..i];
      AccessesGrow(cfg, init, past, i);
    }
  }

  /** An aging has come with every so many acquisitions that counted. */
  lemma {:induction false} AgingsAre(cfg: Config, init: State, ops: seq<Op>)
    requires cfg.Valid() && Wf(cfg, init)
    ensures Agings(cfg, init, ops) == Accesses(cfg, init, ops) / cfg.aging
    decreases |ops|
  {
    hide Wf, Run, Counts;
    if ops == [] {
      Arithmetic.Divides(0, cfg.aging, 0, 0);
    } else {
      var past := ops[..|ops| - 1];
      AgingsAre(cfg, init, past);
      Dividing(Accesses(cfg, init, past), cfg.aging);
    }
  }

  lemma Dividing(x: nat, g: nat)
    requires g >= 1
    ensures (x + 1) / g == x / g + if (x + 1) % g == 0 then 1 else 0
  {
    var q, r := x / g, x % g;
    if r + 1 == g {
      Arithmetic.Divides(x + 1, g, q + 1, 0);
    } else {
      Arithmetic.Divides(x + 1, g, q, r + 1);
    }
  }

  // One more operation halves what the earlier uses count, or leaves it.
  lemma {:induction false} PopularityAges(cfg: Config, init: State, ops: seq<Op>, k: Key, from: nat, till: nat)
    requires cfg.Valid() && Wf(cfg, init) && from <= till < |ops|
    ensures var past := ops[..|ops| - 1];
      var was := Popularity(cfg, init, past, k, from, till);
      && (Agings(cfg, init, ops) == Agings(cfg, init, past) ==> Popularity(cfg, init, ops, k, from, till) == was)
      && (Agings(cfg, init, ops) == Agings(cfg, init, past) + 1 ==> Popularity(cfg, init, ops, k, from, till) == was * 0.5)
    decreases till - from
  {
    hide Wf, Share, Agings, Run;
    if from < till {
      PopularityAges(cfg, init, ops, k, from, till - 1);
      ShareAges(cfg, init, ops, till - 1, k);
    }
  }

  lemma ShareAges(cfg: Config, init: State, ops: seq<Op>, i: nat, k: Key)
    requires cfg.Valid() && Wf(cfg, init) && i < |ops| - 1
    ensures var past := ops[..|ops| - 1];
      var was := Share(cfg, init, past, i, k);
      && (Agings(cfg, init, ops) == Agings(cfg, init, past) ==> Share(cfg, init, ops, i, k) == was)
      && (Agings(cfg, init, ops) == Agings(cfg, init, past) + 1 ==> Share(cfg, init, ops, i, k) == was * 0.5)
  {
    hide Wf, Run, Agings, Counts;
    var past := ops[..|ops| - 1];
    assert ops[..i] == past[..i];
    AccessesGrow(cfg, init, past, i);
  }


  /** In every state of every run, what an expert's count stands at is one for each acquisition since it was
      admitted that a tier or the storage served, halved once for every aging since; and an aging has come
      with every so many acquisitions of experts that counted, whichever expert they were of. */
  lemma {:induction false} CountIsPopularity(cfg: Config, init: State, ops: seq<Op>, k: Key)
    requires cfg.Valid() && Wf(cfg, init) && Empty(init) && k.kind.Expert? && k in Run(cfg, init, ops).entries
    ensures Admitted(cfg, init, ops, k) < |ops|
    ensures Run(cfg, init, ops).entries[k].uses
            == Popularity(cfg, init, ops, k, Admitted(cfg, init, ops, k), |ops|)
    decreases |ops|
  {
    hide Wf, Step, Popularity;
    var past, op := ops[..|ops| - 1], ops[|ops| - 1];
    var before := Run(cfg, init, past);
    StepCounts(cfg, before, op, k);
    AccessesAre(cfg, init, past, k);
    var from := if k in before.entries then Admitted(cfg, init, past, k) else |past|;
    if k in before.entries { CountIsPopularity(cfg, init, past, k); } else { NoneYet(cfg, init, past, k, from); }
    PopularityAges(cfg, init, ops, k, from, |past|);
    LastUse(cfg, init, ops, k, from);
    assert Half(0) == 1.0 && Half(1) == 0.5;
    assert Counts(before, op) ==> op.AcquireOp?;
  }

  lemma NoneYet(cfg: Config, init: State, ops: seq<Op>, k: Key, from: nat)
    requires cfg.Valid() && Wf(cfg, init) && from <= |ops|
    ensures Popularity(cfg, init, ops, k, from, from) == 0.0
  {}

  lemma LastUse(cfg: Config, init: State, ops: seq<Op>, k: Key, from: nat)
    requires cfg.Valid() && Wf(cfg, init) && from < |ops|
    ensures var past := ops[..|ops| - 1];
      Popularity(cfg, init, ops, k, from, |ops|)
      == Popularity(cfg, init, ops, k, from, |past|)
         + if Counts(Run(cfg, init, past), ops[|ops| - 1]) && ops[|ops| - 1] == AcquireOp(k)
           then Half(Agings(cfg, init, ops) - Agings(cfg, init, past)) else 0.0
  {
    hide Wf, Run, Counts, Half, Agings;
    assert ops[..|ops| - 1] == ops[..|ops|][..|ops| - 1];
  }

  lemma ShareIsWhole(cfg: Config, init: State, ops: seq<Op>, from: nat, i: nat, k: Key)
    requires cfg.Valid() && Wf(cfg, init) && from <= i < |ops|
    requires Agings(cfg, init, ops) == Agings(cfg, init, ops[..from])
    ensures Share(cfg, init, ops, i, k) == if Uses(cfg, init, ops, i, k) then 1.0 else 0.0
  {
    hide Wf, Uses, Agings;
    AccessesGrow(cfg, init, ops, i);
    AccessesGrow(cfg, init, ops[..i], from);
    assert ops[..i][..from] == ops[..from];
  }

  // Without an aging since, it is the number of uses.
  lemma {:induction false} PopularityCounts(cfg: Config, init: State, ops: seq<Op>, k: Key, from: nat, till: nat)
    requires cfg.Valid() && Wf(cfg, init) && from <= till <= |ops|
    requires Agings(cfg, init, ops) == Agings(cfg, init, ops[..from])
    ensures Popularity(cfg, init, ops, k, from, till) == UsesIn(cfg, init, ops, k, from, till) as real
    decreases till - from
  {
    hide Wf, Uses, Share, Agings, Run;
    if from < till {
      PopularityCounts(cfg, init, ops, k, from, till - 1);
      ShareIsWhole(cfg, init, ops, from, till - 1, k);
    }
  }

  // ---- numbers are the order of admission ---------------------------------------------------------------

  lemma {:induction false} ClockGrows(cfg: Config, init: State, ops: seq<Op>, i: nat, k: Key)
    requires cfg.Valid() && Wf(cfg, init) && i <= |ops|
    ensures Run(cfg, init, ops[..i]).clock <= Run(cfg, init, ops).clock
    decreases |ops|
  {
    hide Wf, Step;
    if i == |ops| {
      assert ops[..i] == ops;
    } else {
      var past := ops[..|ops| - 1];
      assert ops[..i] == past[..i];
      ClockGrows(cfg, init, past, i, k);
      StepNumbers(cfg, Run(cfg, init, past), ops[|ops| - 1], k);
    }
  }

  lemma {:induction false} NumberedAt(cfg: Config, init: State, ops: seq<Op>, k: Key)
    requires cfg.Valid() && Wf(cfg, init) && Empty(init) && k in Run(cfg, init, ops).entries
    ensures var i := Admitted(cfg, init, ops, k);
      && i < |ops| && ops[i] == AcquireOp(k) && k !in Run(cfg, init, ops[..i]).entries
      && Run(cfg, init, ops).entries[k].inserted == Run(cfg, init, ops[..i]).clock + 1
      && Run(cfg, init, ops[..i + 1]).clock == Run(cfg, init, ops[..i]).clock + 1
    decreases |ops|
  {
    hide Wf, Step;
    var past, op := ops[..|ops| - 1], ops[|ops| - 1];
    var before := Run(cfg, init, past);
    StepNumbers(cfg, before, op, k);
    if k in before.entries {
      NumberedAt(cfg, init, past, k);
      var i := Admitted(cfg, init, past, k);
      assert ops[..i] == past[..i] && ops[..i + 1] == past[..i + 1];
    } else {
      assert ops[..|ops|] == ops;
    }
  }

  /** Of two tracked entries the one with the smaller number was admitted by the earlier operation. */
  lemma NumberedByAdmission(cfg: Config, init: State, ops: seq<Op>, a: Key, b: Key)
    requires cfg.Valid() && Wf(cfg, init) && Empty(init) && a in Run(cfg, init, ops).entries
      && b in Run(cfg, init, ops).entries
    ensures var st := Run(cfg, init, ops);
      && (st.entries[a].inserted < st.entries[b].inserted
          <==> Admitted(cfg, init, ops, a) < Admitted(cfg, init, ops, b))
      && (a != b ==> Admitted(cfg, init, ops, a) != Admitted(cfg, init, ops, b))
  {
    hide Wf, Run, Admitted;
    NumberedAt(cfg, init, ops, a);
    NumberedAt(cfg, init, ops, b);
    var i, j := Admitted(cfg, init, ops, a), Admitted(cfg, init, ops, b);
    if i < j {
      assert ops[..j][..i + 1] == ops[..i + 1];
      ClockGrows(cfg, init, ops[..j], i + 1, a);
    } else if j < i {
      assert ops[..i][..j + 1] == ops[..j + 1];
      ClockGrows(cfg, init, ops[..i], j + 1, a);
    }
  }
}
