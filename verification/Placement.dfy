// Choosing what to pin: candidates ranked by class and by accesses saved per byte, then taken greedily.
module Placement {
  import opened WeightCache

  // `text` is the key as the ranking spells it, the last tie-breaker.
  datatype Candidate = Candidate(key: Key, bytes: int, priority: nat, accesses: real, text: string)

  function Savings(c: Candidate): real {
    if c.bytes <= 0 then 0.0 else c.accesses / c.bytes as real
  }

  // ---- the ranking --------------------------------------------------------------------------------

  predicate TextBefore(a: string, b: string) {
    if b == "" then false else if a == "" then true
    else a[0] < b[0] || (a[0] == b[0] && TextBefore(a[1..], b[1..]))
  }

  // Strictly earlier: class, then savings per byte, then the smaller, then the text of the key.
  predicate Before(a: Candidate, b: Candidate) {
    || a.priority < b.priority
    || (a.priority == b.priority
        && (|| Savings(a) > Savings(b)
            || (Savings(a) == Savings(b)
                && (a.bytes < b.bytes || (a.bytes == b.bytes && TextBefore(a.text, b.text))))))
  }

  predicate Ranked(cs: seq<Candidate>) {
    forall i, j :: 0 <= i < j < |cs| ==> !Before(cs[j], cs[i])
  }

  lemma {:induction false} TextTransitive(a: string, b: string, c: string)
    ensures !TextBefore(b, a) && !TextBefore(c, b) ==> !TextBefore(c, a)
    ensures TextBefore(a, b) && TextBefore(b, c) ==> TextBefore(a, c)
    ensures !(TextBefore(a, b) && TextBefore(b, a))
    decreases |a| + |b| + |c|
  {
    if a != "" && b != "" && c != "" { TextTransitive(a[1..], b[1..], c[1..]); }
    else if a != "" && b != "" { TextTransitive(a[1..], b[1..], c); }
  }

  lemma BeforeIsOrder(a: Candidate, b: Candidate, c: Candidate)
    ensures !Before(b, a) && !Before(c, b) ==> !Before(c, a)
    ensures !(Before(a, b) && Before(b, a))
  {
    TextTransitive(a.text, b.text, c.text);
    TextTransitive(b.text, a.text, c.text);
  }

  // Stable: a newcomer goes after everything it does not come before.
  function Insert(c: Candidate, cs: seq<Candidate>): seq<Candidate> {
    if cs == [] then [c]
    else if Before(c, cs[|cs| - 1]) then Insert(c, cs[..|cs| - 1]) + [cs[|cs| - 1]]
    else cs + [c]
  }

  function Rank(cs: seq<Candidate>): seq<Candidate> {
    if cs == [] then [] else Insert(cs[|cs| - 1], Rank(cs[..|cs| - 1]))
  }

  lemma {:induction false} InsertRanks(c: Candidate, cs: seq<Candidate>)
    requires Ranked(cs)
    ensures Ranked(Insert(c, cs)) && multiset(Insert(c, cs)) == multiset(cs) + multiset{c}
    decreases |cs|
  {
    hide Before;
    if cs == [] {
    } else {
      var n := |cs| - 1;
      assert cs == cs[..n] + [cs[n]];
      if Before(c, cs[n]) {
        InsertRanks(c, cs[..n]);
        var r := Insert(c, cs[..n]);
        forall i | 0 <= i < |r| ensures !Before(cs[n], r[i]) {
          assert r[i] in multiset(cs[..n]) + multiset{c};
          if r[i] == c { BeforeIsOrder(c, cs[n], cs[n]); }
        }
      } else {
        forall i | 0 <= i <= n ensures !Before(c, cs[i]) {
          if i < n { BeforeIsOrder(cs[i], cs[n], c); }
        }
      }
    }
  }

  /** Ranking reorders and puts nothing after something it should come before. */
  lemma {:induction false} RankRanks(cs: seq<Candidate>)
    ensures Ranked(Rank(cs)) && multiset(Rank(cs)) == multiset(cs)
    decreases |cs|
  {
    if cs != [] {
      var n := |cs| - 1;
      RankRanks(cs[..n]);
      InsertRanks(cs[n], Rank(cs[..n]));
      assert cs == cs[..n] + [cs[n]];
    }
  }

  // Where two texts first differ the earlier one has the earlier character, or has ended.
  predicate DifferAt(a: string, b: string, k: nat) {
    && k <= |a| && k < |b| && a[..k] == b[..k]
    && (k == |a| || a[k] < b[k])
  }

  /** Texts are told apart at the first place they differ. */
  lemma {:induction false} TextBeforeIs(a: string, b: string)
    ensures TextBefore(a, b) <==> exists k: nat :: DifferAt(a, b, k)
    ensures TextBefore(a, b) || TextBefore(b, a) || a == b
    decreases |a|
  {
    if a == "" || b == "" {
      if TextBefore(a, b) { assert DifferAt(a, b, 0); }
    } else if a[0] != b[0] {
      if TextBefore(a, b) { assert DifferAt(a, b, 0); }
      forall k: nat | 0 < k <= |a| && k <= |b| ensures a[..k] != b[..k] {
        assert a[..k][0] == a[0] && b[..k][0] == b[0];
      }
    } else {
      TextBeforeIs(a[1..], b[1..]);
      if TextBefore(a, b) {
        var k: nat :| DifferAt(a[1..], b[1..], k);
        assert a[..k + 1] == [a[0]] + a[1..][..k] && b[..k + 1] == [b[0]] + b[1..][..k];
        assert DifferAt(a, b, k + 1);
      }
      forall k: nat | DifferAt(a, b, k) ensures TextBefore(a, b) {
        assert k > 0;
        assert a[1..][..k - 1] == a[..k][1..] && b[1..][..k - 1] == b[..k][1..];
        assert DifferAt(a[1..], b[1..], k - 1);
      }
    }
  }

  /** What comes before what in a ranking: the better class; within it the more accesses saved per byte, then
      the fewer bytes, then the earlier spelling. */
  lemma RankOrder(cs: seq<Candidate>, i: nat, j: nat)
    requires i < j < |cs|
    ensures |Rank(cs)| == |cs|
    ensures var a, b := Rank(cs)[i], Rank(cs)[j];
      && a.priority <= b.priority && (a.priority == b.priority ==> Savings(a) >= Savings(b))
      && (a.priority == b.priority && Savings(a) == Savings(b) ==> a.bytes <= b.bytes)
      && (a.priority == b.priority && Savings(a) == Savings(b) && a.bytes == b.bytes ==> !TextBefore(b.text, a.text))
  {
    hide Savings, TextBefore, Rank;
    RankRanks(cs);
    assert |multiset(Rank(cs))| == |multiset(cs)|;
    assert !Before(Rank(cs)[j], Rank(cs)[i]);
  }

  // The candidates the ranking has no reason to tell from `c`.
  function Ties(cs: seq<Candidate>, c: Candidate): seq<Candidate> {
    if cs == [] then []
    else
      var last := cs[|cs| - 1];
      Ties(cs[..|cs| - 1], c) + if Before(c, last) || Before(last, c) then [] else [last]
  }

  lemma {:induction false} InsertKeepsTies(x: Candidate, cs: seq<Candidate>, c: Candidate)
    ensures Ties(Insert(x, cs), c) == Ties(cs, c) + if Before(c, x) || Before(x, c) then [] else [x]
    decreases |cs|
  {
    hide Before;
    if cs == [] {
      assert [x][..0] == [];
    } else {
      var n := |cs| - 1;
      if Before(x, cs[n]) {
        InsertKeepsTies(x, cs[..n], c);
        var r := Insert(x, cs[..n]);
        assert (r + [cs[n]])[..|r|] == r;
        TiesOfOne(x, cs[n], c);
      } else {
        assert (cs + [x])[..|cs|] == cs;
      }
    }
  }

  // Two that do not tie with each other do not both tie with a third.
  lemma TiesOfOne(x: Candidate, y: Candidate, c: Candidate)
    requires Before(x, y)
    ensures Before(c, x) || Before(x, c) || Before(c, y) || Before(y, c)
  {
    BeforeIsOrder(y, c, x);
  }

  /** And what nothing tells apart stays in the order it was offered in. */
  lemma {:induction false} RankIsStable(cs: seq<Candidate>, c: Candidate)
    ensures Ties(Rank(cs), c) == Ties(cs, c)
    decreases |cs|
  {
    hide Before;
    if cs != [] {
      var n := |cs| - 1;
      RankIsStable(cs[..n], c);
      InsertKeepsTies(cs[n], Rank(cs[..n]), c);
    }
  }

  // ---- the fill --------------------------------------------------------------------------------------

  datatype Reason = NoBytes | NoRoom

  datatype Plan = Plan(pinned: seq<Candidate>, skipped: seq<(Candidate, Reason)>, used: int)

  function Offer(p: Plan, c: Candidate, budget: nat): Plan {
    if c.bytes <= 0 then p.(skipped := p.skipped + [(c, NoBytes)])
    else if p.used + c.bytes > budget then p.(skipped := p.skipped + [(c, NoRoom)])
    else Plan(p.pinned + [c], p.skipped, p.used + c.bytes)
  }

  function Fill(p: Plan, cs: seq<Candidate>, budget: nat): Plan
    decreases |cs|
  {
    if cs == [] then p else Fill(Offer(p, cs[0], budget), cs[1..], budget)
  }

  const NOTHING := Plan([], [], 0)

  /** The pins bought with `budget` bytes: the best ranked first, whatever does not fit skipped. */
  method PlanPins(candidates: seq<Candidate>, budget: nat) returns (p: Plan)
    ensures p == Fill(NOTHING, Rank(candidates), budget)
  {
    var ranked := Rank(candidates);
    p := NOTHING;
    var i := 0;
    assert ranked[0..] == ranked;
    while i < |ranked|
      invariant 0 <= i <= |ranked|
      invariant Fill(p, ranked[i..], budget) == Fill(NOTHING, ranked, budget)
    {
      var c := ranked[i];
      assert ranked[i..][1..] == ranked[i + 1..];
      if c.bytes <= 0 {
        p := p.(skipped := p.skipped + [(c, NoBytes)]);
      } else if p.used + c.bytes > budget {
        p := p.(skipped := p.skipped + [(c, NoRoom)]);
      } else {
        p := Plan(p.pinned + [c], p.skipped, p.used + c.bytes);
      }
      i := i + 1;
    }
  }

  // What the window leaves, if it leaves anything.
  function PinBudget(deviceBytes: int, windowBytes: int): (b: nat)
    ensures windowBytes >= 0 && deviceBytes >= 0 ==> b <= deviceBytes
    ensures b + windowBytes >= deviceBytes && (b > 0 ==> b + windowBytes == deviceBytes)
  {
    if deviceBytes > windowBytes then deviceBytes - windowBytes else 0
  }

  function TotalBytes(cs: seq<Candidate>): int {
    if cs == [] then 0 else TotalBytes(cs[..|cs| - 1]) + cs[|cs| - 1].bytes
  }

  lemma {:induction false} FillInBudget(p: Plan, cs: seq<Candidate>, budget: nat)
    requires p.used == TotalBytes(p.pinned) && p.used <= budget && forall i :: 0 <= i < |p.pinned| ==> p.pinned[i].bytes > 0
    ensures var r := Fill(p, cs, budget);
      r.used == TotalBytes(r.pinned) && r.used <= budget && forall i :: 0 <= i < |r.pinned| ==> r.pinned[i].bytes > 0
    decreases |cs|
  {
    if cs != [] {
      var o := Offer(p, cs[0], budget);
      assert o.pinned != p.pinned ==> o.pinned[..|o.pinned| - 1] == p.pinned;
      FillInBudget(o, cs[1..], budget);
    }
  }

  function Skipped(p: Plan): seq<Candidate> {
    seq(|p.skipped|, i requires 0 <= i < |p.skipped| => p.skipped[i].0)
  }

  lemma SkipOne(p: Plan, c: Candidate, why: Reason)
    ensures Skipped(p.(skipped := p.skipped + [(c, why)])) == Skipped(p) + [c]
  {}

  lemma OfferAccounts(p: Plan, c: Candidate, budget: nat)
    ensures var r := Offer(p, c, budget);
      && multiset(r.pinned) + multiset(Skipped(r)) == multiset(p.pinned) + multiset(Skipped(p)) + multiset([c])
      && (if c.bytes > 0 && p.used + c.bytes <= budget
          then r.pinned == p.pinned + [c] && r.skipped == p.skipped && r.used == p.used + c.bytes
          else r.pinned == p.pinned && r.used == p.used
               && r.skipped == p.skipped + [(c, if c.bytes <= 0 then NoBytes else NoRoom)])
  {
    hide Skipped;
    SkipOne(p, c, if c.bytes <= 0 then NoBytes else NoRoom);
    SamePassed(p, Plan(p.pinned + [c], p.skipped, p.used + c.bytes));
  }

  lemma SamePassed(p: Plan, r: Plan)
    requires r.skipped == p.skipped
    ensures Skipped(r) == Skipped(p)
  {}

  /** Every candidate is pinned or skipped, once. One is skipped for having no bytes exactly when it has none,
      and one skipped for room is too large for the room still left when all are done. */
  lemma {:induction false} FillAccounts(p: Plan, cs: seq<Candidate>, budget: nat)
    ensures var r := Fill(p, cs, budget);
      && multiset(r.pinned) + multiset(Skipped(r)) == multiset(p.pinned) + multiset(Skipped(p)) + multiset(cs)
      && p.used <= r.used && p.pinned <= r.pinned && p.skipped <= r.skipped
      && (forall i :: |p.pinned| <= i < |r.pinned| ==> r.pinned[i].bytes > 0)
      && (forall i :: |p.skipped| <= i < |r.skipped| ==>
            var (c, why) := r.skipped[i]; if why.NoBytes? then c.bytes <= 0 else c.bytes > 0 && r.used + c.bytes > budget)
    decreases |cs|
  {
    hide Offer, Skipped;
    if cs != [] {
      assert cs == [cs[0]] + cs[1..];
      OfferAccounts(p, cs[0], budget);
      FillAccounts(Offer(p, cs[0], budget), cs[1..], budget);
    }
  }

  // ---- how good it is -----------------------------------------------------------------------------------

  // A choice among candidates marks the ones taken.
  function Worth(cs: seq<Candidate>, chosen: seq<bool>): real
    requires |chosen| == |cs|
  {
    if cs == [] then 0.0 else (if chosen[0] then cs[0].accesses else 0.0) + Worth(cs[1..], chosen[1..])
  }

  function Weight(cs: seq<Candidate>, chosen: seq<bool>): int
    requires |chosen| == |cs|
  {
    if cs == [] then 0 else (if chosen[0] then cs[0].bytes else 0) + Weight(cs[1..], chosen[1..])
  }

  function Count(chosen: seq<bool>): nat {
    if chosen == [] then 0 else (if chosen[0] then 1 else 0) + Count(chosen[1..])
  }

  // A choice never takes something of no size.
  predicate Sized(cs: seq<Candidate>, chosen: seq<bool>) {
    |chosen| == |cs| && forall i :: 0 <= i < |cs| && chosen[i] ==> cs[i].bytes > 0
  }

  function Accesses(cs: seq<Candidate>): real {
    if cs == [] then 0.0 else Accesses(cs[..|cs| - 1]) + cs[|cs| - 1].accesses
  }

  // What filling adds to what is pinned already.
  function Gained(p: Plan, cs: seq<Candidate>, budget: nat): real {
    Accesses(Fill(p, cs, budget).pinned) - Accesses(p.pinned)
  }

  // The accesses of the first candidate passed over for want of room.
  function FirstLeftOut(p: Plan, cs: seq<Candidate>, budget: nat): real
    decreases |cs|
  {
    if cs == [] then 0.0
    else if cs[0].bytes > 0 && p.used + cs[0].bytes > budget then cs[0].accesses
    else FirstLeftOut(Offer(p, cs[0], budget), cs[1..], budget)
  }

  predicate Wanted(cs: seq<Candidate>) {
    forall i :: 0 <= i < |cs| ==> cs[i].accesses >= 0.0
  }

  // One class, best value for its bytes first.
  predicate ByValue(cs: seq<Candidate>) {
    forall i, j :: 0 <= i < j < |cs| && cs[i].bytes > 0 && cs[j].bytes > 0 ==> Savings(cs[i]) >= Savings(cs[j])
  }

  // ---- arithmetic of densities ---------------------------------------------------------------------------

  function Times(r: real, n: int): real {
    r * n as real
  }

  lemma TimesAdds(r: real, m: int, n: int)
    ensures Times(r, m + n) == Times(r, m) + Times(r, n)
  {}

  lemma TimesGrows(r: real, s: real, n: int)
    requires r <= s && n >= 0
    ensures Times(r, n) <= Times(s, n)
  {}

  lemma TimesMore(r: real, m: int, n: int)
    requires 0.0 <= r && m <= n
    ensures Times(r, m) <= Times(r, n)
  {}

  lemma SavingsTimesBytes(c: Candidate)
    requires c.bytes > 0
    ensures Times(Savings(c), c.bytes) == c.accesses
  {}

  lemma SavingsNotNegative(c: Candidate)
    requires c.accesses >= 0.0
    ensures Savings(c) >= 0.0
  {}

  // No candidate of any size is denser than `rho`.
  predicate AtMost(cs: seq<Candidate>, rho: real) {
    forall i :: 0 <= i < |cs| && cs[i].bytes > 0 ==> Savings(cs[i]) <= rho
  }

  lemma {:induction false} WorthByWeight(cs: seq<Candidate>, chosen: seq<bool>, rho: real)
    requires Sized(cs, chosen) && AtMost(cs, rho) && 0.0 <= rho
    ensures Weight(cs, chosen) >= 0 && Worth(cs, chosen) <= Times(rho, Weight(cs, chosen))
    decreases |cs|
  {
    hide Times, Savings;
    if cs == [] {
      TimesAdds(rho, 0, 0);
    } else {
      WorthByWeight(cs[1..], chosen[1..], rho);
      if chosen[0] {
        SavingsTimesBytes(cs[0]);
        TimesGrows(Savings(cs[0]), rho, cs[0].bytes);
        TimesAdds(rho, cs[0].bytes, Weight(cs[1..], chosen[1..]));
      }
    }
  }

  lemma {:induction false} NothingLost(p: Plan, cs: seq<Candidate>, budget: nat)
    requires Wanted(cs)
    ensures Gained(p, cs, budget) >= 0.0
    decreases |cs|
  {
    if cs != [] {
      var o := Offer(p, cs[0], budget);
      assert o.pinned != p.pinned ==> o.pinned[..|o.pinned| - 1] == p.pinned;
      NothingLost(o, cs[1..], budget);
    }
  }

  // One more candidate pinned adds its accesses.
  lemma GainedStep(p: Plan, cs: seq<Candidate>, budget: nat)
    requires cs != []
    ensures var pins := cs[0].bytes > 0 && p.used + cs[0].bytes <= budget;
      Gained(p, cs, budget) == Gained(Offer(p, cs[0], budget), cs[1..], budget) + (if pins then cs[0].accesses else 0.0)
  {
    var o := Offer(p, cs[0], budget);
    assert o.pinned != p.pinned ==> o.pinned[..|o.pinned| - 1] == p.pinned;
  }

  // A choice that overdraws the room by `over` bytes is worth at most `over` bytes of the best value more.
  lemma {:induction false} Overdrawn(p: Plan, cs: seq<Candidate>, chosen: seq<bool>, budget: nat, rho: real, over: nat)
    requires ByValue(cs) && Wanted(cs) && Sized(cs, chosen) && AtMost(cs, rho) && 0.0 <= rho
    requires Weight(cs, chosen) <= budget - p.used + over
    ensures Worth(cs, chosen) <= Gained(p, cs, budget) + FirstLeftOut(p, cs, budget) + Times(rho, over)
    decreases |cs|
  {
    hide Times, Savings, Gained, Fill;
    if cs == [] {
      NothingLost(p, cs, budget);
      TimesMore(rho, 0, over);
      TimesAdds(rho, 0, 0);
    } else {
      var c, o := cs[0], Offer(p, cs[0], budget);
      GainedStep(p, cs, budget);
      if c.bytes <= 0 {
        Overdrawn(o, cs[1..], chosen[1..], budget, rho, over);
      } else if p.used + c.bytes > budget {
        NoRoomFor(p, cs, chosen, budget, rho, over);
      } else if chosen[0] {
        Overdrawn(o, cs[1..], chosen[1..], budget, rho, over);
      } else {
        SavingsNotNegative(c);
        Overdrawn(o, cs[1..], chosen[1..], budget, Savings(c), over + c.bytes);
        TimesAdds(Savings(c), over, c.bytes);
        SavingsTimesBytes(c);
        TimesGrows(Savings(c), rho, over);
      }
    }
  }

  lemma NoRoomFor(p: Plan, cs: seq<Candidate>, chosen: seq<bool>, budget: nat, rho: real, over: nat)
    requires ByValue(cs) && Wanted(cs) && Sized(cs, chosen) && AtMost(cs, rho) && 0.0 <= rho
    requires cs != [] && cs[0].bytes > 0 && p.used + cs[0].bytes > budget && Weight(cs, chosen) <= budget - p.used + over
    ensures Worth(cs, chosen) <= Gained(p, cs, budget) + cs[0].accesses + Times(rho, over)
  {
    hide Times, Savings, Gained, Worth, Weight;
    var c := cs[0];
    SavingsNotNegative(c);
    assert AtMost(cs, Savings(c));
    WorthByWeight(cs, chosen, Savings(c));
    TimesMore(Savings(c), Weight(cs, chosen), c.bytes + over);
    TimesAdds(Savings(c), c.bytes, over);
    SavingsTimesBytes(c);
    TimesGrows(Savings(c), rho, over);
    NothingLost(p, cs, budget);
  }

  // The densest of them bounds them all.
  function Densest(cs: seq<Candidate>): (rho: real)
    ensures rho >= 0.0 && AtMost(cs, rho)
  {
    if cs == [] then 0.0
    else
      var rest := Densest(cs[1..]);
      var s := Savings(cs[0]);
      var rho := if s > rest then s else rest;
      assert forall i :: 1 <= i < |cs| ==> cs[i] == cs[1..][i - 1];
      rho
  }

  /** Greedy is off by at most one: no choice from a class that fits the room it was given saves more
      accesses than what was pinned and the first candidate passed over for room together. */
  lemma GreedyIsNearlyBest(p: Plan, cs: seq<Candidate>, chosen: seq<bool>, budget: nat)
    requires ByValue(cs) && Wanted(cs) && Sized(cs, chosen) && Weight(cs, chosen) <= budget - p.used
    ensures Worth(cs, chosen) <= Gained(p, cs, budget) + FirstLeftOut(p, cs, budget)
  {
    hide Times;
    Overdrawn(p, cs, chosen, budget, Densest(cs), 0);
    TimesAdds(Densest(cs), 0, 0);
  }

  // ---- equal rates: the most of them ------------------------------------------------------------------------

  predicate BySize(cs: seq<Candidate>) {
    forall i, j :: 0 <= i < j < |cs| && cs[i].bytes > 0 && cs[j].bytes > 0 ==> cs[i].bytes <= cs[j].bytes
  }

  predicate NoSmaller(cs: seq<Candidate>, m: nat) {
    forall i :: 0 <= i < |cs| && cs[i].bytes > 0 ==> m <= cs[i].bytes
  }

  lemma {:induction false} CountByWeight(cs: seq<Candidate>, chosen: seq<bool>, m: nat)
    requires Sized(cs, chosen) && NoSmaller(cs, m)
    ensures Count(chosen) * m <= Weight(cs, chosen)
    decreases |cs|
  {
    if cs != [] {
      CountByWeight(cs[1..], chosen[1..], m);
    }
  }

  lemma FewerTimes(k: nat, a: nat, b: nat)
    requires a <= b
    ensures k * a <= k * b
  {}

  lemma TimesCompare(a: nat, b: nat, m: nat)
    requires a * m < (b + 1) * m
    ensures a <= b
  {
  }

  lemma {:induction false} OverCount(p: Plan, cs: seq<Candidate>, chosen: seq<bool>, budget: nat, m: nat, k: nat)
    requires BySize(cs) && Sized(cs, chosen) && NoSmaller(cs, m)
    requires Weight(cs, chosen) <= budget - p.used + k * m && p.used <= budget
    ensures Count(chosen) <= |Fill(p, cs, budget).pinned| - |p.pinned| + k
    decreases |cs|
  {
    if cs != [] {
      var c, o := cs[0], Offer(p, cs[0], budget);
      if c.bytes <= 0 {
        OverCount(o, cs[1..], chosen[1..], budget, m, k);
      } else if p.used + c.bytes > budget {
        CountByWeight(cs, chosen, c.bytes);
        FewerTimes(k, m, c.bytes);
        TimesCompare(Count(chosen), k, c.bytes);
        FillKeeps(p, cs, budget);
      } else if chosen[0] {
        OverCount(o, cs[1..], chosen[1..], budget, m, k);
      } else {
        FewerTimes(k, m, c.bytes);
        OverCount(o, cs[1..], chosen[1..], budget, c.bytes, k + 1);
      }
    }
  }

  lemma {:induction false} FillKeeps(p: Plan, cs: seq<Candidate>, budget: nat)
    ensures p.pinned <= Fill(p, cs, budget).pinned
    decreases |cs|
  {
    if cs != [] { FillKeeps(Offer(p, cs[0], budget), cs[1..], budget); }
  }

  /** Smallest first, nothing that fits pins more of them. */
  lemma GreedyPinsMost(p: Plan, cs: seq<Candidate>, chosen: seq<bool>, budget: nat)
    requires BySize(cs) && Sized(cs, chosen) && p.used <= budget && Weight(cs, chosen) <= budget - p.used
    ensures Count(chosen) <= |Fill(p, cs, budget).pinned| - |p.pinned|
  {
    OverCount(p, cs, chosen, budget, 0, 0);
  }

  lemma EqualRatesBySize(cs: seq<Candidate>, priority: nat, rate: real)
    requires Ranked(cs) && rate >= 0.0 && forall i :: 0 <= i < |cs| ==> cs[i].priority == priority && cs[i].accesses == rate
    ensures BySize(cs)
  {
    forall i, j | 0 <= i < |cs| && 0 <= j < |cs| && 0 < cs[j].bytes < cs[i].bytes ensures Before(cs[j], cs[i]) {
      SmallerIsDenser(rate, cs[j].bytes, cs[i].bytes);
    }
  }

  lemma SmallerIsDenser(rate: real, a: int, b: int)
    requires 0 < a < b && rate >= 0.0
    ensures rate / a as real >= rate / b as real
  {
    var x, y := rate / a as real, rate / b as real;
    assert x * a as real == y * b as real;
    if x < y { assert x * a as real <= y * a as real; }
  }

  lemma RankedByValue(cs: seq<Candidate>, priority: nat)
    requires Ranked(cs) && forall i :: 0 <= i < |cs| ==> cs[i].priority == priority
    ensures ByValue(cs)
  {}

  // ---- classes -----------------------------------------------------------------------------------------------

  // The candidates of priority `p` or better, of worse than `p`, and of exactly `p`.
  function Upto(cs: seq<Candidate>, p: int): seq<Candidate> {
    if cs == [] then []
    else
      var init := Upto(cs[..|cs| - 1], p);
      if cs[|cs| - 1].priority <= p then init + [cs[|cs| - 1]] else init
  }

  function Above(cs: seq<Candidate>, p: int): seq<Candidate> {
    if cs == [] then []
    else
      var init := Above(cs[..|cs| - 1], p);
      if cs[|cs| - 1].priority > p then init + [cs[|cs| - 1]] else init
  }

  function Of(cs: seq<Candidate>, p: int): seq<Candidate> {
    Upto(Above(cs, p - 1), p)
  }

  predicate AllUpto(cs: seq<Candidate>, p: int) { forall i :: 0 <= i < |cs| ==> cs[i].priority <= p }

  predicate AllAbove(cs: seq<Candidate>, p: int) { forall i :: 0 <= i < |cs| ==> cs[i].priority > p }

  lemma {:induction false} UptoIs(cs: seq<Candidate>, p: int)
    ensures AllUpto(Upto(cs, p), p) && AllAbove(Above(cs, p), p)
    ensures multiset(Upto(cs, p)) + multiset(Above(cs, p)) == multiset(cs)
    decreases |cs|
  {
    if cs != [] {
      UptoIs(cs[..|cs| - 1], p);
      assert cs == cs[..|cs| - 1] + [cs[|cs| - 1]];
    }
  }

  // Insertion passes through everything it comes before, and stops at what it does not.
  lemma {:induction false} InsertThrough(c: Candidate, a: seq<Candidate>, b: seq<Candidate>)
    requires forall i :: 0 <= i < |b| ==> Before(c, b[i])
    ensures Insert(c, a + b) == Insert(c, a) + b
    decreases |b|
  {
    hide Before;
    if b == [] {
      assert a + b == a && Insert(c, a) + b == Insert(c, a);
    } else {
      var n := |b| - 1;
      assert (a + b)[..|a + b| - 1] == a + b[..n];
      InsertThrough(c, a, b[..n]);
      assert Insert(c, a) + b[..n] + [b[n]] == Insert(c, a) + b;
    }
  }

  lemma {:induction false} InsertAfter(c: Candidate, a: seq<Candidate>, b: seq<Candidate>)
    requires forall i :: 0 <= i < |a| ==> !Before(c, a[i])
    ensures Insert(c, a + b) == a + Insert(c, b)
    decreases |b|
  {
    hide Before;
    if b == [] {
      assert a + b == a && a + Insert(c, b) == a + [c];
    } else {
      var n := |b| - 1;
      assert (a + b)[..|a + b| - 1] == a + b[..n];
      InsertAfter(c, a, b[..n]);
      if Before(c, b[n]) {
        assert a + Insert(c, b[..n]) + [b[n]] == a + (Insert(c, b[..n]) + [b[n]]);
      } else {
        assert a + b + [c] == a + (b + [c]);
      }
    }
  }

  lemma RankKeeps(cs: seq<Candidate>, p: int)
    ensures AllUpto(cs, p) ==> AllUpto(Rank(cs), p)
    ensures AllAbove(cs, p) ==> AllAbove(Rank(cs), p)
  {
    RankRanks(cs);
    var r := Rank(cs);
    forall i | 0 <= i < |r| ensures r[i] in cs {
      assert r[i] in multiset(r);
    }
  }

  /** Better classes are ranked among themselves, ahead of everything else. */
  lemma {:induction false} HigherFirst(cs: seq<Candidate>, p: int)
    ensures Rank(cs) == Rank(Upto(cs, p)) + Rank(Above(cs, p))
    decreases |cs|
  {
    if cs != [] {
      var init, c := cs[..|cs| - 1], cs[|cs| - 1];
      HigherFirst(init, p);
      UptoIs(init, p);
      RankKeeps(Upto(init, p), p);
      RankKeeps(Above(init, p), p);
      var a, b := Rank(Upto(init, p)), Rank(Above(init, p));
      if c.priority <= p {
        assert Upto(cs, p)[..|Upto(cs, p)| - 1] == Upto(init, p);
        InsertThrough(c, a, b);
      } else {
        assert Above(cs, p)[..|Above(cs, p)| - 1] == Above(init, p);
        InsertAfter(c, a, b);
      }
    }
  }

  lemma {:induction false} FillJoin(p: Plan, a: seq<Candidate>, b: seq<Candidate>, budget: nat)
    ensures Fill(p, a + b, budget) == Fill(Fill(p, a, budget), b, budget)
    decreases |a|
  {
    if a == [] {
      assert a + b == b;
    } else {
      assert (a + b)[1..] == a[1..] + b;
      FillJoin(Offer(p, a[0], budget), a[1..], b, budget);
    }
  }

  lemma {:induction false} FillAddsOnly(p: Plan, cs: seq<Candidate>, budget: nat)
    ensures p.pinned <= Fill(p, cs, budget).pinned
    ensures forall i :: |p.pinned| <= i < |Fill(p, cs, budget).pinned| ==> Fill(p, cs, budget).pinned[i] in cs
    decreases |cs|
  {
    if cs != [] {
      var o := Offer(p, cs[0], budget);
      FillAddsOnly(o, cs[1..], budget);
      var r := Fill(p, cs, budget).pinned;
      forall i | |p.pinned| <= i < |r| ensures r[i] in cs {
        if i < |o.pinned| { assert r[i] == o.pinned[i]; } else { assert r[i] in cs[1..]; }
      }
    }
  }

  /** Lower classes never change which higher-class candidates are pinned: what is pinned of the better
      classes is what would be pinned had nothing else been offered. */
  lemma ClassesAreIndependent(cs: seq<Candidate>, p: int, budget: nat)
    ensures var all, higher := Fill(NOTHING, Rank(cs), budget).pinned, Fill(NOTHING, Rank(Upto(cs, p)), budget).pinned;
      higher <= all && forall i :: |higher| <= i < |all| ==> all[i].priority > p
  {
    HigherFirst(cs, p);
    var a, b := Rank(Upto(cs, p)), Rank(Above(cs, p));
    FillJoin(NOTHING, a, b, budget);
    FillAddsOnly(Fill(NOTHING, a, budget), b, budget);
    UptoIs(cs, p);
    RankKeeps(Above(cs, p), p);
  }

  // What one class is offered: the ranked candidates of that class, after the better ones.
  function Offered(cs: seq<Candidate>, p: int, budget: nat): Plan {
    Fill(NOTHING, Rank(Upto(cs, p - 1)), budget)
  }

  lemma OfIs(cs: seq<Candidate>, p: int)
    ensures forall i :: 0 <= i < |Rank(Of(cs, p))| ==> Rank(Of(cs, p))[i].priority == p
    ensures forall i :: 0 <= i < |Rank(Of(cs, p))| ==> Rank(Of(cs, p))[i] in cs
    ensures Ranked(Rank(Of(cs, p)))
  {
    var above := Above(cs, p - 1);
    UptoIs(cs, p - 1);
    UptoIs(above, p);
    RankRanks(Of(cs, p));
    var r := Rank(Of(cs, p));
    forall i | 0 <= i < |r| ensures r[i].priority == p && r[i] in cs {
      assert r[i] in multiset(r) && r[i] in multiset(Of(cs, p)) && r[i] in multiset(above) && r[i] in multiset(cs);
      assert r[i] in Of(cs, p) && r[i] in above;
    }
  }

  /** The whole plan, class by class: what class `p` gains with the budget the better classes left, plus
      the first of it passed over for room, is at least what any fitting choice from it would gain; with
      equal access rates it is the largest number of them. */
  lemma EachClassIsNearlyBest(cs: seq<Candidate>, p: nat, budget: nat, chosen: seq<bool>, rate: real)
    requires Wanted(cs) && Sized(Rank(Of(cs, p)), chosen)
    requires Weight(Rank(Of(cs, p)), chosen) <= budget - Offered(cs, p, budget).used
    ensures var mine, before := Rank(Of(cs, p)), Offered(cs, p, budget);
      && before.used <= budget
      && Worth(mine, chosen) <= Gained(before, mine, budget) + FirstLeftOut(before, mine, budget)
      && ((forall i :: 0 <= i < |mine| ==> mine[i].accesses == rate) && rate >= 0.0
          ==> Count(chosen) <= |Fill(before, mine, budget).pinned| - |before.pinned|)
      && Fill(before, mine, budget).pinned <= Fill(NOTHING, Rank(cs), budget).pinned
  {
    hide Before, Savings, Gained, Worth, Weight, Fill, FirstLeftOut;
    var mine, before := Rank(Of(cs, p)), Offered(cs, p, budget);
    OfIs(cs, p);
    RankedByValue(mine, p);
    GreedyIsNearlyBest(before, mine, chosen, budget);
    FillInBudget(NOTHING, Rank(Upto(cs, p - 1)), budget);
    if (forall i :: 0 <= i < |mine| ==> mine[i].accesses == rate) && rate >= 0.0 {
      EqualRatesBySize(mine, p, rate);
      GreedyPinsMost(before, mine, chosen, budget);
    }
    HigherFirst(cs, p - 1);
    HigherFirst(Above(cs, p - 1), p);
    var rest := Rank(Above(Above(cs, p - 1), p));
    FillJoin(NOTHING, Rank(Upto(cs, p - 1)), mine + rest, budget);
    FillJoin(before, mine, rest, budget);
    FillKeeps(Fill(before, mine, budget), rest, budget);
  }
}
