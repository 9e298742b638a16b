// The pool of host staging buffers: slots leased to transfers in flight, one scratch buffer a type, and
// a byte budget over both.
module Staging {
  import opened Options

  type Dtype = nat

  const MIN_POOLED := 0x1_0000

  predicate PowerOfTwo(n: nat) {
    n == 1 || (n > 1 && n % 2 == 0 && PowerOfTwo(n / 2))
  }

  // Doubling from `p` until `count` fits.
  function Doubled(p: nat, count: nat): (r: nat)
    requires p > 0
    ensures r >= count && r >= p && (r == p || r < 2 * count)
    ensures PowerOfTwo(p) ==> PowerOfTwo(r)
    decreases if p >= count then 0 else count - p
  {
    if p >= count then p
    else
      assert 2 * p / 2 == p;
      Doubled(2 * p, count)
  }

  lemma SmallestIsPower()
    ensures PowerOfTwo(MIN_POOLED)
  {
    assert PowerOfTwo(0x10) && PowerOfTwo(0x100) by { assert PowerOfTwo(0x4) && PowerOfTwo(0x40); }
    assert PowerOfTwo(0x1000) by { assert PowerOfTwo(0x400); }
    assert PowerOfTwo(0x1_0000) by { assert PowerOfTwo(0x4000); }
  }

  /** Rounded up to a power of two, the next one, so near-identical layers share a buffer. */
  function SizeClass(count: nat): (r: nat)
    ensures PowerOfTwo(r) && count <= r && MIN_POOLED <= r
      && (if count > MIN_POOLED then r < 2 * count else r == MIN_POOLED)
  {
    SmallestIsPower();
    Doubled(MIN_POOLED, count)
  }

  datatype Slot = Slot(dtype: Dtype, elements: nat, leased: bool)

  datatype Scratch = Scratch(dtype: Dtype, elements: nat)

  datatype Config = Config(budget: nat, itemSize: Dtype -> nat)

  // Slots are numbered as they are made; `leases` maps every unreleased lease on one to its number.
  datatype State = State(slots: map<nat, Slot>, buffers: seq<Scratch>, resident: int, leases: map<nat, nat>,
                         nextSlot: nat, nextLease: nat)

  const EMPTY := State(map[], [], 0, map[], 0, 0)

  function Bytes(cfg: Config, elements: nat, dtype: Dtype): nat {
    elements * cfg.itemSize(dtype)
  }

  // The slots numbered below `n`, added up.
  function SlotBytes(cfg: Config, slots: map<nat, Slot>, n: nat): nat {
    if n == 0 then 0
    else SlotBytes(cfg, slots, n - 1) + if n - 1 in slots then Bytes(cfg, slots[n - 1].elements, slots[n - 1].dtype) else 0
  }

  function BufferBytes(cfg: Config, buffers: seq<Scratch>): nat {
    if buffers == [] then 0
    else BufferBytes(cfg, buffers[..|buffers| - 1]) + Bytes(cfg, buffers[|buffers| - 1].elements,
      buffers[|buffers| - 1].dtype)
  }

  // ---- the invariant ------------------------------------------------------------------------------------

  // Leases and leased slots match one to one.
  ghost predicate Matched(slots: map<nat, Slot>, leases: map<nat, nat>) {
    && (forall l :: l in leases ==> leases[l] in slots && slots[leases[l]].leased)
    && (forall s :: s in slots && slots[s].leased ==> Holder(leases, s))
    && forall l, m :: l in leases && m in leases && l != m ==> leases[l] != leases[m]
  }

  predicate Holder(leases: map<nat, nat>, s: nat) {
    exists l :: l in leases && leases[l] == s
  }

  predicate OnePerType(buffers: seq<Scratch>) {
    forall i, j :: 0 <= i < j < |buffers| ==> buffers[i].dtype != buffers[j].dtype
  }

  // Bytes are what the pool holds, within its budget; there is one scratch buffer a type at most.
  ghost predicate Wf(cfg: Config, st: State) {
    && Matched(st.slots, st.leases)
    && (forall s :: s in st.slots ==> s < st.nextSlot)
    && (forall l :: l in st.leases ==> l < st.nextLease)
    && st.resident == SlotBytes(cfg, st.slots, st.nextSlot) + BufferBytes(cfg, st.buffers) <= cfg.budget
    && OnePerType(st.buffers)
  }

  // ---- leases ----------------------------------------------------------------------------------------------

  predicate Serves(s: Slot, count: nat, dtype: Dtype) {
    !s.leased && s.dtype == dtype && s.elements >= count
  }

  // Taken, of the type and large enough, and no larger than any free slot that would have done.
  predicate Suited(st: State, s: Slot, count: nat, dtype: Dtype) {
    && s.leased && s.dtype == dtype && s.elements >= count
    && forall o :: o < st.nextSlot && o in st.slots && Serves(st.slots[o], count, dtype) ==>
         s.elements <= st.slots[o].elements
  }

  predicate NoLarger(slots: map<nat, Slot>, r: Option<nat>, s: nat)
    requires s in slots
  {
    r.Some? && r.value in slots && slots[r.value].elements <= slots[s].elements
  }

  // The smallest slot numbered below `n` that nobody holds and that can serve.
  function FreeSlot(slots: map<nat, Slot>, n: nat, count: nat, dtype: Dtype): (r: Option<nat>)
    ensures r.Some? ==> r.value < n && r.value in slots && Serves(slots[r.value], count, dtype)
    ensures forall s :: (s < n && s in slots && Serves(slots[s], count, dtype)) ==> NoLarger(slots, r, s)
  {
    if n == 0 then None
    else
      var before := FreeSlot(slots, n - 1, count, dtype);
      if n - 1 !in slots || !Serves(slots[n - 1], count, dtype) then before
      else if before.None? || slots[n - 1].elements < slots[before.value].elements then Some(n - 1)
      else before
  }

  function Marked(slots: map<nat, Slot>, s: nat, leased: bool): map<nat, Slot> {
    if s in slots then slots[s := slots[s].(leased := leased)] else slots
  }

  function Return(st: State, lease: nat): State {
    if lease !in st.leases then st
    else st.(slots := Marked(st.slots, st.leases[lease], false), leases := st.leases - {lease})
  }

  // Transfers the reclaim hook finds finished give their leases back.
  function ReturnAll(st: State, finished: seq<nat>): State
    decreases |finished|
  {
    if finished == [] then st else ReturnAll(Return(st, finished[0]), finished[1..])
  }

  // A new slot, if the budget has room for one.
  function Grow(cfg: Config, st: State, count: nat, dtype: Dtype): (State, Option<nat>) {
    var bytes := Bytes(cfg, SizeClass(count), dtype);
    if cfg.budget > 0 && st.resident + bytes <= cfg.budget
    then (st.(slots := st.slots[st.nextSlot := Slot(dtype, SizeClass(count), false)], resident := st.resident + bytes,
              nextSlot := st.nextSlot + 1), Some(st.nextSlot))
    else (st, None)
  }

  function CheckOut(st: State, s: nat): State {
    st.(slots := Marked(st.slots, s, true), leases := st.leases[st.nextLease := s], nextLease := st.nextLease + 1)
  }

  // The pool after asking, if need be, what has finished.
  function Asked(st: State, count: nat, dtype: Dtype, finished: seq<nat>): State {
    if FreeSlot(st.slots, st.nextSlot, count, dtype).Some? then st else ReturnAll(st, finished)
  }

  // A lease on a pooled slot, or None for a transient buffer of the caller's own.
  function Lease(cfg: Config, st: State, count: nat, dtype: Dtype, finished: seq<nat>): (State, Option<nat>) {
    if count == 0 then (st, None)
    else
      var asked := Asked(st, count, dtype, finished);
      var free := FreeSlot(asked.slots, asked.nextSlot, count, dtype);
      var (grown, s) := if free.Some? then (asked, free) else Grow(cfg, asked, count, dtype);
      if s.Some? then (CheckOut(grown, s.value), Some(grown.nextLease)) else (grown, None)
  }

  // ---- scratch buffers ----------------------------------------------------------------------------------------

  predicate Fits(buffers: seq<Scratch>, count: nat, dtype: Dtype) {
    exists b :: b in buffers && b.dtype == dtype && b.elements >= count
  }

  // All but the buffers of this type smaller than the new one.
  function Superseding(buffers: seq<Scratch>, dtype: Dtype, elements: nat): seq<Scratch> {
    if buffers == [] then []
    else
      var last := buffers[|buffers| - 1];
      var rest := Superseding(buffers[..|buffers| - 1], dtype, elements);
      if last.dtype == dtype && last.elements < elements then rest else rest + [last]
  }

  function Buffer(cfg: Config, st: State, count: nat, dtype: Dtype): State {
    if count == 0 || cfg.budget == 0 || Fits(st.buffers, count, dtype) then st
    else
      var elements := SizeClass(count);
      var kept := Superseding(st.buffers, dtype, elements);
      var reclaimed := BufferBytes(cfg, st.buffers) - BufferBytes(cfg, kept);
      if st.resident - reclaimed + Bytes(cfg, elements, dtype) > cfg.budget then st
      else st.(buffers := kept + [Scratch(dtype, elements)],
        resident := st.resident - reclaimed + Bytes(cfg, elements, dtype))
  }

  // ---- clearing -------------------------------------------------------------------------------------------------

  function ClearedPool(cfg: Config, st: State): State {
    var kept := map s | s in st.slots && st.slots[s].leased :: st.slots[s];
    st.(buffers := [], slots := kept, resident := SlotBytes(cfg, kept, st.nextSlot))
  }

  // ---- what every operation keeps -----------------------------------------------------------------------------------

  lemma {:induction false} SlotBytesBy(cfg: Config, a: map<nat, Slot>, b: map<nat, Slot>, n: nat)
    requires forall s :: s < n && s in a ==> s in b && b[s].elements == a[s].elements && b[s].dtype == a[s].dtype
    ensures SlotBytes(cfg, a, n) <= SlotBytes(cfg, b, n)
    ensures (forall s :: s < n && s in b ==> s in a) ==> SlotBytes(cfg, a, n) == SlotBytes(cfg, b, n)
    decreases n
  {
    hide Bytes;
    if n > 0 { SlotBytesBy(cfg, a, b, n - 1); }
  }

  lemma ReturnMatches(slots: map<nat, Slot>, leases: map<nat, nat>, l: nat)
    requires Matched(slots, leases) && l in leases
    ensures Matched(Marked(slots, leases[l], false), leases - {l})
  {
    var r := leases - {l};
    forall s | s in slots && slots[s].leased && s != leases[l] ensures Holder(r, s) {
      var m :| m in leases && leases[m] == s;
      assert m in r && r[m] == s;
    }
  }

  lemma ReturnKeeps(cfg: Config, st: State, lease: nat)
    requires Wf(cfg, st)
    ensures Wf(cfg, Return(st, lease))
  {
    hide Matched, Bytes;
    if lease in st.leases {
      ReturnMatches(st.slots, st.leases, lease);
      SlotBytesBy(cfg, st.slots, Return(st, lease).slots, st.nextSlot);
    }
  }

  lemma {:induction false} ReturnAllKeeps(cfg: Config, st: State, finished: seq<nat>)
    requires Wf(cfg, st)
    ensures var r := ReturnAll(st, finished);
      && Wf(cfg, r) && r.nextLease == st.nextLease
      && (forall l :: l in r.leases ==> l in st.leases && r.leases[l] == st.leases[l])
      && (forall l :: l in st.leases && l !in finished ==> l in r.leases)
    decreases |finished|
  {
    hide Wf;
    if finished != [] {
      ReturnKeeps(cfg, st, finished[0]);
      ReturnAllKeeps(cfg, Return(st, finished[0]), finished[1..]);
    }
  }

  lemma GrowKeeps(cfg: Config, st: State, count: nat, dtype: Dtype)
    requires Wf(cfg, st)
    ensures var (r, s) := Grow(cfg, st, count, dtype);
      && Wf(cfg, r) && r.leases == st.leases && r.nextLease == st.nextLease
      && (s.Some? ==> s.value in r.slots && Serves(r.slots[s.value], count, dtype))
  {
    hide Bytes;
    var (r, s) := Grow(cfg, st, count, dtype);
    if s.Some? {
      SlotBytesBy(cfg, st.slots, r.slots, st.nextSlot);
    }
  }

  lemma CheckOutMatches(slots: map<nat, Slot>, leases: map<nat, nat>, s: nat, l: nat)
    requires Matched(slots, leases) && s in slots && !slots[s].leased && l !in leases
    ensures Matched(Marked(slots, s, true), leases[l := s])
  {
    var r := leases[l := s];
    forall t | t in slots && (slots[t].leased || t == s) ensures Holder(r, t) {
      if t == s {
        assert r[l] == s;
      } else {
        var m :| m in leases && leases[m] == t;
        assert m in r && r[m] == t;
      }
    }
  }

  lemma CheckOutKeeps(cfg: Config, st: State, s: nat)
    requires Wf(cfg, st) && s in st.slots && !st.slots[s].leased
    ensures Wf(cfg, CheckOut(st, s)) && st.nextLease !in st.leases
  {
    hide Matched, Bytes;
    CheckOutMatches(st.slots, st.leases, s, st.nextLease);
    SlotBytesBy(cfg, st.slots, CheckOut(st, s).slots, st.nextSlot);
  }

  /** A lease is on a slot nobody else holds, of its type and large enough, and the smallest free one if there
      was one; every other lease stays as it was, unless its transfer was found finished. */
  lemma LeaseKeeps(cfg: Config, st: State, count: nat, dtype: Dtype, finished: seq<nat>)
    requires Wf(cfg, st)
    ensures var (r, lease) := Lease(cfg, st, count, dtype, finished);
      && Wf(cfg, r)
      && (lease.Some? ==> lease.value !in st.leases && lease.value in r.leases && r.leases[lease.value] in r.slots)
      && (lease.Some? ==> Suited(Asked(st, count, dtype, finished), r.slots[r.leases[lease.value]], count, dtype))
      && (forall l :: l in r.leases && lease != Some(l) ==> l in st.leases && r.leases[l] == st.leases[l])
      && (forall l :: l in st.leases && l !in finished ==> l in r.leases && r.leases[l] == st.leases[l])
  {
    hide Wf, FreeSlot, Grow;
    var asked := Asked(st, count, dtype, finished);
    ReturnAllKeeps(cfg, st, finished);
    GrowKeeps(cfg, asked, count, dtype);
    NextIsNew(cfg, st);
    var free := FreeSlot(asked.slots, asked.nextSlot, count, dtype);
    var (grown, s) := if free.Some? then (asked, free) else Grow(cfg, asked, count, dtype);
    if count > 0 && s.Some? {
      CheckOutKeeps(cfg, grown, s.value);
    }
  }

  // What a lease could be on without asking what has finished.
  ghost predicate AnyServes(st: State, count: nat, dtype: Dtype) {
    exists s :: s < st.nextSlot && s in st.slots && Serves(st.slots[s], count, dtype)
  }

  /** A lease is refused exactly when nothing is wanted, or no slot serves, not even once what has finished
      has given its own back, and the budget has no room for another. Finished transfers are asked for only
      when nothing serves without them. A slot is made only then, of the smallest power of two that will do. */
  lemma LeaseGranted(cfg: Config, st: State, count: nat, dtype: Dtype, finished: seq<nat>)
    requires Wf(cfg, st)
    ensures var (r, lease) := Lease(cfg, st, count, dtype, finished);
      var asked := if count > 0 && !AnyServes(st, count, dtype) then ReturnAll(st, finished) else st;
      var more := Bytes(cfg, SizeClass(count), dtype);
      && (lease.Some? <==> count > 0 && (AnyServes(asked, count, dtype)
                                         || (0 < cfg.budget && asked.resident + more <= cfg.budget)))
      && (lease.None? ==> r == asked)
      && (lease.Some? && AnyServes(asked, count, dtype) ==>
            r.nextSlot == asked.nextSlot && r.resident == asked.resident && r.leases[lease.value] in asked.slots)
      && (lease.Some? && !AnyServes(asked, count, dtype) ==>
            && r.nextSlot == asked.nextSlot + 1 && r.resident == asked.resident + more
            && r.leases[lease.value] == asked.nextSlot && r.slots[asked.nextSlot] == Slot(dtype, SizeClass(count), true))
      && (forall s :: s in asked.slots && (lease.None? || s != r.leases[lease.value]) ==>
            s in r.slots && r.slots[s] == asked.slots[s])
  {
    LeaseKeeps(cfg, st, count, dtype, finished);
    ReturnAllKeeps(cfg, st, finished);
    hide Matched, FreeSlot, Bytes, SizeClass, ReturnAll, SlotBytes, BufferBytes;
    FreeExactly(st, count, dtype);
    FreeExactly(Asked(st, count, dtype, finished), count, dtype);
  }

  lemma FreeExactly(st: State, count: nat, dtype: Dtype)
    ensures FreeSlot(st.slots, st.nextSlot, count, dtype).Some? <==> AnyServes(st, count, dtype)
  {
    var free := FreeSlot(st.slots, st.nextSlot, count, dtype);
    if AnyServes(st, count, dtype) {
      var s :| s < st.nextSlot && s in st.slots && Serves(st.slots[s], count, dtype);
      assert NoLarger(st.slots, free, s);
    }
  }

  /** A lease given back frees its slot for the next that it serves, and changes nothing else; one given back
      twice, or never made, changes nothing. */
  lemma ReleaseFrees(cfg: Config, st: State, lease: nat)
    requires Wf(cfg, st)
    ensures var r := Step(cfg, st, ReleaseOp(lease));
      && r.leases == st.leases - {lease} && r == st.(slots := r.slots, leases := r.leases) && r.slots.Keys == st.slots.Keys
      && (forall s :: s in st.slots && (lease !in st.leases || s != st.leases[lease]) ==> r.slots[s] == st.slots[s])
      && (lease in st.leases ==>
            var s := st.leases[lease]; s in st.slots && r.slots[s] == st.slots[s].(leased := false))
  {
    hide Bytes, SlotBytes, BufferBytes;
    assert lease !in st.leases ==> st.leases - {lease} == st.leases;
  }

  // Asking gives back every lease that has finished.
  lemma {:induction false} FinishedAreBack(cfg: Config, st: State, finished: seq<nat>)
    requires Wf(cfg, st)
    ensures var r := ReturnAll(st, finished);
      && (forall l :: l in r.leases <==> l in st.leases && l !in finished)
      && r == st.(slots := r.slots, leases := r.leases) && r.slots.Keys == st.slots.Keys
    decreases |finished|
  {
    hide Wf, Return;
    if finished != [] {
      ReleaseFrees(cfg, st, finished[0]);
      ReturnKeeps(cfg, st, finished[0]);
      FinishedAreBack(cfg, Return(st, finished[0]), finished[1..]);
    }
  }

  lemma LeaseWf(cfg: Config, st: State, count: nat, dtype: Dtype, finished: seq<nat>)
    requires Wf(cfg, st)
    ensures Wf(cfg, Lease(cfg, st, count, dtype, finished).0)
  {
    hide Lease, Wf;
    LeaseKeeps(cfg, st, count, dtype, finished);
  }

  lemma NextIsNew(cfg: Config, st: State)
    requires Wf(cfg, st)
    ensures st.nextLease !in st.leases
  {}

  lemma {:induction false} SupersedingIs(cfg: Config, buffers: seq<Scratch>, dtype: Dtype, elements: nat)
    ensures var kept := Superseding(buffers, dtype, elements);
      && BufferBytes(cfg, kept) <= BufferBytes(cfg, buffers)
      && (forall b :: b in kept ==> b in buffers && (b.dtype == dtype ==> b.elements >= elements))
      && (forall b :: b in buffers && b.dtype != dtype ==> b in kept)
      && (OnePerType(buffers) ==> OnePerType(kept))
    decreases |buffers|
  {
    hide Bytes;
    if buffers != [] {
      var n := |buffers| - 1;
      SupersedingIs(cfg, buffers[..n], dtype, elements);
      var rest, kept := Superseding(buffers[..n], dtype, elements), Superseding(buffers, dtype, elements);
      if kept != rest {
        assert kept[..|kept| - 1] == rest;
        if OnePerType(buffers) {
          assert forall i :: 0 <= i < |rest| ==> rest[i] in buffers[..n];
        }
      }
    }
  }

  /** A new scratch buffer takes the place of every other one of its type, all smaller, and of no other, so one
      of each is ever kept; it is made only if none there would do. */
  lemma BufferKeeps(cfg: Config, st: State, count: nat, dtype: Dtype)
    requires Wf(cfg, st)
    ensures var r := Buffer(cfg, st, count, dtype);
      && Wf(cfg, r) && r == st.(buffers := r.buffers, resident := r.resident)
      && (r != st ==>
            && var made := Scratch(dtype, SizeClass(count));
            && made in r.buffers && !Fits(st.buffers, count, dtype)
            && (forall b :: b in r.buffers ==> b == made || (b in st.buffers && b.dtype != dtype))
            && (forall b :: b in st.buffers && b.dtype != dtype ==> b in r.buffers))
  {
    hide Bytes, Matched, Superseding, SlotBytes, SizeClass, BufferBytes, OnePerType, Fits;
    var r := Buffer(cfg, st, count, dtype);
    if r != st {
      var elements := SizeClass(count);
      var kept := Superseding(st.buffers, dtype, elements);
      SupersedingIs(cfg, st.buffers, dtype, elements);
      NoneFits(st.buffers, count, dtype, kept, elements);
      OneMore(cfg, kept, Scratch(dtype, elements));
    }
  }

  // The bytes in scratch buffers of other types.
  function OtherBytes(cfg: Config, buffers: seq<Scratch>, dtype: Dtype): nat {
    if buffers == [] then 0
    else
      var last := buffers[|buffers| - 1];
      OtherBytes(cfg, buffers[..|buffers| - 1], dtype)
      + if last.dtype == dtype then 0 else Bytes(cfg, last.elements, last.dtype)
  }

  lemma {:induction false} OthersStay(cfg: Config, buffers: seq<Scratch>, dtype: Dtype, elements: nat)
    requires forall i :: 0 <= i < |buffers| && buffers[i].dtype == dtype ==> buffers[i].elements < elements
    ensures BufferBytes(cfg, Superseding(buffers, dtype, elements)) == OtherBytes(cfg, buffers, dtype)
    decreases |buffers|
  {
    hide Bytes, BufferBytes;
    if buffers == [] {
      NoBytes(cfg);
    } else {
      var n := |buffers| - 1;
      OthersStay(cfg, buffers[..n], dtype, elements);
      MoreBytes(cfg, Superseding(buffers[..n], dtype, elements), buffers[n]);
    }
  }

  lemma NoBytes(cfg: Config)
    ensures BufferBytes(cfg, []) == 0
  {}

  lemma MoreBytes(cfg: Config, buffers: seq<Scratch>, last: Scratch)
    ensures BufferBytes(cfg, buffers + [last]) == BufferBytes(cfg, buffers) + Bytes(cfg, last.elements, last.dtype)
  {
    hide Bytes;
    assert (buffers + [last])[..|buffers|] == buffers;
  }

  /** A scratch buffer is made exactly when one is wanted, none there would do, and it fits the budget beside
      the slots and the buffers of other types. */
  lemma BufferMade(cfg: Config, st: State, count: nat, dtype: Dtype)
    requires Wf(cfg, st)
    ensures Buffer(cfg, st, count, dtype) != st
       <==> && count > 0 && cfg.budget > 0 && !Fits(st.buffers, count, dtype)
            && SlotBytes(cfg, st.slots, st.nextSlot) + OtherBytes(cfg, st.buffers, dtype)
               + Bytes(cfg, SizeClass(count), dtype) <= cfg.budget
  {
    hide Bytes, Matched, Superseding, SlotBytes, SizeClass, BufferBytes, OtherBytes, OnePerType, Fits;
    if count > 0 && cfg.budget > 0 && !Fits(st.buffers, count, dtype) {
      var elements := SizeClass(count);
      NoneThatLong(st.buffers, count, dtype, elements);
      OthersStay(cfg, st.buffers, dtype, elements);
      var made := Superseding(st.buffers, dtype, elements) + [Scratch(dtype, elements)];
      assert made[|made| - 1] == Scratch(dtype, elements);
    }
  }

  lemma NoneThatLong(buffers: seq<Scratch>, count: nat, dtype: Dtype, elements: nat)
    requires !Fits(buffers, count, dtype) && count <= elements
    ensures forall i :: 0 <= i < |buffers| && buffers[i].dtype == dtype ==> buffers[i].elements < elements
  {
    forall i | 0 <= i < |buffers| && buffers[i].dtype == dtype ensures buffers[i].elements < elements {
      assert buffers[i] in buffers;
    }
  }

  lemma OneMore(cfg: Config, kept: seq<Scratch>, made: Scratch)
    requires OnePerType(kept) && forall i :: 0 <= i < |kept| ==> kept[i].dtype != made.dtype
    ensures OnePerType(kept + [made])
    ensures BufferBytes(cfg, kept + [made]) == BufferBytes(cfg, kept) + Bytes(cfg, made.elements, made.dtype)
    ensures forall b :: b in kept + [made] <==> b in kept || b == made
  {
    hide Bytes, BufferBytes;
    MoreBytes(cfg, kept, made);
  }

  lemma NoneFits(buffers: seq<Scratch>, count: nat, dtype: Dtype, kept: seq<Scratch>, elements: nat)
    requires !Fits(buffers, count, dtype) && count <= elements
    requires forall b :: b in kept ==> b in buffers && (b.dtype == dtype ==> b.elements >= elements)
    ensures forall i :: 0 <= i < |kept| ==> kept[i].dtype != dtype
  {
    forall i | 0 <= i < |kept| ensures kept[i].dtype != dtype { assert kept[i] in buffers; }
  }

  /** Clearing drops every buffer nobody is reading from, and no other. */
  lemma ClearKeeps(cfg: Config, st: State)
    requires Wf(cfg, st)
    ensures Wf(cfg, ClearedPool(cfg, st)) && ClearedPool(cfg, st).leases == st.leases
    ensures ClearedPool(cfg, st).buffers == [] && ClearedPool(cfg, st).nextSlot == st.nextSlot
    ensures forall s :: s in ClearedPool(cfg, st).slots <==> s in st.slots && st.slots[s].leased
    ensures forall s :: s in ClearedPool(cfg, st).slots ==> ClearedPool(cfg, st).slots[s] == st.slots[s]
  {
    hide Bytes;
    SlotBytesBy(cfg, ClearedPool(cfg, st).slots, st.slots, st.nextSlot);
  }

  // ---- runs ------------------------------------------------------------------------------------------------------

  datatype Op =
    | LeaseOp(count: nat, dtype: Dtype, finished: seq<nat>)
    | ReleaseOp(lease: nat)
    | BufferOp(wanted: nat, kind: Dtype)
    | ClearOp

  function Step(cfg: Config, st: State, op: Op): State {
    match op
    case LeaseOp(count, dtype, finished) => Lease(cfg, st, count, dtype, finished).0
    case ReleaseOp(lease) => Return(st, lease)
    case BufferOp(count, dtype) => Buffer(cfg, st, count, dtype)
    case ClearOp => ClearedPool(cfg, st)
  }

  function Run(cfg: Config, ops: seq<Op>): State {
    if ops == [] then EMPTY else Step(cfg, Run(cfg, ops[..|ops| - 1]), ops[|ops| - 1])
  }

  lemma StepKeeps(cfg: Config, st: State, op: Op)
    requires Wf(cfg, st)
    ensures Wf(cfg, Step(cfg, st, op))
  {
    hide Wf, Lease, Return, Buffer, ClearedPool;
    match op
    case LeaseOp(count, dtype, finished) => LeaseKeeps(cfg, st, count, dtype, finished);
    case ReleaseOp(lease) => ReturnKeeps(cfg, st, lease);
    case BufferOp(count, dtype) => BufferKeeps(cfg, st, count, dtype);
    case ClearOp => ClearKeeps(cfg, st);
  }

  lemma {:induction false} RunWf(cfg: Config, ops: seq<Op>)
    ensures Wf(cfg, Run(cfg, ops))
    decreases |ops|
  {
    hide Step;
    if ops != [] {
      RunWf(cfg, ops[..|ops| - 1]);
      StepKeeps(cfg, Run(cfg, ops[..|ops| - 1]), ops[|ops| - 1]);
    }
  }

  /** Over any interleaving: no two unreleased leases share a slot, every one of them is on a slot that is
      still there and marked, resident bytes are the pool's total and within the budget, and at most one
      scratch buffer of each type is kept. */
  lemma RunsKeepLeases(cfg: Config, ops: seq<Op>)
    ensures var st := Run(cfg, ops);
      && (forall l, m :: l in st.leases && m in st.leases && l != m ==> st.leases[l] != st.leases[m])
      && (forall l :: l in st.leases ==> st.leases[l] in st.slots && st.slots[st.leases[l]].leased)
      && st.resident == SlotBytes(cfg, st.slots, st.nextSlot) + BufferBytes(cfg, st.buffers) <= cfg.budget
      && OnePerType(st.buffers)
  {
    hide Run;
    RunWf(cfg, ops);
  }

  // ---- the pool ----------------------------------------------------------------------------------------------------

  /** The pool as an object: flags, buffers and the byte count updated in place. */
  class HostStagingPool {
    const cfg: Config
    var slots: map<nat, Slot>
    var buffers: seq<Scratch>
    var resident: int
    var leases: map<nat, nat>
    var nextSlot: nat
    var nextLease: nat

    function St(): State
      reads this
    {
      State(slots, buffers, resident, leases, nextSlot, nextLease)
    }

    constructor (cfg: Config)
      ensures this.cfg == cfg && St() == EMPTY && Wf(cfg, St())
    {
      this.cfg := cfg;
      slots, buffers, resident, leases, nextSlot, nextLease := map[], [], 0, map[], 0, 0;
    }

    // A transfer has finished with its lease.
    method Release(lease: nat)
      requires Wf(cfg, St())
      modifies this`slots, this`leases
      ensures St() == Return(old(St()), lease) && Wf(cfg, St())
    {
      ReturnKeeps(cfg, St(), lease);
      if lease !in leases {
        return;
      }
      slots := Marked(slots, leases[lease], false);
      leases := leases - {lease};
    }

    method CheckOut(count: nat, dtype: Dtype, finished: seq<nat>) returns (lease: Option<nat>)
      requires Wf(cfg, St())
      modifies this
      ensures (St(), lease) == Lease(cfg, old(St()), count, dtype, finished) && Wf(cfg, St())
    {
      hide FreeSlot, Wf, Bytes, SizeClass;
      LeaseWf(cfg, St(), count, dtype, finished);
      if count == 0 {
        return None;
      }
      var free := FreeSlot(slots, nextSlot, count, dtype);
      if free.None? {
        Reclaim(finished);
        free := FreeSlot(slots, nextSlot, count, dtype);
      }
      if free.None? {
        var bytes := Bytes(cfg, SizeClass(count), dtype);
        if cfg.budget == 0 || resident + bytes > cfg.budget {
          return None;
        }
        slots, free := slots[nextSlot := Slot(dtype, SizeClass(count), false)], Some(nextSlot);
        resident, nextSlot := resident + bytes, nextSlot + 1;
      }
      slots := Marked(slots, free.value, true);
      leases, lease := leases[nextLease := free.value], Some(nextLease);
      nextLease := nextLease + 1;
    }

    method Reclaim(finished: seq<nat>)
      requires Wf(cfg, St())
      modifies this`slots, this`leases
      ensures St() == ReturnAll(old(St()), finished)
    {
      hide Wf, Return;
      var i := 0;
      ghost var goal := ReturnAll(St(), finished);
      assert finished[0..] == finished;
      while i < |finished|
        invariant 0 <= i <= |finished| && Wf(cfg, St()) && ReturnAll(St(), finished[i..]) == goal
      {
        assert finished[i..][1..] == finished[i + 1..];
        Release(finished[i]);
        i := i + 1;
      }
    }

    // Make sure there is a scratch buffer of this type that is long enough, if the budget allows.
    method Stage(count: nat, dtype: Dtype)
      requires Wf(cfg, St())
      modifies this`buffers, this`resident
      ensures St() == Buffer(cfg, old(St()), count, dtype) && Wf(cfg, St())
    {
      hide Wf, Superseding;
      BufferKeeps(cfg, St(), count, dtype);
      if count == 0 || cfg.budget == 0 || Fits(buffers, count, dtype) {
        return;
      }
      var elements := SizeClass(count);
      var kept := Superseding(buffers, dtype, elements);
      var reclaimed := BufferBytes(cfg, buffers) - BufferBytes(cfg, kept);
      if resident - reclaimed + Bytes(cfg, elements, dtype) > cfg.budget {
        return;
      }
      buffers := kept;
      resident := resident - reclaimed;
      buffers := buffers + [Scratch(dtype, elements)];
      resident := resident + Bytes(cfg, elements, dtype);
    }

    method Clear()
      requires Wf(cfg, St())
      modifies this
      ensures St() == ClearedPool(cfg, old(St())) && Wf(cfg, St())
    {
      ClearKeeps(cfg, St());
      buffers := [];
      slots := map s | s in slots && slots[s].leased :: slots[s];
      resident := SlotBytes(cfg, slots, nextSlot);
    }
  }
}
