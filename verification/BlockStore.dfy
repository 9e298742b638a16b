// Host copies of quantized blocks, shared by the checkpoints that name them and counted by reference.
module BlockStore {

  datatype Slot<P> = Slot(payload: P, refs: int, size: nat)

  datatype Store<P> = Store(slots: map<nat, Slot<P>>, next: nat, bytes: int)

  function Empty<P>(): Store<P> {
    Store(map[], 0, 0)
  }

  // The sizes of the slots below `n`, added up.
  function SizeBelow<P>(slots: map<nat, Slot<P>>, n: nat): nat {
    if n == 0 then 0 else SizeBelow(slots, n - 1) + if n - 1 in slots then slots[n - 1].size else 0
  }

  // Keys are handed out in order, and the byte counter is the sum of what is held.
  ghost predicate Valid<P>(s: Store<P>) {
    (forall k :: k in s.slots ==> k < s.next) && s.bytes == SizeBelow(s.slots, s.next)
  }

  predicate Live<P>(s: Store<P>, keys: seq<nat>) {
    forall i :: 0 <= i < |keys| ==> keys[i] in s.slots
  }

  function Payloads<P>(s: Store<P>, keys: seq<nat>): (r: seq<P>)
    requires Live(s, keys)
    ensures |r| == |keys|
  {
    seq(|keys|, i requires 0 <= i < |keys| => s.slots[keys[i]].payload)
  }

  function Insert<P>(s: Store<P>, payload: P, size: nat): Store<P> {
    Store(s.slots[s.next := Slot(payload, 0, size)], s.next + 1, s.bytes + size)
  }

  // Only for keys that are there; `AcquireOrRaise` stops at the first that is not.
  function AcquireOne<P>(s: Store<P>, k: nat): Store<P> {
    if k in s.slots then s.(slots := s.slots[k := s.slots[k].(refs := s.slots[k].refs + 1)]) else s
  }

  function Acquire<P>(s: Store<P>, keys: seq<nat>): Store<P>
    decreases |keys|
  {
    if keys == [] then s else Acquire(AcquireOne(s, keys[0]), keys[1..])
  }

  // Raise the counts one after another, up to the first key that is not there; and whether all were.
  function AcquireOrRaise<P>(s: Store<P>, keys: seq<nat>): (Store<P>, bool)
    decreases |keys|
  {
    if keys == [] then (s, true)
    else if keys[0] !in s.slots then (s, false)
    else AcquireOrRaise(AcquireOne(s, keys[0]), keys[1..])
  }

  function ReleaseOne<P>(s: Store<P>, k: nat): Store<P> {
    if k !in s.slots then s
    else if s.slots[k].refs <= 1 then s.(slots := s.slots - {k}, bytes := s.bytes - s.slots[k].size)
    else s.(slots := s.slots[k := s.slots[k].(refs := s.slots[k].refs - 1)])
  }

  function Release<P>(s: Store<P>, keys: seq<nat>): Store<P>
    decreases |keys|
  {
    if keys == [] then s else Release(ReleaseOne(s, keys[0]), keys[1..])
  }

  // ---- sums ----------------------------------------------------------------------------------------

  lemma {:induction false} SameSizes<P>(a: map<nat, Slot<P>>, b: map<nat, Slot<P>>, n: nat)
    requires forall k :: k < n ==> (k in a <==> k in b) && (k in a ==> a[k].size == b[k].size)
    ensures SizeBelow(a, n) == SizeBelow(b, n)
    decreases n
  {
    if n > 0 { SameSizes(a, b, n - 1); }
  }

  lemma {:induction false} WithoutOne<P>(slots: map<nat, Slot<P>>, k: nat, n: nat)
    requires k in slots && k < n
    ensures SizeBelow(slots - {k}, n) == SizeBelow(slots, n) - slots[k].size
    decreases n
  {
    if n - 1 == k {
      SameSizes(slots - {k}, slots, n - 1);
    } else {
      WithoutOne(slots, k, n - 1);
    }
  }

  lemma PutValid<P>(s: Store<P>, payload: P, size: nat)
    requires Valid(s)
    ensures Valid(Insert(s, payload, size)) && s.next !in s.slots
  {
    var r := Insert(s, payload, size);
    SameSizes(r.slots, s.slots, s.next);
  }

  // ---- what a batch does -------------------------------------------------------------------------

  // Every slot's count has gone up by its occurrences in `keys`.
  ghost predicate Raised<P>(s: Store<P>, r: Store<P>, keys: seq<nat>) {
    && r.next == s.next && r.bytes == s.bytes && r.slots.Keys == s.slots.Keys
    && forall k :: k in s.slots ==> r.slots[k] == s.slots[k].(refs := s.slots[k].refs + multiset(keys)[k])
  }

  lemma FirstOfKeys(keys: seq<nat>)
    requires keys != []
    ensures keys == [keys[0]] + keys[1..] && multiset(keys) == multiset{keys[0]} + multiset(keys[1..])
  {
    assert keys == [keys[0]] + keys[1..];
  }

  lemma AcquireOneValid<P>(s: Store<P>, k: nat)
    requires Valid(s)
    ensures Valid(AcquireOne(s, k))
  {
    SameSizes(AcquireOne(s, k).slots, s.slots, s.next);
  }

  lemma RaisedStep<P>(s: Store<P>, r: Store<P>, keys: seq<nat>)
    requires keys != [] && Raised(AcquireOne(s, keys[0]), r, keys[1..])
    ensures Raised(s, r, keys)
  {
    FirstOfKeys(keys);
  }

  lemma {:induction false} AcquireRaises<P>(s: Store<P>, keys: seq<nat>)
    requires Valid(s)
    ensures Raised(s, Acquire(s, keys), keys) && Valid(Acquire(s, keys))
    decreases |keys|
  {
    if keys != [] {
      hide Raised, Valid, AcquireOne;
      AcquireOneValid(s, keys[0]);
      AcquireRaises(AcquireOne(s, keys[0]), keys[1..]);
      RaisedStep(s, Acquire(s, keys), keys);
    }
  }

  // Every count has gone down by its occurrences in `keys`, and the slots that were released to nothing
  // are gone.
  ghost predicate Lowered<P>(s: Store<P>, r: Store<P>, keys: seq<nat>) {
    && r.next == s.next
    && (forall k :: k in r.slots <==> k in s.slots && (k in multiset(keys) ==> multiset(keys)[k] < s.slots[k].refs))
    && forall k :: k in r.slots ==> r.slots[k] == s.slots[k].(refs := s.slots[k].refs - multiset(keys)[k])
  }

  lemma ReleaseOneValid<P>(s: Store<P>, k: nat)
    requires Valid(s)
    ensures Valid(ReleaseOne(s, k))
  {
    if k in s.slots {
      if s.slots[k].refs <= 1 {
        WithoutOne(s.slots, k, s.next);
      } else {
        SameSizes(ReleaseOne(s, k).slots, s.slots, s.next);
      }
    }
  }

  // Every occurrence in `keys` is backed by a count.
  ghost predicate Backed<P>(s: Store<P>, keys: seq<nat>) {
    forall k :: k in multiset(keys) ==> k in s.slots && multiset(keys)[k] <= s.slots[k].refs
  }

  lemma BackedStep<P>(s: Store<P>, keys: seq<nat>)
    requires keys != [] && Backed(s, keys)
    ensures keys[0] in s.slots && s.slots[keys[0]].refs > 0 && Backed(ReleaseOne(s, keys[0]), keys[1..])
  {
    FirstOfKeys(keys);
    assert keys[0] in multiset(keys);
    forall k | k in multiset(keys[1..])
      ensures k in ReleaseOne(s, keys[0]).slots && multiset(keys[1..])[k] <= ReleaseOne(s, keys[0]).slots[k].refs
    {
      assert k in multiset(keys);
    }
  }

  lemma LoweredStep<P>(s: Store<P>, r: Store<P>, keys: seq<nat>)
    requires keys != [] && Backed(s, keys) && Lowered(ReleaseOne(s, keys[0]), r, keys[1..])
    ensures Lowered(s, r, keys)
  {
    FirstOfKeys(keys);
    assert keys[0] in multiset(keys);
  }

  lemma {:induction false} ReleaseLowers<P>(s: Store<P>, keys: seq<nat>)
    requires Valid(s) && Backed(s, keys)
    ensures Lowered(s, Release(s, keys), keys) && Valid(Release(s, keys))
    decreases |keys|
  {
    if keys != [] {
      hide Lowered, Valid, ReleaseOne, Backed;
      ReleaseOneValid(s, keys[0]);
      BackedStep(s, keys);
      ReleaseLowers(ReleaseOne(s, keys[0]), keys[1..]);
      LoweredStep(s, Release(s, keys), keys);
    }
  }

  lemma LiveStep<P>(s: Store<P>, keys: seq<nat>)
    requires keys != []
    ensures Live(s, keys) <==> keys[0] in s.slots && Live(AcquireOne(s, keys[0]), keys[1..])
  {
    var one := AcquireOne(s, keys[0]);
    if Live(s, keys) {
      forall i | 0 <= i < |keys| - 1 ensures keys[1..][i] in one.slots { assert keys[i + 1] in s.slots; }
    }
    if keys[0] in s.slots && Live(one, keys[1..]) {
      forall i | 0 <= i < |keys| ensures keys[i] in s.slots { if i > 0 { assert keys[1..][i - 1] in one.slots; } }
    }
  }

  /** Acquiring raises exactly when some key is not there, and then leaves the counts before it raised. */
  lemma {:induction false} AcquireRaisesOrStops<P>(s: Store<P>, keys: seq<nat>) returns (n: nat)
    requires Valid(s)
    ensures var (r, ok) := AcquireOrRaise(s, keys);
      && (ok <==> Live(s, keys)) && (ok ==> n == |keys|)
      && (!ok ==> n < |keys| && keys[n] !in s.slots)
      && n <= |keys| && Live(s, keys[..n]) && r == Acquire(s, keys[..n]) && Raised(s, r, keys[..n]) && Valid(r)
    decreases |keys|
  {
    n := 0;
    if keys != [] && keys[0] in s.slots {
      hide Raised, Valid, Live;
      var one := AcquireOne(s, keys[0]);
      AcquireOneValid(s, keys[0]);
      var m := AcquireRaisesOrStops(one, keys[1..]);
      n := m + 1;
      assert keys[..n] != [] && keys[..n][0] == keys[0] && keys[..n][1..] == keys[1..][..m];
      LiveStep(s, keys);
      LiveStep(s, keys[..n]);
      AcquireRaises(s, keys[..n]);
    }
  }
}
