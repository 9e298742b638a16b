// The asymmetric int4 quantizer, one lane at a time, over the reals: two codes to a byte.
module Quantizer {
  import opened Arithmetic
  import opened Rounding

  datatype Result<+T> = Ok(value: T) | ShapeMismatch

  const LEVELS := 15

  // ---- packing ----------------------------------------------------------------------------------

  predicate AreCodes(codes: seq<int>) {
    forall i :: 0 <= i < |codes| ==> 0 <= codes[i] <= LEVELS
  }

  // An odd number of codes is made up with a zero.
  function EvenCodes(codes: seq<int>): seq<int> {
    if |codes| % 2 == 0 then codes else codes + [0]
  }

  function Pack(codes: seq<int>): seq<int> {
    var even := EvenCodes(codes);
    seq(|even| / 2, i requires 0 <= i < |even| / 2 => even[2 * i] + 16 * even[2 * i + 1])
  }

  function Unpack(packed: seq<int>): seq<int> {
    seq(2 * |packed|, i requires 0 <= i < 2 * |packed| =>
      if i % 2 == 0 then packed[i / 2] % 16 else packed[i / 2] / 16 % 16)
  }

  /** Unpacking gives back the codes, and the zero an odd number was made up with. */
  lemma UnpackPack(codes: seq<int>)
    requires AreCodes(codes)
    ensures Unpack(Pack(codes)) == EvenCodes(codes)
    ensures |codes| % 2 == 0 <==> Unpack(Pack(codes)) == codes
  {
    var even, packed := EvenCodes(codes), Pack(codes);
    forall i | 0 <= i < |even| ensures Unpack(packed)[i] == even[i] {
      var k := i / 2;
      assert packed[k] == even[2 * k] + 16 * even[2 * k + 1];
      assert 0 <= even[2 * k] <= LEVELS && 0 <= even[2 * k + 1] <= LEVELS;
    }
  }

  // ---- groups -------------------------------------------------------------------------------------

  function Lo(s: seq<real>): (m: real)
    requires s != []
    ensures m in s && forall i :: 0 <= i < |s| ==> m <= s[i]
  {
    if |s| == 1 then s[0] else var m := Lo(s[1..]); if s[0] <= m then s[0] else m
  }

  function Hi(s: seq<real>): (m: real)
    requires s != []
    ensures m in s && forall i :: 0 <= i < |s| ==> s[i] <= m
  {
    if |s| == 1 then s[0] else var m := Hi(s[1..]); if s[0] >= m then s[0] else m
  }

  function GroupFor(length: nat, groupSize: nat): (g: nat)
    requires groupSize >= 2
    ensures 1 <= g <= groupSize && (length >= 2 ==> g >= 2)
  {
    if length == 0 || groupSize < length then groupSize else length
  }

  function Padding(length: int, group: nat): (r: nat)
    requires group > 0 && length >= 0
    ensures r < group && (length + r) % group == 0
  {
    PaddingWorks(length, group);
    (-length) % group
  }

  lemma PaddingWorks(length: int, group: nat)
    requires group > 0
    ensures (length + (-length) % group) % group == 0
  {
    var k := (-length) / group;
    assert length + (-length) % group == (-k) * group + 0;
    Divides(length + (-length) % group, group, -k, 0);
  }

  // Which group an index falls in; of a length, how many whole groups it holds.
  function GroupNo(i: nat, group: nat): nat
    requires group > 0
  {
    i / group
  }

  predicate Whole(n: nat, group: nat)
    requires group > 0
  {
    n % group == 0
  }

  // Padded by repeating the last element.
  function Pad(lane: seq<real>, group: nat): (r: seq<real>)
    requires group > 0
    ensures |r| == |lane| + Padding(|lane|, group) && Whole(|r|, group)
    ensures lane <= r && forall i :: |lane| <= i < |r| ==> lane != [] && r[i] == lane[|lane| - 1]
  {
    if lane == [] then [] else lane + seq(Padding(|lane|, group), _ => lane[|lane| - 1])
  }

  // The k-th group of a lane whose last group may be short.
  function GroupOf(lane: seq<real>, group: nat, k: nat): (g: seq<real>)
    requires group > 0 && k * group < |lane|
    ensures 1 <= |g| <= group
  {
    lane[k * group..if (k + 1) * group <= |lane| then (k + 1) * group else |lane|]
  }

  // Repeating an element that is there cannot move an extreme.
  lemma SameExtremes(a: seq<real>, b: seq<real>)
    requires a != [] && a <= b && forall i :: |a| <= i < |b| ==> b[i] == a[|a| - 1]
    ensures Lo(b) == Lo(a) && Hi(b) == Hi(a)
  {
    var lo, hi :| 0 <= lo < |b| && b[lo] == Lo(b) && 0 <= hi < |b| && b[hi] == Hi(b);
    assert Lo(b) in a by { assert Lo(b) == a[if lo < |a| then lo else |a| - 1]; }
    assert Hi(b) in a by { assert Hi(b) == a[if hi < |a| then hi else |a| - 1]; }
    var lo', hi' :| 0 <= lo' < |a| && a[lo'] == Lo(a) && 0 <= hi' < |a| && a[hi'] == Hi(a);
    assert b[lo'] == Lo(a) && b[hi'] == Hi(a);
  }

  lemma GroupSpans(s: seq<real>, group: nat, k: nat)
    requires group > 0 && k * group < |s|
    ensures var start, end := k * group, if k * group + group <= |s| then k * group + group else |s|;
      GroupOf(s, group, k) == s[start..end]
  {
    Distributes(k, 1, group);
  }

  // A short last group is made up with its own last element.
  lemma GroupGrows(lane: seq<real>, padded: seq<real>, start: nat, e1: nat, e2: nat)
    requires start < e1 <= |lane| && e1 <= e2 <= |padded| && lane <= padded && (e1 < |lane| ==> e2 == e1)
    requires forall i :: |lane| <= i < |padded| ==> padded[i] == lane[|lane| - 1]
    ensures var a, b := lane[start..e1], padded[start..e2];
      a != [] && a <= b && forall i :: |a| <= i < |b| ==> b[i] == a[|a| - 1]
  {}

  /** Padding leaves every group's extremes as its real elements have them. */
  lemma PaddingKeepsExtremes(lane: seq<real>, group: nat, k: nat)
    requires group > 0 && k * group < |lane|
    ensures k * group < |Pad(lane, group)|
    ensures Lo(GroupOf(Pad(lane, group), group, k)) == Lo(GroupOf(lane, group, k))
    ensures Hi(GroupOf(Pad(lane, group), group, k)) == Hi(GroupOf(lane, group, k))
  {
    hide Lo, Hi, Pad, GroupOf, Whole;
    var padded, start := Pad(lane, group), k * group;
    GroupSpans(lane, group, k);
    GroupSpans(padded, group, k);
    var e1 := if start + group <= |lane| then start + group else |lane|;
    var e2 := if start + group <= |padded| then start + group else |padded|;
    GroupGrows(lane, padded, start, e1, e2);
    SameExtremes(lane[start..e1], padded[start..e2]);
  }

  // ---- one value ------------------------------------------------------------------------------------

  function ScaleOf(lo: real, hi: real): (s: real)
    requires lo <= hi
    ensures s > 0.0
  {
    var scale := (hi - lo) / LEVELS as real;
    if scale > 0.0 then scale else 1.0
  }

  function CodeOf(x: real, lo: real, scale: real): (c: int)
    requires scale > 0.0
    ensures 0 <= c <= LEVELS
  {
    var c := RoundHalfEven((x - lo) / scale);
    if c < 0 then 0 else if c > LEVELS then LEVELS else c
  }

  function Back(code: int, lo: real, scale: real): real {
    code as real * scale + lo
  }

  // What `x` comes back as from a group with these extremes.
  function Restored(x: real, lo: real, hi: real): real
    requires lo <= hi
  {
    Back(CodeOf(x, lo, ScaleOf(lo, hi)), lo, ScaleOf(lo, hi))
  }

  lemma Monotone(a: real, b: real, scale: real)
    requires scale > 0.0 && a <= b
    ensures a * scale <= b * scale
  {}

  lemma ScaledBack(code: int, d: real, scale: real)
    requires scale > 0.0 && d / scale - 0.5 <= code as real <= d / scale + 0.5
    ensures d - scale / 2.0 <= code as real * scale <= d + scale / 2.0
  {
    var q := d / scale;
    assert q * scale == d;
    Monotone(q - 0.5, code as real, scale);
    Monotone(code as real, q + 0.5, scale);
    assert (q - 0.5) * scale == q * scale - 0.5 * scale && (q + 0.5) * scale == q * scale + 0.5 * scale;
  }

  lemma QuotientInRange(d: real, scale: real)
    requires scale > 0.0 && 0.0 <= d <= 15.0 * scale
    ensures 0.0 <= d / scale <= 15.0
  {}

  /** Every value comes back within a thirtieth of its group's range, and exactly when there is none. */
  lemma RestoredIsClose(x: real, lo: real, hi: real)
    requires lo <= x <= hi
    ensures -(hi - lo) / 30.0 <= Restored(x, lo, hi) - x <= (hi - lo) / 30.0
    ensures lo == hi ==> Restored(x, lo, hi) == x
  {
    var scale := ScaleOf(lo, hi);
    QuotientInRange(x - lo, scale);
    var c := CodeOf(x, lo, scale);
    ScaledBack(c, x - lo, scale);
  }

  // ---- a lane -----------------------------------------------------------------------------------------

  datatype Coded = Coded(packed: seq<int>, scale: seq<real>, zero: seq<real>, group: nat, length: nat, padding: nat)

  function Zeros(padded: seq<real>, group: nat): (z: seq<real>)
    requires group > 0 && Whole(|padded|, group)
    ensures |z| == GroupNo(|padded|, group)
  {
    seq(GroupNo(|padded|, group), k requires 0 <= k < GroupNo(|padded|, group) =>
      (InGroups(padded, group, k); Lo(GroupOf(padded, group, k))))
  }

  function Scales(padded: seq<real>, group: nat): (s: seq<real>)
    requires group > 0 && Whole(|padded|, group)
    ensures |s| == GroupNo(|padded|, group) && forall k :: 0 <= k < |s| ==> s[k] > 0.0
  {
    seq(GroupNo(|padded|, group), k requires 0 <= k < GroupNo(|padded|, group) =>
      (InGroups(padded, group, k);
       var g := GroupOf(padded, group, k); ScaleOf(Lo(g), Hi(g))))
  }

  lemma InGroups(s: seq<real>, group: nat, k: nat)
    requires group > 0 && k < GroupNo(|s|, group)
    ensures k * group < |s|
  {
    IndexInGroups(k, GroupNo(|s|, group), group);
  }

  lemma IndexInGroups(k: nat, n: nat, group: nat)
    requires k < n && group > 0
    ensures k * group + group <= n * group
  {
    assert (k + 1) * group <= n * group;
  }

  function Codes(padded: seq<real>, group: nat): (c: seq<int>)
    requires group > 0 && Whole(|padded|, group)
    ensures |c| == |padded| && AreCodes(c)
  {
    var zero, scale := Zeros(padded, group), Scales(padded, group);
    seq(|padded|, i requires 0 <= i < |padded| =>
      (GroupIndex(i, |padded|, group); CodeOf(padded[i], zero[GroupNo(i, group)], scale[GroupNo(i, group)])))
  }

  lemma GroupIndex(i: nat, n: nat, group: nat)
    requires group > 0 && Whole(n, group) && i < n
    ensures 0 <= GroupNo(i, group) < GroupNo(n, group)
      && GroupNo(i, group) * group <= i < (GroupNo(i, group) + 1) * group <= n
  {
    var k, m := GroupNo(i, group), GroupNo(n, group);
    assert n == m * group && i == k * group + i % group;
    if k >= m {
      IndexInGroupsBack(m, k, group);
    }
    IndexInGroups(k, m, group);
  }

  lemma IndexInGroupsBack(m: nat, k: nat, group: nat)
    requires m <= k
    ensures m * group <= k * group
  {}

  function Encode(lane: seq<real>, groupSize: nat): Coded
    requires groupSize >= 2
  {
    var group := GroupFor(|lane|, groupSize);
    var padded := Pad(lane, group);
    Coded(Pack(Codes(padded, group)), Scales(padded, group), Zeros(padded, group), group, |lane|, Padding(|lane|, group))
  }

  // The codes regrouped, scaled and shifted. Codes that do not fill whole groups cannot be reshaped,
  // and scales that do not match the groups cannot be broadcast unless there is just one.
  function Decode(c: Coded): Result<seq<real>>
    requires c.group > 0 && |c.scale| == |c.zero|
  {
    var codes := Unpack(c.packed);
    var groups := GroupNo(|codes|, c.group);
    if !Whole(|codes|, c.group) || (|c.scale| != groups && |c.scale| != 1) || c.padding > |codes| then ShapeMismatch
    else
      var restored := seq(|codes|, i requires 0 <= i < |codes| =>
        (GroupIndex(i, |codes|, c.group);
         var k := if |c.scale| == 1 then 0 else GroupNo(i, c.group); Back(codes[i], c.zero[k], c.scale[k])));
      Ok(restored[..|codes| - c.padding])
  }

  function PaddedLength(length: nat, groupSize: nat): nat
    requires groupSize >= 2
  {
    length + Padding(length, GroupFor(length, groupSize))
  }

  // Element `i` of a lane as it comes back: within its own group's true extremes.
  function RestoredAt(lane: seq<real>, groupSize: nat, i: nat): real
    requires groupSize >= 2 && i < |lane|
  {
    var group := GroupFor(|lane|, groupSize);
    var g := GroupOf(lane, group, GroupNo(i, group));
    Restored(lane[i], Lo(g), Hi(g))
  }

  function RestoredLane(lane: seq<real>, groupSize: nat): (r: seq<real>)
    requires groupSize >= 2
    ensures |r| == |lane|
  {
    seq(|lane|, i requires 0 <= i < |lane| => RestoredAt(lane, groupSize, i))
  }

  // A value of the padded lane is coded against its group's true extremes.
  lemma CodedAgainstGroup(lane: seq<real>, groupSize: nat, i: nat)
    requires groupSize >= 2 && i < |lane|
    ensures var group := GroupFor(|lane|, groupSize);
      var padded := Pad(lane, group);
      && GroupNo(i, group) < GroupNo(|padded|, group)
      && Back(Codes(padded, group)[i], Zeros(padded, group)[GroupNo(i, group)], Scales(padded, group)[GroupNo(i, group)])
         == RestoredAt(lane, groupSize, i)
  {
    hide Lo, Hi, CodeOf, ScaleOf, GroupOf, Back, GroupNo, Whole;
    var group := GroupFor(|lane|, groupSize);
    var padded := Pad(lane, group);
    GroupIndex(i, |padded|, group);
    PaddingKeepsExtremes(lane, group, GroupNo(i, group));
    assert padded[i] == lane[i];
  }

  /** Quantizing and restoring a lane: it comes back whole, each element restored within its own group,
      exactly when the padded length is even. Otherwise the made-up code breaks the reshape. */
  lemma DecodeEncode(lane: seq<real>, groupSize: nat)
    requires groupSize >= 2
    ensures PaddedLength(|lane|, groupSize) % 2 == 0
      ==> Decode(Encode(lane, groupSize)) == Ok(RestoredLane(lane, groupSize))
    ensures PaddedLength(|lane|, groupSize) % 2 != 0 && |lane| > 1 ==> Decode(Encode(lane, groupSize)) == ShapeMismatch
    ensures |lane| == 1 ==> Decode(Encode(lane, groupSize)) == Ok([lane[0], lane[0]])
  {
    hide Decode, Encode, RestoredLane;
    var group := GroupFor(|lane|, groupSize);
    assert |Pad(lane, group)| == PaddedLength(|lane|, groupSize);
    if |Pad(lane, group)| % 2 == 0 {
      EvenLane(lane, groupSize);
    } else if |lane| > 1 {
      OddLane(lane, groupSize);
    }
    if |lane| == 1 {
      SingleLane(lane, groupSize);
    }
  }

  lemma DecodesTo(c: Coded, codes: seq<int>, r: seq<real>)
    requires c.group > 0 && |c.scale| == |c.zero| == GroupNo(|codes|, c.group) && Whole(|codes|, c.group)
    requires Unpack(c.packed) == codes && |r| == |codes| - c.padding
    requires forall i :: 0 <= i < |r| ==>
      0 <= GroupNo(i, c.group) < |c.scale| && r[i]
        == Back(codes[i], c.zero[GroupNo(i, c.group)], c.scale[GroupNo(i, c.group)])
    ensures Decode(c) == Ok(r)
  {
    hide Unpack, Back, GroupNo, Whole;
    assert forall i :: 0 <= i < |r| ==> r[i] == Decode(c).value[i];
    assert Decode(c).value == r;
  }

  lemma EvenLane(lane: seq<real>, groupSize: nat)
    requires groupSize >= 2 && |Pad(lane, GroupFor(|lane|, groupSize))| % 2 == 0
    ensures Decode(Encode(lane, groupSize)) == Ok(RestoredLane(lane, groupSize))
  {
    hide Lo, Hi, CodeOf, ScaleOf, GroupOf, Back, RestoredAt, Codes, Zeros, Scales, Pack, Unpack, Decode, GroupNo, Whole;
    var group := GroupFor(|lane|, groupSize);
    var padded := Pad(lane, group);
    var codes := Codes(padded, group);
    UnpackPack(codes);
    forall i | 0 <= i < |lane|
      ensures 0 <= GroupNo(i, group) < GroupNo(|padded|, group)
      ensures RestoredLane(lane, groupSize)[i]
        == Back(codes[i], Zeros(padded, group)[GroupNo(i, group)], Scales(padded, group)[GroupNo(i, group)])
    {
      CodedAgainstGroup(lane, groupSize, i);
    }
    DecodesTo(Encode(lane, groupSize), codes, RestoredLane(lane, groupSize));
  }

  lemma OddLane(lane: seq<real>, groupSize: nat)
    requires groupSize >= 2 && |lane| > 1 && |Pad(lane, GroupFor(|lane|, groupSize))| % 2 == 1
    ensures Decode(Encode(lane, groupSize)) == ShapeMismatch
  {
    hide Lo, Hi, CodeOf, ScaleOf, GroupOf, Back, Codes, Zeros, Scales, Pack, Unpack;
    var group := GroupFor(|lane|, groupSize);
    var codes := Codes(Pad(lane, group), group);
    UnpackPack(codes);
    OneOver(|codes|, group);
  }

  lemma OneOver(n: nat, group: nat)
    requires group >= 2 && Whole(n, group)
    ensures !Whole(n + 1, group)
  {
    Divides(n + 1, group, GroupNo(n, group), 1);
  }

  lemma SingleGroup(x: real)
    ensures Pad([x], 1) == [x] && Padding(1, 1) == 0 && GroupNo(1, 1) == 1 && GroupNo(0, 1) == 0 && Whole(1, 1)
    ensures GroupOf([x], 1, 0) == [x] && Lo([x]) == x && Hi([x]) == x
  {}

  lemma SingleCoded(x: real, groupSize: nat)
    requires groupSize >= 2
    ensures Encode([x], groupSize) == Coded(Pack([0]), [1.0], [x], 1, 1, 0)
  {
    SingleGroup(x);
    SameCode(x);
    hide Pack, Lo, Hi, GroupOf, Pad, CodeOf;
    assert Zeros([x], 1) == [x];
    assert Scales([x], 1) == [1.0];
    assert Codes([x], 1) == [0];
  }

  // A lane of one value is its own group, and the made-up code decodes to the same value again.
  lemma SingleLane(lane: seq<real>, groupSize: nat)
    requires groupSize >= 2 && |lane| == 1
    ensures Decode(Encode(lane, groupSize)) == Ok([lane[0], lane[0]])
  {
    var x := lane[0];
    assert lane == [x];
    SingleCoded(x, groupSize);
    UnpackPack([0]);
    hide Encode, Pack, Unpack;
    var c := Coded(Pack([0]), [1.0], [x], 1, 1, 0);
    assert Whole(2, 1) && GroupNo(2, 1) == 2;
    assert Back(0, x, 1.0) == x;
    assert Decode(c).value == [x, x];
  }

  lemma SameCode(x: real)
    ensures CodeOf(x, x, 1.0) == 0
  {}

  /** In exact arithmetic an element comes back within a thirtieth of its own group's range. */
  lemma LaneIsClose(lane: seq<real>, groupSize: nat, i: nat)
    requires groupSize >= 2 && i < |lane|
    ensures var group := GroupFor(|lane|, groupSize);
      GroupNo(i, group) * group < |lane|
    ensures var group := GroupFor(|lane|, groupSize);
      var g := GroupOf(lane, group, GroupNo(i, group));
      && -(Hi(g) - Lo(g)) / 30.0 <= RestoredAt(lane, groupSize, i) - lane[i] <= (Hi(g) - Lo(g)) / 30.0
      && (Lo(g) == Hi(g) ==> RestoredAt(lane, groupSize, i) == lane[i])
  {
    hide Restored;
    var group := GroupFor(|lane|, groupSize);
    var g := GroupOf(lane, group, GroupNo(i, group));
    assert lane[i] == g[i - GroupNo(i, group) * group];
    RestoredIsClose(lane[i], Lo(g), Hi(g));
  }
}
