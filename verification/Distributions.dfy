// Finite probability vectors over a vocabulary, in exact real arithmetic, and finite
// randomized programs over them: trees whose inner nodes consume randomness. A program has a mean for
// every function of its result, and runs on a tape of uniform draws; the two meanings share one syntax.
module Distributions {

  function Sum(d: seq<real>): real {
    if d == [] then 0.0 else d[0] + Sum(d[1..])
  }

  function Dot(d: seq<real>, g: seq<real>): real
    requires |d| == |g|
  {
    if d == [] then 0.0 else d[0] * g[0] + Dot(d[1..], g[1..])
  }

  ghost predicate IsDist(d: seq<real>, n: nat) {
    && |d| == n
    && (forall t :: 0 <= t < n ==> d[t] >= 0.0)
    && Sum(d) == 1.0
  }

  function OneHot(hot: nat, n: nat): (d: seq<real>)
    ensures |d| == n
  {
    seq(n, t => if t == hot then 1.0 else 0.0)
  }

  // The first index holding the largest logit.
  function ArgMax(logits: seq<real>): (a: nat)
    requires |logits| > 0
    ensures a < |logits|
    ensures forall t :: 0 <= t < |logits| ==> logits[t] <= logits[a]
    ensures forall t :: 0 <= t < a ==> logits[t] < logits[a]
  {
    if |logits| == 1 then 0
    else
      var a := ArgMax(logits[..|logits| - 1]);
      if logits[|logits| - 1] > logits[a] then |logits| - 1 else a
  }

  lemma {:induction false} SumConst0(d: seq<real>)
    requires forall t :: 0 <= t < |d| ==> d[t] == 0.0
    ensures Sum(d) == 0.0
  {
    if d != [] { SumConst0(d[1..]); }
  }

  lemma {:induction false} SumOneHot(hot: nat, n: nat)
    requires hot < n
    ensures IsDist(OneHot(hot, n), n)
  {
    var d := OneHot(hot, n);
    if hot == 0 {
      SumConst0(d[1..]);
    } else {
      SumOneHot(hot - 1, n - 1);
      assert d[1..] == OneHot(hot - 1, n - 1);
    }
  }

  // Weighted sums against a constant vector.
  lemma {:induction false} DotConst(d: seq<real>, g: seq<real>, c: real)
    requires |d| == |g|
    requires forall t :: 0 <= t < |d| ==> g[t] == c
    ensures Dot(d, g) == Sum(d) * c
  {
    if d != [] {
      DotConst(d[1..], g[1..], c);
      assert Dot(d, g) == d[0] * c + Sum(d[1..]) * c == (d[0] + Sum(d[1..])) * c;
    }
  }

  // Rescaling every weight rescales the weighted sum.
  lemma {:induction false} DotScale(d: seq<real>, e: seq<real>, g: seq<real>, c: real)
    requires |d| == |g| == |e|
    requires forall t :: 0 <= t < |d| ==> e[t] == c * d[t]
    ensures Dot(e, g) == c * Dot(d, g)
    ensures Sum(e) == c * Sum(d)
  {
    if d != [] {
      DotScale(d[1..], e[1..], g[1..], c);
      assert e[0] == c * d[0];
      Distribute(c, d[0] * g[0], Dot(d[1..], g[1..]));
      Distribute(c, d[0], Sum(d[1..]));
      Associate(c, d[0], g[0]);
    }
  }

  // Mixing: if h[t] = b * g[t] + r pointwise then the weighted sums mix the same way.
  lemma {:induction false} DotAffine(d: seq<real>, g: seq<real>, h: seq<real>, b: real, r: real)
    requires |d| == |g| == |h|
    requires forall t :: 0 <= t < |d| ==> h[t] == b * g[t] + r
    ensures Dot(d, h) == b * Dot(d, g) + r * Sum(d)
  {
    if d != [] {
      assert h[0] == b * g[0] + r;
      DotAffine(d[1..], g[1..], h[1..], b, r);
    }
  }

  predicate SplitsAs(d: real, h: real, m: real, s: real, e: real, r: real) {
    d * h == m * s + e * r
  }

  // A weighted sum whose terms split into two others, one of them a constant `r`.
  lemma {:induction false} DotSplit(d: seq<real>, h: seq<real>, m: seq<real>, e: seq<real>, s: seq<real>, r: real,
                                    mass: real, rest: real)
    requires |d| == |h| == |m| == |e| == |s|
    requires forall t :: 0 <= t < |d| ==> SplitsAs(d[t], h[t], m[t], s[t], e[t], r)
    requires Sum(e) == mass && mass * r == rest
    ensures Dot(d, h) == Dot(m, s) + rest
  {
    if d != [] {
      assert SplitsAs(d[0], h[0], m[0], s[0], e[0], r);
      var mass', rest' := Sum(e[1..]), Sum(e[1..]) * r;
      Distribute(r, e[0], mass');
      DotSplit(d[1..], h[1..], m[1..], e[1..], s[1..], r, mass', rest');
    }
  }

  lemma {:induction false} DotAdd(a: seq<real>, b: seq<real>, d: seq<real>, s: seq<real>)
    requires |a| == |b| == |d| == |s|
    requires forall t :: 0 <= t < |d| ==> d[t] == a[t] + b[t]
    ensures Dot(d, s) == Dot(a, s) + Dot(b, s)
    ensures Sum(d) == Sum(a) + Sum(b)
  {
    if d != [] {
      DotAdd(a[1..], b[1..], d[1..], s[1..]);
      assert d[0] == a[0] + b[0];
      Distribute(s[0], a[0], b[0]);
    }
  }

  lemma {:induction false} SumZeroMeansZero(d: seq<real>)
    requires forall t :: 0 <= t < |d| ==> d[t] >= 0.0
    ensures Sum(d) >= 0.0
    ensures Sum(d) <= 0.0 ==> forall t :: 0 <= t < |d| ==> d[t] == 0.0
  {
    if d != [] {
      SumZeroMeansZero(d[1..]);
      assert forall t :: 0 < t < |d| ==> d[t] == d[1..][t - 1];
    }
  }

  lemma Distribute(a: real, b: real, c: real)
    ensures a * (b + c) == a * b + a * c
    ensures (b + c) * a == b * a + c * a
  {}

  lemma Associate(a: real, b: real, c: real)
    ensures (a * b) * c == a * (b * c)
  {}

  /** A finite randomized program. `Flip` compares a uniform draw with `ratio`; `Draw` samples an
      index from a probability vector. */
  datatype Prog<+T> =
    | Ret(value: T)
    | Flip(ratio: real, yes: Prog<T>, no: Prog<T>)
    | Draw(dist: seq<real>, next: seq<Prog<T>>)

  ghost predicate WellFormed<T(!new)>(p: Prog<T>)
    decreases p
  {
    match p
    case Ret(_) => true
    case Flip(r, yes, no) => 0.0 < r < 1.0 && WellFormed(yes) && WellFormed(no)
    case Draw(d, next) => |next| > 0 && IsDist(d, |next|) && forall t :: 0 <= t < |next| ==> WellFormed(next[t])
  }

  // A step that succeeds with probability `b`, worth `s` if it does and `r` if it does not.
  function Mixed(b: real, s: real, r: real): real {
    b * s + (1.0 - b) * r
  }

  // Expected value of `f` over the program's outcomes.
  ghost function Expect<T(!new)>(p: Prog<T>, f: T -> real): real
    decreases p
  {
    match p
    case Ret(v) => f(v)
    case Flip(r, yes, no) => Mixed(r, Expect(yes, f), Expect(no, f))
    case Draw(d, next) =>
      if |d| != |next| then 0.0
      else Dot(d, Expects(next, f))
  }

  ghost function Expects<T(!new)>(next: seq<Prog<T>>, f: T -> real): (es: seq<real>)
    ensures |es| == |next|
    decreases next
  {
    seq(|next|, t requires 0 <= t < |next| => Expect(next[t], f))
  }

  // Inverse-transform sampling: the first index at which the cumulative mass exceeds `u`.
  function Pick(d: seq<real>, u: real): (t: nat)
    requires |d| > 0
    ensures t < |d|
  {
    if |d| == 1 || u < d[0] then 0 else 1 + Pick(d[1..], u - d[0])
  }

  // The run of a program on a given tape of uniform draws: its value and how far it read.
  function Run<T(!new)>(p: Prog<T>, tape: nat -> real, pos: nat): (T, nat)
    requires WellFormed(p)
    decreases p
  {
    match p
    case Ret(v) => (v, pos)
    case Flip(r, yes, no) => if tape(pos) < r then Run(yes, tape, pos + 1) else Run(no, tape, pos + 1)
    case Draw(d, next) =>
      Run(next[Pick(d, tape(pos))], tape, pos + 1)
  }

  lemma {:induction false} PickOneHot(hot: nat, n: nat, u: real)
    requires hot < n && 0.0 <= u < 1.0
    ensures Pick(OneHot(hot, n), u) == hot
  {
    var d := OneHot(hot, n);
    if hot > 0 {
      assert d[1..] == OneHot(hot - 1, n - 1);
      PickOneHot(hot - 1, n - 1, u);
    }
  }

  // Sampling never returns an outcome of probability zero.
  lemma {:induction false} PickSupport(d: seq<real>, u: real)
    requires |d| > 0 && 0.0 <= u < Sum(d)
    requires forall t :: 0 <= t < |d| ==> d[t] >= 0.0
    ensures d[Pick(d, u)] > 0.0
  {
    if |d| > 1 && u >= d[0] {
      PickSupport(d[1..], u - d[0]);
    } else if |d| == 1 {
      assert Sum(d) == d[0] + Sum(d[1..]) == d[0];
    }
  }

  lemma SumFrom(d: seq<real>, t: nat)
    requires 0 < t <= |d|
    ensures Sum(d[..t]) == d[0] + Sum(d[1..][..t - 1])
  {
    assert d[..t][1..] == d[1..][..t - 1];
  }

  /** Outcome `t` comes out for the draws of an interval as long as its probability. */
  lemma {:induction false} PickIsInterval(d: seq<real>, u: real, t: nat)
    requires t < |d| && 0.0 <= u < Sum(d) && forall i :: 0 <= i < |d| ==> d[i] >= 0.0
    ensures Pick(d, u) == t <==> Sum(d[..t]) <= u < Sum(d[..t + 1])
    ensures Sum(d[..t + 1]) == Sum(d[..t]) + d[t]
    decreases |d|
  {
    SumFrom(d, t + 1);
    if t > 0 {
      SumFrom(d, t);
      if u >= d[0] {
        PickIsInterval(d[1..], u - d[0], t - 1);
      } else {
        PrefixIsSome(d[1..], t - 1);
        PrefixSteps(d, t);
      }
    } else {
      assert d[1..][..0] == [] && d[..0] == [];
      if |d| == 1 { assert d[1..] == []; }
    }
  }

  lemma {:induction false} PrefixIsSome(d: seq<real>, t: nat)
    requires t <= |d| && forall i :: 0 <= i < |d| ==> d[i] >= 0.0
    ensures Sum(d[..t]) >= 0.0
  {
    if t > 0 {
      SumFrom(d, t);
      PrefixIsSome(d[1..], t - 1);
    }
  }

  lemma {:induction false} PrefixSteps(d: seq<real>, t: nat)
    requires t < |d|
    ensures Sum(d[..t + 1]) == Sum(d[..t]) + d[t]
  {
    SumFrom(d, t + 1);
    if t > 0 {
      SumFrom(d, t);
      PrefixSteps(d[1..], t - 1);
    } else {
      assert d[1..][..0] == [] && d[..0] == [];
    }
  }

  // Take `yes` with probability `ratio`, clamped to [0, 1]; settled cases consume no randomness.
  function Decide<T>(ratio: real, yes: Prog<T>, no: Prog<T>): Prog<T> {
    if ratio >= 1.0 then yes else if ratio > 0.0 then Flip(ratio, yes, no) else no
  }

  function Clamp(ratio: real): real {
    if ratio >= 1.0 then 1.0 else if ratio > 0.0 then ratio else 0.0
  }

  // Whether a decision at `ratio` comes out yes on this tape, and how much tape it used.
  function Decided(ratio: real, tape: nat -> real, pos: nat): (bool, nat) {
    if ratio >= 1.0 then (true, pos) else if ratio > 0.0 then (tape(pos) < ratio, pos + 1) else (false, pos)
  }

  /** A decision comes out yes for the draws of an interval as long as its probability, and a settled one reads
      no draw. */
  lemma DecidedIsInterval(ratio: real, tape: nat -> real, pos: nat)
    requires 0.0 <= tape(pos) < 1.0
    ensures Decided(ratio, tape, pos).0 <==> tape(pos) < Clamp(ratio)
    ensures Decided(ratio, tape, pos).1 == pos <==> Clamp(ratio) == 0.0 || Clamp(ratio) == 1.0
    ensures 0.0 <= Clamp(ratio) <= 1.0 && (0.0 <= ratio <= 1.0 ==> Clamp(ratio) == ratio)
  {}

  lemma RunDecide<T(!new)>(ratio: real, yes: Prog<T>, no: Prog<T>, tape: nat -> real, pos: nat)
    requires WellFormed(yes) && WellFormed(no)
    ensures WellFormed(Decide(ratio, yes, no))
    ensures Run(Decide(ratio, yes, no), tape, pos)
         == if Decided(ratio, tape, pos).0 then Run(yes, tape, Decided(ratio, tape, pos).1)
            else Run(no, tape, Decided(ratio, tape, pos).1)
  {}
}
