// Speculative and plain decoding as finite randomized programs with one and the same output distribution.
module Speculation {
  import opened Distributions

  /** `do_sample`, `temperature` and, for everything that is neither, the warping of logits. */
  datatype SamplingParams = SamplingParams(doSample: bool, temperature: real, warp: seq<real> -> seq<real>) {
    predicate Greedy() {
      !doSample || temperature <= 0.0
    }

    function Distribution(logits: seq<real>): seq<real>
      requires |logits| > 0
    {
      if Greedy() then OneHot(ArgMax(logits), |logits|) else warp(logits)
    }
  }

  /** Without sampling, or at no temperature, all mass is on the first of the largest logits. */
  lemma GreedyTakesBest(s: SamplingParams, logits: seq<real>, t: nat)
    requires (!s.doSample || s.temperature <= 0.0) && t < |logits|
    ensures |s.Distribution(logits)| == |logits|
    ensures s.Distribution(logits)[t] == 1.0
       <==> (forall i :: 0 <= i < |logits| ==> logits[i] <= logits[t]) && forall i :: 0 <= i < t ==> logits[i] < logits[t]
    ensures s.Distribution(logits)[t] in {0.0, 1.0}
  {}

  /** The two models as functions from a token prefix to the probability vector that is sampled. */
  datatype Models = Models(vocab: nat, target: seq<nat> -> seq<real>, draft: seq<nat> -> seq<real>) {
    ghost predicate Valid() {
      && vocab > 0
      && (forall ctx :: IsDist(target(ctx), vocab))
      && (forall ctx :: IsDist(draft(ctx), vocab))
    }

    function P(ctx: seq<nat>): (p: seq<real>)
      requires Valid()
      ensures IsDist(p, vocab)
    {
      target(ctx)
    }

    function Q(ctx: seq<nat>): (q: seq<real>)
      requires Valid()
      ensures IsDist(q, vocab)
    {
      draft(ctx)
    }
  }

  type ValidModels = m: Models | m.Valid()
    witness Models(1, (ctx: seq<nat>) => [1.0], (ctx: seq<nat>) => [1.0])

  /** Two networks that report logits for a prefix, and the warping they share. */
  datatype Networks = Networks(vocab: nat, target: seq<nat> -> seq<real>, draft: seq<nat> -> seq<real>,
                               sampling: SamplingParams)
  {
    ghost predicate Valid() {
      && vocab > 0
      && (forall ctx :: |target(ctx)| == vocab)
      && (forall ctx :: |draft(ctx)| == vocab)
      && (!sampling.Greedy() ==> forall logits :: |logits| == vocab ==> IsDist(sampling.warp(logits), vocab))
    }

    function Warped(): (m: Models)
      requires Valid()
      ensures m.Valid()
    {
      assert forall hot: nat :: hot < vocab ==> IsDist(OneHot(hot, vocab), vocab) by {
        forall hot: nat | hot < vocab ensures IsDist(OneHot(hot, vocab), vocab) { SumOneHot(hot, vocab); }
      }
      Models(vocab,
             (ctx: seq<nat>) => sampling.Distribution(target(ctx)),
             (ctx: seq<nat>) => sampling.Distribution(draft(ctx)))
    }
  }

  /** Draft and target are sampled under the same settings. */
  lemma WarpedAlike(net: Networks, ctx: seq<nat>)
    requires net.Valid()
    ensures var m := net.Warped();
      && m.vocab == net.vocab && m.P(ctx) == net.sampling.Distribution(net.target(ctx))
      && m.Q(ctx) == net.sampling.Distribution(net.draft(ctx))
  {}

  /** The end-of-sequence tokens, and how the width follows from itself, the number of tokens proposed
      so far and the number accepted. */
  datatype Config = Config(eos: set<nat>, adapt: (nat, nat, nat) -> nat)

  /** One generation in progress: the sequence so far, how many tokens it may still emit, the
      proposal width and the counters the width is derived from. */
  datatype RunState = RunState(tokens: seq<nat>, remaining: nat, lookahead: nat,
                               passes: nat, proposed: nat, accepted: nat, emitted: nat)

  predicate InVocab(m: Models, x: seq<nat>) {
    forall i :: 0 <= i < |x| ==> x[i] < m.vocab
  }

  // ---- one pass ---------------------------------------------------------------------------------

  function Min(a: nat, b: nat): nat { if a <= b then a else b }

  function Width(st: RunState): nat
    requires st.remaining > 0
  {
    Min(st.lookahead, st.remaining - 1)
  }

  function AcceptRatio(p: real, q: real): real {
    if q > 0.0 then p / q else if p > 0.0 then 1.0 else 0.0
  }

  /** A proposal the target likes no less than the draft does is always accepted, one it rules out never, and any
      other as often as the target prefers it. */
  lemma AcceptsByRatio(p: real, q: real)
    requires p >= 0.0 && q >= 0.0
    ensures p >= q && p > 0.0 ==> AcceptRatio(p, q) >= 1.0
    ensures p == 0.0 ==> AcceptRatio(p, q) == 0.0
    ensures 0.0 < p < q ==> 0.0 < AcceptRatio(p, q) < 1.0 && AcceptRatio(p, q) * q == p
  {
    if q > 0.0 {
      QuotientTimes(p, q);
      RatioIs(p, q, AcceptRatio(p, q));
    }
  }

  lemma QuotientTimes(p: real, q: real)
    requires q > 0.0
    ensures p / q * q == p
  {}

  lemma RatioIs(p: real, q: real, r: real)
    requires p >= 0.0 && q > 0.0 && r * q == p
    ensures (r >= 1.0 <==> p >= q) && (r <= 0.0 <==> p <= 0.0) && r >= 0.0
  {
    if r >= 1.0 { Product(r - 1.0, q); } else { Product(1.0 - r, q); }
    if r < 0.0 { Product(-r, q); }
    if r > 0.0 { Product(r, q); }
    assert (r - 1.0) * q == p - q && (1.0 - r) * q == q - p && (-r) * q == -p;
  }

  lemma Product(a: real, b: real)
    requires a >= 0.0 && b > 0.0
    ensures a * b >= 0.0 && (a > 0.0 ==> a * b > 0.0)
  {}

  function Residual(p: seq<real>, q: seq<real>): (r: seq<real>)
    requires |p| == |q|
    ensures |r| == |p|
  {
    seq(|p|, t requires 0 <= t < |p| => if p[t] > q[t] then p[t] - q[t] else 0.0)
  }

  function Overlap(p: seq<real>, q: seq<real>): (r: seq<real>)
    requires |p| == |q|
    ensures |r| == |p|
  {
    seq(|p|, t requires 0 <= t < |p| => if p[t] > q[t] then q[t] else p[t])
  }

  // What a rejected proposal is replaced from.
  function ResampleDist(p: seq<real>, q: seq<real>): (r: seq<real>)
    requires |p| == |q|
    ensures |r| == |p|
  {
    var residual := Residual(p, q);
    if Sum(residual) <= 0.0 then p else Normalized(residual)
  }

  function Normalized(d: seq<real>): (e: seq<real>)
    requires Sum(d) > 0.0
    ensures |e| == |d|
  {
    seq(|d|, t requires 0 <= t < |d| => d[t] / Sum(d))
  }

  function FirstEos(x: seq<nat>, eos: set<nat>): (e: nat)
    ensures e <= |x|
    ensures forall i :: 0 <= i < e ==> x[i] !in eos
    ensures e < |x| ==> x[e] in eos
  {
    if x == [] || x[0] in eos then 0 else 1 + FirstEos(x[1..], eos)
  }

  // ---- the program -------------------------------------------------------------------------------

  function GenProg(m: ValidModels, cfg: Config, st: RunState): Prog<RunState>
    decreases st.remaining, 3, 0
  {
    if st.remaining == 0 then Ret(st) else ProposeProg(m, cfg, st, Width(st), [])
  }

  // `k` proposals are still to be drawn after `x`.
  function ProposeProg(m: ValidModels, cfg: Config, st: RunState, k: nat, x: seq<nat>): Prog<RunState>
    requires st.remaining > 0 && InVocab(m, x)
    decreases st.remaining, 2, k
  {
    if k == 0 then VerifyProg(m, cfg, st, x, 0)
    else Draw(m.Q(st.tokens + x),
              seq(m.vocab, (t: nat) requires t < m.vocab => ProposeProg(m, cfg, st, k - 1, x + [t])))
  }

  // The first `i` of the proposals `x` have been accepted.
  function VerifyProg(m: ValidModels, cfg: Config, st: RunState, x: seq<nat>, i: nat): Prog<RunState>
    requires st.remaining > 0 && InVocab(m, x) && i <= |x|
    decreases st.remaining, 1, |x| - i
  {
    var p := m.P(st.tokens + x[..i]);
    if i == |x| then Replace(m, cfg, st, x, i, p)
    else
      var q := m.Q(st.tokens + x[..i]);
      Decide(AcceptRatio(p[x[i]], q[x[i]]), VerifyProg(m, cfg, st, x, i + 1),
             Replace(m, cfg, st, x, i, ResampleDist(p, q)))
  }

  // Draw the pass's own token from `d` after `a` accepted proposals.
  function Replace(m: ValidModels, cfg: Config, st: RunState, x: seq<nat>, a: nat, d: seq<real>): Prog<RunState>
    requires st.remaining > 0 && a <= |x|
    decreases st.remaining, 0, 1
  {
    Draw(d, seq(m.vocab, (t: nat) requires t < m.vocab => Continue(m, cfg, st, |x|, x[..a] + [t])))
  }

  // The bookkeeping at the end of a pass that proposed `k` tokens and produced `y`.
  function Continue(m: ValidModels, cfg: Config, st: RunState, k: nat, y: seq<nat>): Prog<RunState>
    requires st.remaining > 0 && |y| > 0
    decreases st.remaining, 0, 0
  {
    var newTokens := y[..Min(|y|, st.remaining)];
    var next := Counted(cfg, st, k, |y| - 1, newTokens);
    if FirstEos(newTokens, cfg.eos) < |newTokens| then Ret(next) else GenProg(m, cfg, Adapted(cfg, next))
  }

  // The tokens of a pass that a caller gets to see: nothing after an end-of-sequence token.
  function Shown(y: seq<nat>, eos: set<nat>): (z: seq<nat>)
    ensures z <= y
  {
    var e := FirstEos(y, eos);
    if e < |y| then y[..e + 1] else y
  }

  // The state after a pass that proposed `k` tokens, kept `kept` of them and produced `newTokens`.
  function Counted(cfg: Config, st: RunState, k: nat, kept: nat, newTokens: seq<nat>): (next: RunState)
    requires 0 < |newTokens| <= st.remaining
    ensures next.remaining < st.remaining
  {
    RunState(st.tokens + Shown(newTokens, cfg.eos), st.remaining - |newTokens|, st.lookahead,
             st.passes + 1, st.proposed + k, st.accepted + kept, st.emitted + |newTokens|)
  }

  function Adapted(cfg: Config, st: RunState): RunState {
    st.(lookahead := cfg.adapt(st.lookahead, st.proposed, st.accepted))
  }

  // ---- plain decoding, the reference -------------------------------------------------------------

  // One target draw per token, stopping after an end-of-sequence token.
  function PlainProg(m: ValidModels, eos: set<nat>, tokens: seq<nat>, remaining: nat): Prog<seq<nat>>
    decreases remaining
  {
    if remaining == 0 then Ret(tokens)
    else Draw(m.P(tokens),
              seq(m.vocab, (t: nat) requires t < m.vocab =>
                if t in eos then Ret(tokens + [t]) else PlainProg(m, eos, tokens + [t], remaining - 1)))
  }

  // ---- the value of a partial output --------------------------------------------------------------

  // What plain decoding is worth on average once it has emitted `x` after `tokens`.
  ghost function Value(m: ValidModels, eos: set<nat>, tokens: seq<nat>, remaining: nat, x: seq<nat>,
                       f: seq<nat> -> real): real
    requires |x| <= remaining
  {
    if FirstEos(x, eos) < |x| then f(tokens + Shown(x, eos))
    else Expect(PlainProg(m, eos, tokens + x, remaining - |x|), f)
  }

  ghost function Values(m: ValidModels, eos: set<nat>, tokens: seq<nat>, remaining: nat, x: seq<nat>,
                        f: seq<nat> -> real): (vs: seq<real>)
    requires |x| < remaining
    ensures |vs| == m.vocab
  {
    seq(m.vocab, (t: nat) requires t < m.vocab => Value(m, eos, tokens, remaining, x + [t], f))
  }

  lemma {:induction false} FirstEosAppend(x: seq<nat>, t: nat, eos: set<nat>)
    ensures FirstEos(x, eos) < |x| ==> FirstEos(x + [t], eos) == FirstEos(x, eos)
    ensures FirstEos(x, eos) == |x| ==> FirstEos(x + [t], eos) == if t in eos then |x| else |x| + 1
  {
    if x != [] && x[0] !in eos {
      FirstEosAppend(x[1..], t, eos);
      assert (x + [t])[1..] == x[1..] + [t];
    }
  }

  // The value is a martingale of the target's own sampling.
  lemma ValueIsMartingale(m: ValidModels, eos: set<nat>, tokens: seq<nat>, remaining: nat, x: seq<nat>,
                          f: seq<nat> -> real)
    requires |x| < remaining
    ensures Value(m, eos, tokens, remaining, x, f)
         == Dot(m.P(tokens + x), Values(m, eos, tokens, remaining, x, f))
  {
    var vs := Values(m, eos, tokens, remaining, x, f);
    forall t: nat | t < m.vocab
      ensures vs[t] == if FirstEos(x, eos) < |x| then f(tokens + Shown(x, eos))
                       else ValueAfter(m, eos, tokens + x, remaining - |x|, t, f)
    {
      ValueAppend(m, eos, tokens, remaining, x, t, f);
    }
    if FirstEos(x, eos) < |x| {
      DotConst(m.P(tokens + x), vs, f(tokens + Shown(x, eos)));
    } else {
      PlainStep(m, eos, tokens + x, remaining - |x|, vs, f);
    }
  }

  lemma ValueAppend(m: ValidModels, eos: set<nat>, tokens: seq<nat>, remaining: nat, x: seq<nat>, t: nat,
                    f: seq<nat> -> real)
    requires |x| < remaining
    ensures Value(m, eos, tokens, remaining, x + [t], f)
         == if FirstEos(x, eos) < |x| then f(tokens + Shown(x, eos))
            else ValueAfter(m, eos, tokens + x, remaining - |x|, t, f)
  {
    FirstEosAppend(x, t, eos);
    var e := FirstEos(x, eos);
    if e < |x| {
      assert (x + [t])[..e + 1] == x[..e + 1];
    } else {
      assert (tokens + x) + [t] == tokens + (x + [t]);
      assert (x + [t])[..|x| + 1] == x + [t];
    }
  }

  // What plain decoding is worth once it has drawn `t` after `tokens`.
  ghost function ValueAfter(m: ValidModels, eos: set<nat>, tokens: seq<nat>, remaining: nat, t: nat,
                            f: seq<nat> -> real): real
    requires remaining > 0
  {
    if t in eos then f(tokens + [t]) else Expect(PlainProg(m, eos, tokens + [t], remaining - 1), f)
  }

  lemma PlainStep(m: ValidModels, eos: set<nat>, tokens: seq<nat>, remaining: nat, vs: seq<real>,
                  f: seq<nat> -> real)
    requires remaining > 0 && |vs| == m.vocab
    requires forall t: nat :: t < m.vocab ==> vs[t] == ValueAfter(m, eos, tokens, remaining, t, f)
    ensures Expect(PlainProg(m, eos, tokens, remaining), f) == Dot(m.P(tokens), vs)
  {
    var plain := PlainProg(m, eos, tokens, remaining);
    forall t: nat | t < m.vocab ensures vs[t] == Expect(plain.next[t], f) {
      assert plain.next[t] == if t in eos then Ret(tokens + [t]) else PlainProg(m, eos, tokens + [t], remaining - 1);
    }
    assert vs == Expects(plain.next, f);
  }

  // ---- the rejection step ---------------------------------------------------------------------------

  // Overlap plus residual give back p; the residual weighs exactly what rejection removes from q.
  lemma ResidualIdentity(p: seq<real>, q: seq<real>, s: seq<real>, n: nat)
    requires IsDist(p, n) && IsDist(q, n) && |s| == n
    ensures Dot(p, s) == Dot(Overlap(p, q), s) + Dot(Residual(p, q), s)
    ensures Sum(Overlap(p, q)) + Sum(Residual(p, q)) == 1.0
  {
    DotAdd(Overlap(p, q), Residual(p, q), p, s);
  }

  // Rejected mass times the replacement's mean is the residual's own weight.
  lemma ResampleWeighs(p: seq<real>, q: seq<real>, s: seq<real>, n: nat) returns (mass: real, r: real, rest: real)
    requires IsDist(p, n) && IsDist(q, n) && |s| == n
    ensures mass == Sum(Residual(p, q)) && r == Dot(ResampleDist(p, q), s) && rest == Dot(Residual(p, q), s)
    ensures mass * r == rest
    ensures IsDist(ResampleDist(p, q), n)
  {
    var residual := Residual(p, q);
    SumZeroMeansZero(residual);
    mass, rest := Sum(residual), Dot(residual, s);
    if mass <= 0.0 {
      r := Dot(p, s);
      DotScale(residual, residual, s, 0.0);
    } else {
      r := Normalize(residual, s);
    }
  }

  lemma {:induction false} Normalize(d: seq<real>, s: seq<real>) returns (r: real)
    requires |d| == |s| && Sum(d) > 0.0
    requires forall t :: 0 <= t < |d| ==> d[t] >= 0.0
    ensures r == Dot(Normalized(d), s) && Sum(d) * r == Dot(d, s)
    ensures IsDist(Normalized(d), |d|)
  {
    var c, e := 1.0 / Sum(d), Normalized(d);
    forall t | 0 <= t < |d| ensures e[t] == c * d[t] && e[t] >= 0.0 {
      Reciprocal(d[t], Sum(d));
    }
    DotScale(d, e, s, c);
    Cancel(Dot(d, s), Sum(d));
    r := Dot(e, s);
  }

  lemma Reciprocal(a: real, b: real)
    requires a >= 0.0 && b > 0.0
    ensures a / b == 1.0 / b * a >= 0.0
  {}

  lemma Cancel(a: real, b: real)
    requires b > 0.0
    ensures b * (1.0 / b * a) == a
    ensures 1.0 / b * b == 1.0
  {}

  // Without residual mass the two distributions agree everywhere.
  lemma NoResidualMeansEqual(p: seq<real>, q: seq<real>, n: nat)
    requires IsDist(p, n) && IsDist(q, n) && Sum(Residual(p, q)) <= 0.0
    ensures p == q
  {
    var residual := Residual(p, q);
    SumZeroMeansZero(residual);
    var gap := seq(n, i requires 0 <= i < n => q[i] - p[i]);
    forall i | 0 <= i < n ensures gap[i] >= 0.0 {
      assert residual[i] == 0.0;
    }
    DotAdd(p, gap, q, q);
    SumZeroMeansZero(gap);
    forall i | 0 <= i < n ensures p[i] == q[i] {
      assert gap[i] == 0.0;
    }
  }

  // A rejection happens only where the residual carries mass, so the fallback to p is never used.
  lemma RejectionHasResidual(p: seq<real>, q: seq<real>, n: nat, t: nat)
    requires IsDist(p, n) && IsDist(q, n) && t < n
    requires q[t] > 0.0 && AcceptRatio(p[t], q[t]) < 1.0
    ensures Sum(Residual(p, q)) > 0.0
  {
    if Sum(Residual(p, q)) <= 0.0 {
      NoResidualMeansEqual(p, q, n);
      assert false;
    }
  }

  // ---- exactness ------------------------------------------------------------------------------------

  // The probability with which a proposal is accepted.
  function Accept(p: real, q: real): real {
    Clamp(AcceptRatio(p, q))
  }

  lemma AcceptedMass(p: real, q: real)
    requires p >= 0.0 && q >= 0.0
    ensures q * Accept(p, q) == if p > q then q else p
  {
    if q > 0.0 {
      var r := p / q;
      assert r * q == p;
    }
  }

  ghost function OfTokens(f: seq<nat> -> real): RunState -> real {
    (st: RunState) => f(st.tokens)
  }

  // The mean of the distribution a rejection at position `i` is replaced from.
  ghost function Resampled(m: ValidModels, cfg: Config, st: RunState, x: seq<nat>, f: seq<nat> -> real): real
    requires |x| < st.remaining
  {
    Dot(ResampleDist(m.P(st.tokens + x), m.Q(st.tokens + x)), Values(m, cfg.eos, st.tokens, st.remaining, x, f))
  }

  // Mean outcome once `x` is proposed, `k` proposals are still to come and `x[..i]` is accepted.
  ghost function Rest(m: ValidModels, cfg: Config, st: RunState, k: nat, x: seq<nat>, i: nat,
                      f: seq<nat> -> real): real
    requires InVocab(m, x) && i <= |x| && |x| + k < st.remaining
    decreases k
  {
    if k == 0 then Expect(VerifyProg(m, cfg, st, x, i), OfTokens(f))
    else Dot(m.Q(st.tokens + x), Rests(m, cfg, st, k, x, i, f))
  }

  ghost function Rests(m: ValidModels, cfg: Config, st: RunState, k: nat, x: seq<nat>, i: nat,
                       f: seq<nat> -> real): (rs: seq<real>)
    requires InVocab(m, x) && i <= |x| && |x| + k < st.remaining && k > 0
    ensures |rs| == m.vocab
    decreases k, 0
  {
    seq(m.vocab, (t: nat) requires t < m.vocab => Rest(m, cfg, st, k - 1, x + [t], i, f))
  }

  lemma ProposeIsRest(m: ValidModels, cfg: Config, st: RunState, k: nat, x: seq<nat>, f: seq<nat> -> real)
    requires InVocab(m, x) && |x| + k < st.remaining
    ensures Expect(ProposeProg(m, cfg, st, k, x), OfTokens(f)) == Rest(m, cfg, st, k, x, 0, f)
    decreases k
  {
    if k > 0 {
      var prog := ProposeProg(m, cfg, st, k, x);
      forall t: nat | t < m.vocab
        ensures Expect(prog.next[t], OfTokens(f)) == Rest(m, cfg, st, k - 1, x + [t], 0, f)
      {
        ProposeIsRest(m, cfg, st, k - 1, x + [t], f);
      }
      assert Expects(prog.next, OfTokens(f)) == Rests(m, cfg, st, k, x, 0, f);
    }
  }

  // The probability that proposal `x[i]` is accepted.
  function AcceptAt(m: ValidModels, st: RunState, x: seq<nat>, i: nat): real
    requires InVocab(m, x) && i < |x|
  {
    Accept(m.P(st.tokens + x[..i])[x[i]], m.Q(st.tokens + x[..i])[x[i]])
  }

  // A mixture that holds for every completion of the proposals holds on average over them.
  lemma RestMixes(m: ValidModels, cfg: Config, st: RunState, k: nat, x: seq<nat>, i: nat, f: seq<nat> -> real,
                  b: real, r: real)
    requires InVocab(m, x) && i < |x| && |x| + k < st.remaining
    requires forall y :: InVocab(m, y) && x <= y && |y| == |x| + k ==>
               Rest(m, cfg, st, 0, y, i, f) == Mixed(b, Rest(m, cfg, st, 0, y, i + 1, f), r)
    ensures Rest(m, cfg, st, k, x, i, f) == Mixed(b, Rest(m, cfg, st, k, x, i + 1, f), r)
    decreases k
  {
    hide Mixed, Expect, VerifyProg, Dot;
    if k > 0 {
      var now, later := Rests(m, cfg, st, k, x, i, f), Rests(m, cfg, st, k, x, i + 1, f);
      forall t: nat | t < m.vocab ensures now[t] == Mixed(b, later[t], r) {
        forall y | x + [t] <= y && InVocab(m, y) && |y| == |x| + k
          ensures Rest(m, cfg, st, 0, y, i, f) == Mixed(b, Rest(m, cfg, st, 0, y, i + 1, f), r)
        {
          assert x <= y;
        }
        RestMixes(m, cfg, st, k - 1, x + [t], i, f, b, r);
      }
      DotMixed(m.Q(st.tokens + x), later, now, b, r);
    }
  }

  // Verification at position `i` mixes acceptance and replacement.
  lemma RestStep(m: ValidModels, cfg: Config, st: RunState, k: nat, x: seq<nat>, i: nat, f: seq<nat> -> real)
    requires InVocab(m, x) && i < |x| && |x| + k < st.remaining
    ensures Rest(m, cfg, st, k, x, i, f)
         == Mixed(AcceptAt(m, st, x, i), Rest(m, cfg, st, k, x, i + 1, f), Resampled(m, cfg, st, x[..i], f))
    decreases st.remaining, 2, k + 1
  {
    var b, r := AcceptAt(m, st, x, i), Resampled(m, cfg, st, x[..i], f);
    forall y | InVocab(m, y) && x <= y && |y| == |x| + k
      ensures Rest(m, cfg, st, 0, y, i, f) == Mixed(b, Rest(m, cfg, st, 0, y, i + 1, f), r)
    {
      assert y[..i] == x[..i] && y[i] == x[i];
      VerifyStep(m, cfg, st, y, i, f);
    }
    RestMixes(m, cfg, st, k, x, i, f, b, r);
  }

  lemma DotMixed(d: seq<real>, g: seq<real>, h: seq<real>, b: real, r: real)
    requires |d| == |g| == |h| && Sum(d) == 1.0
    requires forall t: nat :: t < |d| ==> h[t] == Mixed(b, g[t], r)
    ensures Dot(d, h) == Mixed(b, Dot(d, g), r)
  {
    var c := (1.0 - b) * r;
    forall t: nat | t < |d| ensures h[t] == b * g[t] + c {
      assert h[t] == Mixed(b, g[t], r);
    }
    DotAffine(d, g, h, b, c);
    assert c * Sum(d) == c;
  }

  lemma VerifyStep(m: ValidModels, cfg: Config, st: RunState, x: seq<nat>, i: nat, f: seq<nat> -> real)
    requires InVocab(m, x) && i < |x| < st.remaining
    ensures Expect(VerifyProg(m, cfg, st, x, i), OfTokens(f))
         == Mixed(AcceptAt(m, st, x, i), Expect(VerifyProg(m, cfg, st, x, i + 1), OfTokens(f)),
                  Resampled(m, cfg, st, x[..i], f))
    decreases st.remaining, 2, 0
  {
    var p, q := m.P(st.tokens + x[..i]), m.Q(st.tokens + x[..i]);
    ReplaceIsDot(m, cfg, st, x, i, ResampleDist(p, q), f);
  }

  // With every proposal so far accepted, a pass is worth exactly what plain decoding is.
  lemma RestIsValue(m: ValidModels, cfg: Config, st: RunState, k: nat, x: seq<nat>, f: seq<nat> -> real)
    requires InVocab(m, x) && |x| + k < st.remaining
    ensures Rest(m, cfg, st, k, x, |x|, f) == Value(m, cfg.eos, st.tokens, st.remaining, x, f)
    decreases st.remaining, 3, k, 0
  {
    var vs := Values(m, cfg.eos, st.tokens, st.remaining, x, f);
    assert x[..|x|] == x;
    ValueIsMartingale(m, cfg.eos, st.tokens, st.remaining, x, f);
    if k == 0 {
      ReplaceIsDot(m, cfg, st, x, |x|, m.P(st.tokens + x), f);
    } else {
      var p, q := m.P(st.tokens + x), m.Q(st.tokens + x);
      var rests := Rests(m, cfg, st, k, x, |x|, f);
      forall t: nat | t < m.vocab
        ensures rests[t] == Mixed(Accept(p[t], q[t]), vs[t], Dot(ResampleDist(p, q), vs))
      {
        ProposalWorth(m, cfg, st, k, x, t, f);
      }
      RejectionSampling(p, q, vs, rests, m.vocab);
    }
  }

  lemma ProposalWorth(m: ValidModels, cfg: Config, st: RunState, k: nat, x: seq<nat>, t: nat, f: seq<nat> -> real)
    requires InVocab(m, x) && t < m.vocab && 0 < k && |x| + k < st.remaining
    ensures Rest(m, cfg, st, k - 1, x + [t], |x|, f)
         == Mixed(Accept(m.P(st.tokens + x)[t], m.Q(st.tokens + x)[t]),
                  Value(m, cfg.eos, st.tokens, st.remaining, x + [t], f), Resampled(m, cfg, st, x, f))
    decreases st.remaining, 3, k - 1, 1
  {
    assert (x + [t])[..|x|] == x;
    RestStep(m, cfg, st, k - 1, x + [t], |x|, f);
    RestIsValue(m, cfg, st, k - 1, x + [t], f);
  }

  // One accept-or-resample step, averaged over the draft's proposal, is one target draw.
  lemma RejectionSampling(p: seq<real>, q: seq<real>, s: seq<real>, h: seq<real>, n: nat)
    requires IsDist(p, n) && IsDist(q, n) && |s| == |h| == n
    requires forall t: nat :: t < n ==> h[t] == Mixed(Accept(p[t], q[t]), s[t], Dot(ResampleDist(p, q), s))
    ensures Dot(q, h) == Dot(p, s)
  {
    ResidualIdentity(p, q, s, n);
    var mass, r, rest := ResampleWeighs(p, q, s, n);
    MixedMass(p, q, s, h, r, mass, rest);
  }

  lemma MixedMass(p: seq<real>, q: seq<real>, s: seq<real>, h: seq<real>, r: real, mass: real, rest: real)
    requires |p| == |q| == |s| == |h|
    requires forall t :: 0 <= t < |p| ==> p[t] >= 0.0 && q[t] >= 0.0
    requires forall t: nat :: t < |p| ==> h[t] == Mixed(Accept(p[t], q[t]), s[t], r)
    requires mass == Sum(q) - Sum(Overlap(p, q)) && mass * r == rest
    ensures Dot(q, h) == Dot(Overlap(p, q), s) + rest
  {
    var gap := Gap(q, Overlap(p, q));
    forall t | 0 <= t < |p| ensures SplitsAs(q[t], h[t], Overlap(p, q)[t], s[t], gap[t], r) {
      MixedTerm(p[t], q[t], s[t], r, h[t], Overlap(p, q)[t], gap[t]);
    }
    GapMass(q, Overlap(p, q));
    DotSplit(q, h, Overlap(p, q), gap, s, r, mass, rest);
  }

  function Gap(q: seq<real>, low: seq<real>): (gap: seq<real>)
    requires |q| == |low|
    ensures |gap| == |q|
  {
    seq(|q|, t requires 0 <= t < |q| => q[t] - low[t])
  }

  lemma GapMass(q: seq<real>, low: seq<real>)
    requires |q| == |low|
    ensures Sum(Gap(q, low)) == Sum(q) - Sum(low)
  {
    DotAdd(low, Gap(q, low), q, q);
  }

  lemma MixedTerm(p: real, q: real, s: real, r: real, h: real, low: real, gap: real)
    requires p >= 0.0 && q >= 0.0 && h == Mixed(Accept(p, q), s, r)
    requires low == (if p > q then q else p) && gap == q - low
    ensures SplitsAs(q, h, low, s, gap, r)
  {
    AcceptedMass(p, q);
    Mix(q, Accept(p, q), s, r, h, low, gap);
  }

  lemma Mix(q: real, b: real, s: real, r: real, h: real, low: real, gap: real)
    requires q * b == low && gap == q - low && h == Mixed(b, s, r)
    ensures SplitsAs(q, h, low, s, gap, r)
  {
    Distribute(q, b * s, (1.0 - b) * r);
    Associate(q, b, s);
    Associate(q, 1.0 - b, r);
    assert q * (1.0 - b) == gap;
  }

  lemma ReplaceIsDot(m: ValidModels, cfg: Config, st: RunState, x: seq<nat>, a: nat, d: seq<real>,
                     f: seq<nat> -> real)
    requires a <= |x| < st.remaining && |d| == m.vocab
    ensures Expect(Replace(m, cfg, st, x, a, d), OfTokens(f))
         == Dot(d, Values(m, cfg.eos, st.tokens, st.remaining, x[..a], f))
    decreases st.remaining, 1
  {
    var prog := Replace(m, cfg, st, x, a, d);
    var vs := Values(m, cfg.eos, st.tokens, st.remaining, x[..a], f);
    forall t: nat | t < m.vocab ensures Expect(prog.next[t], OfTokens(f)) == vs[t] {
      ContinueIsValue(m, cfg, st, |x|, x[..a] + [t], f);
    }
    assert Expects(prog.next, OfTokens(f)) == vs;
  }

  lemma ContinueIsValue(m: ValidModels, cfg: Config, st: RunState, k: nat, y: seq<nat>, f: seq<nat> -> real)
    requires 0 < |y| <= st.remaining
    ensures Expect(Continue(m, cfg, st, k, y), OfTokens(f)) == Value(m, cfg.eos, st.tokens, st.remaining, y, f)
    decreases st.remaining, 0
  {
    assert y[..|y|] == y;
    if FirstEos(y, cfg.eos) == |y| {
      SpeculationIsExact(m, cfg, Adapted(cfg, Counted(cfg, st, k, |y| - 1, y)), f);
    }
  }

  /** Whatever the draft proposes and however the width adapts, the sequence a speculative generation
      returns has exactly the distribution of plain target sampling stopped at end-of-sequence: every
      function of the returned sequence has the same mean under both. */
  lemma SpeculationIsExact(m: ValidModels, cfg: Config, st: RunState, f: seq<nat> -> real)
    ensures Expect(GenProg(m, cfg, st), OfTokens(f))
         == Expect(PlainProg(m, cfg.eos, st.tokens, st.remaining), f)
    decreases st.remaining, 4
  {
    if st.remaining > 0 {
      ProposeIsRest(m, cfg, st, Width(st), [], f);
      RestIsValue(m, cfg, st, Width(st), [], f);
      assert st.tokens + [] == st.tokens;
    }
  }
}
