// Running the speculative program on a tape of uniform draws: what one pass does in order, and the
// greedy case, where every run returns plain greedy decoding.
module SpeculationRun {
  import opened Distributions
  import opened Speculation

  // A tape of uniform draws from [0, 1).
  type Tape = tape: nat -> real | forall i :: 0.0 <= tape(i) < 1.0 witness (i: nat) => 0.0

  // ---- the generation is a well-formed program ---------------------------------------------------

  lemma GenWellFormed(m: ValidModels, cfg: Config, st: RunState)
    ensures WellFormed(GenProg(m, cfg, st))
    decreases st.remaining, 3, 0
  {
    if st.remaining > 0 {
      ProposeWellFormed(m, cfg, st, Width(st), []);
    }
  }

  lemma ProposeWellFormed(m: ValidModels, cfg: Config, st: RunState, k: nat, x: seq<nat>)
    requires st.remaining > 0 && InVocab(m, x)
    ensures WellFormed(ProposeProg(m, cfg, st, k, x))
    decreases st.remaining, 2, k
  {
    if k == 0 {
      VerifyWellFormed(m, cfg, st, x, 0);
    } else {
      forall t: nat | t < m.vocab ensures WellFormed(ProposeProg(m, cfg, st, k - 1, x + [t])) {
        ProposeWellFormed(m, cfg, st, k - 1, x + [t]);
      }
    }
  }

  lemma VerifyWellFormed(m: ValidModels, cfg: Config, st: RunState, x: seq<nat>, i: nat)
    requires st.remaining > 0 && InVocab(m, x) && i <= |x|
    ensures WellFormed(VerifyProg(m, cfg, st, x, i))
    decreases st.remaining, 1, |x| - i
  {
    var p, q := m.P(st.tokens + x[..i]), m.Q(st.tokens + x[..i]);
    if i == |x| {
      ReplaceWellFormed(m, cfg, st, x, i, p);
    } else {
      var _, _, _ := ResampleWeighs(p, q, p, m.vocab);
      ReplaceWellFormed(m, cfg, st, x, i, ResampleDist(p, q));
      VerifyWellFormed(m, cfg, st, x, i + 1);
    }
  }

  lemma ReplaceWellFormed(m: ValidModels, cfg: Config, st: RunState, x: seq<nat>, a: nat, d: seq<real>)
    requires st.remaining > 0 && a <= |x| && IsDist(d, m.vocab)
    ensures WellFormed(Replace(m, cfg, st, x, a, d))
    decreases st.remaining, 0, 1
  {
    forall t: nat | t < m.vocab ensures WellFormed(Continue(m, cfg, st, |x|, x[..a] + [t])) {
      ContinueWellFormed(m, cfg, st, |x|, x[..a] + [t]);
    }
  }

  lemma ContinueWellFormed(m: ValidModels, cfg: Config, st: RunState, k: nat, y: seq<nat>)
    requires st.remaining > 0 && |y| > 0
    ensures WellFormed(Continue(m, cfg, st, k, y))
    decreases st.remaining, 0, 0
  {
    GenWellFormed(m, cfg, Adapted(cfg, Counted(cfg, st, k, |y| - 1, y[..Min(|y|, st.remaining)])));
  }

  function RunGen(m: ValidModels, cfg: Config, st: RunState, tape: Tape, pos: nat): (RunState, nat) {
    GenWellFormed(m, cfg, st);
    Run(GenProg(m, cfg, st), tape, pos)
  }

  function RunPropose(m: ValidModels, cfg: Config, st: RunState, k: nat, x: seq<nat>, tape: Tape, pos: nat): (RunState, nat)
    requires st.remaining > 0 && InVocab(m, x)
  {
    ProposeWellFormed(m, cfg, st, k, x);
    Run(ProposeProg(m, cfg, st, k, x), tape, pos)
  }

  function RunVerify(m: ValidModels, cfg: Config, st: RunState, x: seq<nat>, i: nat, tape: Tape, pos: nat): (RunState, nat)
    requires st.remaining > 0 && InVocab(m, x) && i <= |x|
  {
    VerifyWellFormed(m, cfg, st, x, i);
    Run(VerifyProg(m, cfg, st, x, i), tape, pos)
  }

  function RunContinue(m: ValidModels, cfg: Config, st: RunState, k: nat, y: seq<nat>, tape: Tape,
                       pos: nat): (RunState, nat)
    requires st.remaining > 0 && |y| > 0
  {
    ContinueWellFormed(m, cfg, st, k, y);
    Run(Continue(m, cfg, st, k, y), tape, pos)
  }

  // ---- the order in which one pass happens ---------------------------------------------------------

  // The tokens `k` draft draws produce after `ctx`.
  function Proposals(m: ValidModels, ctx: seq<nat>, k: nat, tape: Tape, pos: nat): (x: seq<nat>)
    ensures |x| == k && InVocab(m, x)
    decreases k
  {
    if k == 0 then []
    else
      var t := Pick(m.Q(ctx), tape(pos));
      [t] + Proposals(m, ctx + [t], k - 1, tape, pos + 1)
  }

  /** How verification ends: how many proposals survive, the token drawn after them, the tape used. */
  datatype Verdict = Verdict(accepted: nat, token: nat, pos: nat)

  function VerifyRun(x: seq<nat>, q: seq<seq<real>>, p: seq<seq<real>>, i: nat, tape: Tape, pos: nat): (v: Verdict)
    requires i <= |x| == |q| && |p| == |x| + 1
    requires forall j :: 0 <= j < |p| ==> |p[j]| > 0
    requires forall j :: 0 <= j < |x| ==> |q[j]| == |p[j]| && x[j] < |p[j]|
    ensures i <= v.accepted <= |x|
    decreases |x| - i
  {
    if i == |x| then Verdict(i, Pick(p[i], tape(pos)), pos + 1)
    else
      var (yes, at) := Decided(AcceptRatio(p[i][x[i]], q[i][x[i]]), tape, pos);
      if yes then VerifyRun(x, q, p, i + 1, tape, at)
      else Verdict(i, Pick(ResampleDist(p[i], q[i]), tape(at)), at + 1)
  }

  // The tokens a pass produces.
  function Verified(x: seq<nat>, v: Verdict): (y: seq<nat>)
    requires v.accepted <= |x|
    ensures |y| == v.accepted + 1
  {
    x[..v.accepted] + [v.token]
  }

  // The draft's distribution at each proposal, and the target's at each proposal and the position after.
  function DraftProbs(m: ValidModels, ctx: seq<nat>, x: seq<nat>): (q: seq<seq<real>>)
    ensures |q| == |x| && forall j :: 0 <= j < |q| ==> |q[j]| == m.vocab
  {
    seq(|x|, j requires 0 <= j < |x| => m.Q(ctx + x[..j]))
  }

  function TargetProbs(m: ValidModels, ctx: seq<nat>, x: seq<nat>): (p: seq<seq<real>>)
    ensures |p| == |x| + 1 && forall j :: 0 <= j < |p| ==> |p[j]| == m.vocab
  {
    seq(|x| + 1, j requires 0 <= j <= |x| => m.P(ctx + x[..j]))
  }

  lemma ProposeOne(m: ValidModels, cfg: Config, st: RunState, k: nat, x: seq<nat>, tape: Tape, pos: nat)
    requires st.remaining > 0 && InVocab(m, x) && k > 0
    ensures var t := Pick(m.Q(st.tokens + x), tape(pos));
      RunPropose(m, cfg, st, k, x, tape, pos) == RunPropose(m, cfg, st, k - 1, x + [t], tape, pos + 1)
  {
    ProposeWellFormed(m, cfg, st, k, x);
  }

  lemma {:induction false} ProposeRuns(m: ValidModels, cfg: Config, st: RunState, k: nat, x: seq<nat>, y: seq<nat>,
                                       tape: Tape, pos: nat)
    requires st.remaining > 0 && InVocab(m, x)
    requires y == x + Proposals(m, st.tokens + x, k, tape, pos)
    ensures RunPropose(m, cfg, st, k, x, tape, pos) == RunVerify(m, cfg, st, y, 0, tape, pos + k)
    decreases k
  {
    if k == 0 {
      assert y == x;
    } else {
      var t := Pick(m.Q(st.tokens + x), tape(pos));
      assert st.tokens + (x + [t]) == st.tokens + x + [t];
      ProposeOne(m, cfg, st, k, x, tape, pos);
      ProposeRuns(m, cfg, st, k - 1, x + [t], y, tape, pos + 1);
    }
  }

  lemma ReplaceRuns(m: ValidModels, cfg: Config, st: RunState, x: seq<nat>, a: nat, d: seq<real>, tape: Tape, pos: nat)
    requires st.remaining > 0 && a <= |x| && IsDist(d, m.vocab)
    ensures WellFormed(Replace(m, cfg, st, x, a, d))
    ensures Run(Replace(m, cfg, st, x, a, d), tape, pos)
         == RunContinue(m, cfg, st, |x|, x[..a] + [Pick(d, tape(pos))], tape, pos + 1)
  {
    ReplaceWellFormed(m, cfg, st, x, a, d);
  }

  // One verification step: carry on with the next proposal, or draw a replacement.
  lemma VerifyOne(m: ValidModels, cfg: Config, st: RunState, x: seq<nat>, i: nat, tape: Tape, pos: nat)
    requires st.remaining > 0 && InVocab(m, x) && i < |x|
    ensures var p, q := m.P(st.tokens + x[..i]), m.Q(st.tokens + x[..i]);
      var (yes, at) := Decided(AcceptRatio(p[x[i]], q[x[i]]), tape, pos);
      RunVerify(m, cfg, st, x, i, tape, pos)
      == if yes then RunVerify(m, cfg, st, x, i + 1, tape, at)
         else RunContinue(m, cfg, st, |x|, x[..i] + [Pick(ResampleDist(p, q), tape(at))], tape, at + 1)
  {
    var p, q := m.P(st.tokens + x[..i]), m.Q(st.tokens + x[..i]);
    var ratio, d := AcceptRatio(p[x[i]], q[x[i]]), ResampleDist(p, q);
    var _, _, _ := ResampleWeighs(p, q, p, m.vocab);
    ReplaceRuns(m, cfg, st, x, i, d, tape, Decided(ratio, tape, pos).1);
    VerifyWellFormed(m, cfg, st, x, i + 1);
    RunDecide(ratio, VerifyProg(m, cfg, st, x, i + 1), Replace(m, cfg, st, x, i, d), tape, pos);
  }

  lemma VerifyRuns(m: ValidModels, cfg: Config, st: RunState, x: seq<nat>, q: seq<seq<real>>, p: seq<seq<real>>,
                   i: nat, v: Verdict, tape: Tape, pos: nat)
    requires st.remaining > 0 && InVocab(m, x) && i <= |x|
    requires q == DraftProbs(m, st.tokens, x) && p == TargetProbs(m, st.tokens, x)
    requires v == VerifyRun(x, q, p, i, tape, pos)
    ensures RunVerify(m, cfg, st, x, i, tape, pos) == RunContinue(m, cfg, st, |x|, Verified(x, v), tape, v.pos)
    decreases |x| - i
  {
    if i == |x| {
      ReplaceRuns(m, cfg, st, x, i, p[i], tape, pos);
    } else {
      VerifyOne(m, cfg, st, x, i, tape, pos);
      var (yes, at) := Decided(AcceptRatio(p[i][x[i]], q[i][x[i]]), tape, pos);
      if yes {
        VerifyRuns(m, cfg, st, x, q, p, i + 1, v, tape, at);
      }
    }
  }

  lemma GenVerifies(m: ValidModels, cfg: Config, st: RunState, x: seq<nat>, tape: Tape, pos: nat)
    requires st.remaining > 0 && x == Proposals(m, st.tokens, Width(st), tape, pos)
    ensures RunGen(m, cfg, st, tape, pos) == RunVerify(m, cfg, st, x, 0, tape, pos + |x|)
  {
    assert st.tokens + [] == st.tokens && x == [] + x;
    ProposeRuns(m, cfg, st, Width(st), [], x, tape, pos);
  }

  /** One pass: `k` draft draws, verification against the target, then the bookkeeping. */
  lemma PassRuns(m: ValidModels, cfg: Config, st: RunState, x: seq<nat>, q: seq<seq<real>>, p: seq<seq<real>>,
                 v: Verdict, tape: Tape, pos: nat)
    requires st.remaining > 0 && x == Proposals(m, st.tokens, Width(st), tape, pos)
    requires q == DraftProbs(m, st.tokens, x) && p == TargetProbs(m, st.tokens, x)
    requires v == VerifyRun(x, q, p, 0, tape, pos + |x|)
    ensures RunGen(m, cfg, st, tape, pos) == RunContinue(m, cfg, st, |x|, Verified(x, v), tape, v.pos)
  {
    GenVerifies(m, cfg, st, x, tape, pos);
    VerifyRuns(m, cfg, st, x, q, p, 0, v, tape, pos + |x|);
  }

  lemma ContinueRuns(m: ValidModels, cfg: Config, st: RunState, k: nat, y: seq<nat>, tape: Tape, pos: nat)
    requires 0 < |y| <= st.remaining
    ensures var next := Counted(cfg, st, k, |y| - 1, y);
      RunContinue(m, cfg, st, k, y, tape, pos)
      == if FirstEos(y, cfg.eos) < |y| then (next, pos) else RunGen(m, cfg, Adapted(cfg, next), tape, pos)
  {
    assert y[..|y|] == y;
  }

  // `v` is verification's verdict on the proposals `x` after `ctx`.
  ghost predicate Judged(m: ValidModels, ctx: seq<nat>, x: seq<nat>, v: Verdict, tape: Tape, pos: nat) {
    InVocab(m, x) && v == VerifyRun(x, DraftProbs(m, ctx, x), TargetProbs(m, ctx, x), 0, tape, pos)
  }

  // `x` is what the draft draws after `ctx`, and `q` the distributions it drew from.
  ghost predicate Drafted(m: ValidModels, ctx: seq<nat>, x: seq<nat>, q: seq<seq<real>>, tape: Tape, pos: nat) {
    x == Proposals(m, ctx, |x|, tape, pos) && q == DraftProbs(m, ctx, x)
  }

  /** How a pass ends: the state it leaves, whether it met an end-of-sequence token, the tape used. */
  datatype PassEnd = PassEnd(next: RunState, ended: bool, pos: nat)

  function OnePass(m: ValidModels, cfg: Config, st: RunState, tape: Tape, pos: nat): (r: PassEnd)
    requires st.remaining > 0
    ensures r.next.remaining < st.remaining
  {
    var x := Proposals(m, st.tokens, Width(st), tape, pos);
    var v := VerifyRun(x, DraftProbs(m, st.tokens, x), TargetProbs(m, st.tokens, x), 0, tape, pos + |x|);
    EndOf(cfg, Counted(cfg, st, |x|, v.accepted, Verified(x, v)), Verified(x, v), v.pos)
  }

  function EndOf(cfg: Config, next: RunState, y: seq<nat>, pos: nat): PassEnd {
    if FirstEos(y, cfg.eos) < |y| then PassEnd(next, true, pos) else PassEnd(Adapted(cfg, next), false, pos)
  }

  lemma OnePassIs(m: ValidModels, cfg: Config, st: RunState, x: seq<nat>, v: Verdict, tape: Tape, pos: nat)
    requires st.remaining > 0 && x == Proposals(m, st.tokens, Width(st), tape, pos)
    requires Judged(m, st.tokens, x, v, tape, pos + |x|)
    ensures OnePass(m, cfg, st, tape, pos)
         == EndOf(cfg, Counted(cfg, st, |x|, v.accepted, Verified(x, v)), Verified(x, v), v.pos)
  {
    hide VerifyRun, Proposals, DraftProbs, TargetProbs, FirstEos, Shown;
  }

  // A whole generation, pass after pass.
  function Generation(m: ValidModels, cfg: Config, st: RunState, tape: Tape, pos: nat): (RunState, nat)
    decreases st.remaining
  {
    if st.remaining == 0 then (st, pos)
    else
      var r := OnePass(m, cfg, st, tape, pos);
      if r.ended then (r.next, r.pos) else Generation(m, cfg, r.next, tape, r.pos)
  }

  lemma GenerationEnd(m: ValidModels, cfg: Config, st: RunState, tape: Tape, pos: nat)
    requires st.remaining == 0
    ensures Generation(m, cfg, st, tape, pos) == (st, pos)
  {}

  lemma GenerationStep(m: ValidModels, cfg: Config, st: RunState, r: PassEnd, tape: Tape, pos: nat)
    requires st.remaining > 0 && r == OnePass(m, cfg, st, tape, pos)
    ensures Generation(m, cfg, st, tape, pos)
         == if r.ended then (r.next, r.pos) else Generation(m, cfg, r.next, tape, r.pos)
  {
    hide OnePass;
  }

  lemma PassStep(m: ValidModels, cfg: Config, st: RunState, tape: Tape, pos: nat)
    requires st.remaining > 0
    ensures var r := OnePass(m, cfg, st, tape, pos);
      RunGen(m, cfg, st, tape, pos) == if r.ended then (r.next, r.pos) else RunGen(m, cfg, r.next, tape, r.pos)
  {
    hide VerifyRun, Proposals, DraftProbs, TargetProbs, FirstEos, Shown;
    var x := Proposals(m, st.tokens, Width(st), tape, pos);
    var q, p := DraftProbs(m, st.tokens, x), TargetProbs(m, st.tokens, x);
    var v := VerifyRun(x, q, p, 0, tape, pos + |x|);
    var y := Verified(x, v);
    PassRuns(m, cfg, st, x, q, p, v, tape, pos);
    ContinueRuns(m, cfg, st, |x|, y, tape, v.pos);
  }

  /** Going pass by pass on a tape is running the randomized program on that tape. */
  lemma {:induction false} GenerationIsRun(m: ValidModels, cfg: Config, st: RunState, tape: Tape, pos: nat)
    ensures Generation(m, cfg, st, tape, pos) == RunGen(m, cfg, st, tape, pos)
    decreases st.remaining
  {
    if st.remaining > 0 {
      PassStep(m, cfg, st, tape, pos);
      var r := OnePass(m, cfg, st, tape, pos);
      if !r.ended {
        GenerationIsRun(m, cfg, r.next, tape, r.pos);
      }
    }
  }

  // ---- what a generation counts ---------------------------------------------------------------------------

  // The last token a pass added ends the sequence.
  predicate Ends(cfg: Config, st: RunState, next: RunState) {
    next.tokens != [] && |next.tokens| > |st.tokens| && next.tokens[|next.tokens| - 1] in cfg.eos
  }

  // From `st` a pass proposed as many tokens as its width and the room left for them allow, kept some, added
  // one of its own, and measured its width afresh unless it met an end-of-sequence token.
  predicate Booked(cfg: Config, st: RunState, next: RunState) {
    var kept := next.accepted - st.accepted;
    && st.remaining > 0 && st.tokens <= next.tokens
    && next.passes == st.passes + 1
    && next.proposed == st.proposed + (if st.lookahead < st.remaining then st.lookahead else st.remaining - 1)
    && 0 <= kept <= next.proposed - st.proposed
    && next.emitted - st.emitted == st.remaining - next.remaining == kept + 1
    && (forall i :: |st.tokens| <= i < |next.tokens| - 1 ==> next.tokens[i] !in cfg.eos)
    && (if Ends(cfg, st, next) then |next.tokens| <= |st.tokens| + kept + 1 && next.lookahead == st.lookahead
        else |next.tokens| == |st.tokens| + kept + 1
             && next.lookahead == cfg.adapt(st.lookahead, next.proposed, next.accepted))
  }

  lemma PassBooked(m: ValidModels, cfg: Config, st: RunState, tape: Tape, pos: nat)
    requires st.remaining > 0
    ensures var r := OnePass(m, cfg, st, tape, pos); Booked(cfg, st, r.next) && (r.ended <==> Ends(cfg, st, r.next))
  {
    hide VerifyRun, Proposals, DraftProbs, TargetProbs, FirstEos;
    var x := Proposals(m, st.tokens, Width(st), tape, pos);
    var v := VerifyRun(x, DraftProbs(m, st.tokens, x), TargetProbs(m, st.tokens, x), 0, tape, pos + |x|);
    var y, next := Verified(x, v), OnePass(m, cfg, st, tape, pos).next;
    var shown := Shown(y, cfg.eos);
    assert next.tokens == st.tokens + shown;
    forall i | |st.tokens| <= i < |next.tokens| - 1 ensures next.tokens[i] !in cfg.eos {
      assert next.tokens[i] == y[i - |st.tokens|];
    }
    assert next.tokens[|next.tokens| - 1] == y[|shown| - 1];
  }

  // The states between the passes of a generation.
  function Trail(m: ValidModels, cfg: Config, st: RunState, tape: Tape, pos: nat): (t: seq<RunState>)
    ensures t != [] && t[0] == st
    decreases st.remaining
  {
    if st.remaining == 0 then [st]
    else
      var r := OnePass(m, cfg, st, tape, pos);
      [st] + if r.ended then [r.next] else Trail(m, cfg, r.next, tape, r.pos)
  }

  /** In every generation each pass proposes exactly as many tokens as its width and the room left for them
      allow, and every counter and width on the way to the result follows from that and from how many were
      kept; it stops at an end-of-sequence token or when nothing remains. */
  lemma {:induction false} GenerationBooked(m: ValidModels, cfg: Config, st: RunState, tape: Tape, pos: nat)
    ensures var t := Trail(m, cfg, st, tape, pos);
      && t[|t| - 1] == Generation(m, cfg, st, tape, pos).0
      && (forall i :: 0 <= i < |t| - 1 ==> Booked(cfg, t[i], t[i + 1]))
      && (forall i :: 0 <= i < |t| - 2 ==> !Ends(cfg, t[i], t[i + 1]))
      && (t[|t| - 1].remaining == 0 || Ends(cfg, t[|t| - 2], t[|t| - 1]))
    decreases st.remaining
  {
    hide OnePass, Booked, Ends;
    if st.remaining > 0 {
      PassBooked(m, cfg, st, tape, pos);
      var r := OnePass(m, cfg, st, tape, pos);
      if !r.ended {
        GenerationBooked(m, cfg, r.next, tape, r.pos);
        var rest, t := Trail(m, cfg, r.next, tape, r.pos), Trail(m, cfg, st, tape, pos);
        assert t == [st] + rest;
        forall i | 0 <= i < |t| - 1
          ensures Booked(cfg, t[i], t[i + 1]) && (i < |t| - 2 ==> !Ends(cfg, t[i], t[i + 1]))
        {
          if i > 0 { assert t[i] == rest[i - 1] && t[i + 1] == rest[i]; }
        }
      }
    }
  }

  // ---- what can be drawn -------------------------------------------------------------------------------

  // Each token has positive probability under the target after what comes before it.
  ghost predicate Drawable(m: ValidModels, tokens: seq<nat>, y: seq<nat>) {
    forall j :: 0 <= j < |y| ==> y[j] < m.vocab && m.P(tokens + y[..j])[y[j]] > 0.0
  }

  lemma ExtendDrawable(m: ValidModels, tokens: seq<nat>, y: seq<nat>, t: nat)
    requires Drawable(m, tokens, y) && t < m.vocab && m.P(tokens + y)[t] > 0.0
    ensures Drawable(m, tokens, y + [t])
  {
    var z := y + [t];
    forall j | 0 <= j < |z| ensures z[j] < m.vocab && m.P(tokens + z[..j])[z[j]] > 0.0 {
      assert z[..j] == if j < |y| then y[..j] else y;
    }
  }

  lemma AcceptedIsDrawable(p: real, q: real, tape: Tape, pos: nat)
    requires p >= 0.0 && q >= 0.0 && Decided(AcceptRatio(p, q), tape, pos).0
    ensures p > 0.0
  {
    if q > 0.0 { PositiveQuotient(p, q); }
  }

  lemma PositiveQuotient(a: real, b: real)
    requires b > 0.0
    ensures a / b > 0.0 <==> a > 0.0
  {}

  // What replaces a rejected proposal is drawn from the target's own support.
  lemma ResampledIsDrawable(p: seq<real>, q: seq<real>, n: nat, u: real)
    requires IsDist(p, n) && IsDist(q, n) && n > 0 && 0.0 <= u < 1.0
    ensures var t := Pick(ResampleDist(p, q), u); t < n && p[t] > 0.0
  {
    var _, _, _ := ResampleWeighs(p, q, p, n);
    var d := ResampleDist(p, q);
    PickSupport(d, u);
    var residual, t := Residual(p, q), Pick(d, u);
    if Sum(residual) > 0.0 {
      assert d[t] == residual[t] / Sum(residual);
      PositiveQuotient(residual[t], Sum(residual));
    }
  }

  lemma {:induction false} VerifyDrawable(m: ValidModels, tokens: seq<nat>, x: seq<nat>, q: seq<seq<real>>,
                                          p: seq<seq<real>>,
                                          i: nat, tape: Tape, pos: nat)
    requires InVocab(m, x) && i <= |x| && Drawable(m, tokens, x[..i])
    requires q == DraftProbs(m, tokens, x) && p == TargetProbs(m, tokens, x)
    ensures Drawable(m, tokens, Verified(x, VerifyRun(x, q, p, i, tape, pos)))
    decreases |x| - i
  {
    hide Drawable, Pick, ResampleDist, AcceptRatio, Decided;
    if i == |x| {
      PickSupport(p[i], tape(pos));
      ExtendDrawable(m, tokens, x[..i], Pick(p[i], tape(pos)));
    } else {
      var (yes, at) := Decided(AcceptRatio(p[i][x[i]], q[i][x[i]]), tape, pos);
      if yes {
        AcceptedIsDrawable(p[i][x[i]], q[i][x[i]], tape, pos);
        ExtendDrawable(m, tokens, x[..i], x[i]);
        assert x[..i] + [x[i]] == x[..i + 1];
        VerifyDrawable(m, tokens, x, q, p, i + 1, tape, at);
      } else {
        ResampledIsDrawable(p[i], q[i], m.vocab, tape(at));
        ExtendDrawable(m, tokens, x[..i], Pick(ResampleDist(p[i], q[i]), tape(at)));
      }
    }
  }

  lemma PassDrawable(m: ValidModels, cfg: Config, st: RunState, tape: Tape, pos: nat) returns (z: seq<nat>)
    requires st.remaining > 0
    ensures OnePass(m, cfg, st, tape, pos).next.tokens == st.tokens + z && Drawable(m, st.tokens, z)
  {
    hide VerifyRun, Proposals, DraftProbs, TargetProbs, FirstEos, Shown, Drawable;
    var x := Proposals(m, st.tokens, Width(st), tape, pos);
    var q, p := DraftProbs(m, st.tokens, x), TargetProbs(m, st.tokens, x);
    NothingDrawn(m, st.tokens, x[..0]);
    VerifyDrawable(m, st.tokens, x, q, p, 0, tape, pos + |x|);
    var y := Verified(x, VerifyRun(x, q, p, 0, tape, pos + |x|));
    z := Shown(y, cfg.eos);
    PrefixDrawable(m, st.tokens, y, z);
  }

  lemma NothingDrawn(m: ValidModels, tokens: seq<nat>, y: seq<nat>)
    requires y == []
    ensures Drawable(m, tokens, y)
  {}

  lemma PrefixDrawable(m: ValidModels, tokens: seq<nat>, y: seq<nat>, z: seq<nat>)
    requires Drawable(m, tokens, y) && z <= y
    ensures Drawable(m, tokens, z)
  {
    forall j | 0 <= j < |z| ensures z[j] < m.vocab && m.P(tokens + z[..j])[z[j]] > 0.0 {
      assert z[..j] == y[..j];
    }
  }

  lemma JoinDrawable(m: ValidModels, tokens: seq<nat>, y: seq<nat>, z: seq<nat>)
    requires Drawable(m, tokens, y) && Drawable(m, tokens + y, z)
    ensures Drawable(m, tokens, y + z)
  {
    var w := y + z;
    forall j | 0 <= j < |w| ensures w[j] < m.vocab && m.P(tokens + w[..j])[w[j]] > 0.0 {
      if j < |y| {
        assert w[..j] == y[..j];
      } else {
        assert tokens + w[..j] == (tokens + y) + z[..j - |y|];
      }
    }
  }

  /** On every tape, every token a generation adds has positive probability under the target after the tokens
      before it: neither the draft nor a rejection lets in a token the target would not draw. */
  lemma {:induction false} GenerationIsDrawable(m: ValidModels, cfg: Config, st: RunState, tape: Tape, pos: nat)
      returns (y: seq<nat>)
    ensures Generation(m, cfg, st, tape, pos).0.tokens == st.tokens + y && Drawable(m, st.tokens, y)
    decreases st.remaining
  {
    hide OnePass, Drawable;
    if st.remaining == 0 {
      y := [];
      NoneDrawable(m, st.tokens);
      assert st.tokens + [] == st.tokens;
    } else {
      y := PassDrawable(m, cfg, st, tape, pos);
      var r := OnePass(m, cfg, st, tape, pos);
      if !r.ended {
        var z := GenerationIsDrawable(m, cfg, r.next, tape, r.pos);
        JoinDrawable(m, st.tokens, y, z);
        assert (st.tokens + y) + z == st.tokens + (y + z);
        y := y + z;
      }
    }
  }

  lemma NoneDrawable(m: ValidModels, tokens: seq<nat>)
    ensures Drawable(m, tokens, [])
  {}

  // ---- greedy ----------------------------------------------------------------------------------------

  type GreedyNetworks = net: Networks | net.Valid() && net.sampling.Greedy()
    witness Networks(1, (ctx: seq<nat>) => [0.0], (ctx: seq<nat>) => [0.0],
                     SamplingParams(false, 1.0, (logits: seq<real>) => logits))

  function Best(net: GreedyNetworks, ctx: seq<nat>): (t: nat)
    ensures t < net.vocab
  {
    ArgMax(net.target(ctx))
  }

  // Plain greedy decoding: the target's argmax, one token at a time, up to end-of-sequence.
  function GreedyDecode(net: GreedyNetworks, eos: set<nat>, tokens: seq<nat>, remaining: nat): seq<nat>
    decreases remaining
  {
    if remaining == 0 then tokens
    else
      var t := Best(net, tokens);
      if t in eos then tokens + [t] else GreedyDecode(net, eos, tokens + [t], remaining - 1)
  }

  ghost predicate AllGreedy(net: GreedyNetworks, tokens: seq<nat>, y: seq<nat>) {
    forall j :: 0 <= j < |y| ==> y[j] == Best(net, tokens + y[..j])
  }

  // Where greedy decoding ends up once it has emitted `y`.
  function GreedyAfter(net: GreedyNetworks, eos: set<nat>, tokens: seq<nat>, remaining: nat, y: seq<nat>): seq<nat>
    requires |y| <= remaining
  {
    var e := FirstEos(y, eos);
    if e < |y| then tokens + Shown(y, eos) else GreedyDecode(net, eos, tokens + y, remaining - |y|)
  }

  lemma GreedyAfterTail(net: GreedyNetworks, eos: set<nat>, tokens: seq<nat>, remaining: nat, y: seq<nat>)
    requires 0 < |y| <= remaining && y[0] !in eos
    ensures GreedyAfter(net, eos, tokens, remaining, y)
         == GreedyAfter(net, eos, tokens + [y[0]], remaining - 1, y[1..])
  {
    var rest, next := y[1..], tokens + [y[0]];
    var e := FirstEos(rest, eos);
    assert FirstEos(y, eos) == e + 1;
    if e < |rest| {
      assert next + rest[..e + 1] == tokens + y[..e + 2];
    } else {
      assert next + rest == tokens + y;
    }
  }

  lemma {:induction false} GreedyPrefix(net: GreedyNetworks, eos: set<nat>, tokens: seq<nat>, remaining: nat, y: seq<nat>)
    requires AllGreedy(net, tokens, y) && |y| <= remaining
    ensures GreedyDecode(net, eos, tokens, remaining) == GreedyAfter(net, eos, tokens, remaining, y)
    decreases |y|
  {
    hide GreedyDecode, GreedyAfter, AllGreedy, Best;
    if y == [] {
      GreedyAfterNothing(net, eos, tokens, remaining);
    } else {
      GreedyStep(net, eos, tokens, remaining);
      GreedyTail(net, tokens, y);
      if y[0] in eos {
        GreedyAfterEnd(net, eos, tokens, remaining, y);
      } else {
        GreedyPrefix(net, eos, tokens + [y[0]], remaining - 1, y[1..]);
        GreedyAfterTail(net, eos, tokens, remaining, y);
      }
    }
  }

  lemma GreedyStep(net: GreedyNetworks, eos: set<nat>, tokens: seq<nat>, remaining: nat)
    requires remaining > 0
    ensures var t := Best(net, tokens);
      GreedyDecode(net, eos, tokens, remaining)
        == if t in eos then tokens + [t] else GreedyDecode(net, eos, tokens + [t], remaining - 1)
  {
    hide Best;
  }

  lemma GreedyAfterNothing(net: GreedyNetworks, eos: set<nat>, tokens: seq<nat>, remaining: nat)
    ensures GreedyAfter(net, eos, tokens, remaining, []) == GreedyDecode(net, eos, tokens, remaining)
  {
    hide GreedyDecode;
    assert tokens + [] == tokens;
  }

  lemma GreedyAfterEnd(net: GreedyNetworks, eos: set<nat>, tokens: seq<nat>, remaining: nat, y: seq<nat>)
    requires 0 < |y| <= remaining && y[0] in eos
    ensures GreedyAfter(net, eos, tokens, remaining, y) == tokens + [y[0]]
  {
    hide GreedyDecode;
    assert y[..1] == [y[0]];
  }

  lemma GreedyTail(net: GreedyNetworks, tokens: seq<nat>, y: seq<nat>)
    requires AllGreedy(net, tokens, y) && |y| > 0
    ensures y[0] == Best(net, tokens) && AllGreedy(net, tokens + [y[0]], y[1..])
  {
    assert tokens + y[..0] == tokens;
    forall j | 0 <= j < |y[1..]| ensures y[1..][j] == Best(net, tokens + [y[0]] + y[1..][..j]) {
      assert tokens + [y[0]] + y[1..][..j] == tokens + y[..j + 1];
    }
  }

  lemma ExtendGreedy(net: GreedyNetworks, tokens: seq<nat>, y: seq<nat>)
    requires AllGreedy(net, tokens, y)
    ensures AllGreedy(net, tokens, y + [Best(net, tokens + y)])
  {
    var z := y + [Best(net, tokens + y)];
    forall j | 0 <= j < |z| ensures z[j] == Best(net, tokens + z[..j]) {
      assert z[..j] == if j < |y| then y[..j] else y;
    }
  }

  // Replacing a rejected proposal between point masses puts back the target's argmax.
  lemma GreedyResample(a: nat, b: nat, n: nat)
    requires a < n && b < n
    ensures ResampleDist(OneHot(a, n), OneHot(b, n)) == OneHot(a, n)
  {
    SumOneHot(a, n);
    var residual := Residual(OneHot(a, n), OneHot(b, n));
    if a == b {
      SumConst0(residual);
    } else {
      assert residual == OneHot(a, n);
      assert Normalized(residual) == OneHot(a, n);
    }
  }

  // Under greedy sampling verification keeps the longest run of proposals that are the target's argmax, and
  // draws the argmax after them.
  lemma GreedyVerify(net: GreedyNetworks, tokens: seq<nat>, x: seq<nat>, q: seq<seq<real>>, p: seq<seq<real>>,
                     i: nat, tape: Tape, pos: nat)
    requires InVocab(net.Warped(), x) && i <= |x|
    requires q == DraftProbs(net.Warped(), tokens, x) && p == TargetProbs(net.Warped(), tokens, x)
    requires AllGreedy(net, tokens, x[..i])
    ensures var v := VerifyRun(x, q, p, i, tape, pos);
      && AllGreedy(net, tokens, x[..v.accepted]) && AllGreedy(net, tokens, Verified(x, v))
      && (v.accepted < |x| ==> x[v.accepted] != Best(net, tokens + x[..v.accepted]))
    decreases |x| - i
  {
    var a := Best(net, tokens + x[..i]);
    PickOneHot(a, net.vocab, tape(pos));
    ExtendGreedy(net, tokens, x[..i]);
    if i < |x| {
      var b := ArgMax(net.draft(tokens + x[..i]));
      GreedyResample(a, b, net.vocab);
      if x[i] == a {
        assert x[..i] + [a] == x[..i + 1];
        GreedyVerify(net, tokens, x, q, p, i + 1, tape, pos);
      }
    }
  }

  // Between point masses a proposal is kept or not without a draw.
  lemma GreedyRatio(a: nat, b: nat, n: nat, t: nat)
    requires a < n && b < n && t < n
    ensures var ratio := AcceptRatio(OneHot(a, n)[t], OneHot(b, n)[t]); ratio >= 1.0 || ratio <= 0.0
  {}

  /** Greedy verification draws once, for its own token, however many proposals it decides on. */
  lemma {:induction false} GreedyReadsOne(net: GreedyNetworks, tokens: seq<nat>, x: seq<nat>, i: nat, tape: Tape, pos: nat)
    requires InVocab(net.Warped(), x) && i <= |x|
    ensures VerifyRun(x, DraftProbs(net.Warped(), tokens, x), TargetProbs(net.Warped(), tokens, x), i, tape, pos).pos
         == pos + 1
    decreases |x| - i
  {
    hide AcceptRatio, ResampleDist;
    if i < |x| {
      var ctx := tokens + x[..i];
      GreedyRatio(Best(net, ctx), ArgMax(net.draft(ctx)), net.vocab, x[i]);
      GreedyReadsOne(net, tokens, x, i + 1, tape, pos);
    }
  }

  // One pass of greedy speculation advances plain greedy decoding.
  lemma GreedyPass(net: GreedyNetworks, cfg: Config, st: RunState, tape: Tape, pos: nat)
    requires st.remaining > 0
    ensures var r := OnePass(net.Warped(), cfg, st, tape, pos);
      GreedyDecode(net, cfg.eos, st.tokens, st.remaining)
      == if r.ended then r.next.tokens else GreedyDecode(net, cfg.eos, r.next.tokens, r.next.remaining)
  {
    hide VerifyRun, Proposals, DraftProbs, TargetProbs, GreedyDecode, AllGreedy, Best;
    var m := net.Warped();
    var x := Proposals(m, st.tokens, Width(st), tape, pos);
    var q, p := DraftProbs(m, st.tokens, x), TargetProbs(m, st.tokens, x);
    GreedyVerify(net, st.tokens, x, q, p, 0, tape, pos + |x|);
    GreedyPrefix(net, cfg.eos, st.tokens, st.remaining, Verified(x, VerifyRun(x, q, p, 0, tape, pos + |x|)));
  }

  /** Greedy speculation, whatever the draft, the widths and the tape, returns plain greedy decoding. */
  lemma {:induction false} GreedySpeculationIsGreedy(net: GreedyNetworks, cfg: Config, st: RunState, tape: Tape, pos: nat)
    ensures Generation(net.Warped(), cfg, st, tape, pos).0.tokens == GreedyDecode(net, cfg.eos, st.tokens, st.remaining)
    decreases st.remaining
  {
    if st.remaining > 0 {
      GreedyPass(net, cfg, st, tape, pos);
      var r := OnePass(net.Warped(), cfg, st, tape, pos);
      if !r.ended {
        GreedySpeculationIsGreedy(net, cfg, r.next, tape, r.pos);
      }
    }
  }
}
