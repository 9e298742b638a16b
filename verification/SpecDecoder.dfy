// The decoding loop itself: two caches, a token sequence and a random source updated in step, proved
// against the randomized program of module Speculation.
module SpecDecoder {
  import opened Rounding
  import opened Distributions
  import opened Speculation
  import opened SpeculationRun

  /** The random generator: a tape of uniform draws and how far it has been read. */
  class Generator {
    const tape: Tape
    var pos: nat

    constructor (tape: Tape)
      ensures this.tape == tape && pos == 0
    {
      this.tape := tape;
      pos := 0;
    }

    method Uniform() returns (u: real)
      modifies this
      ensures u == tape(old(pos)) && pos == old(pos) + 1
    {
      u := tape(pos);
      pos := pos + 1;
    }

    method Draw(d: seq<real>) returns (t: nat)
      requires |d| > 0
      modifies this
      ensures t == Pick(d, tape(old(pos))) && pos == old(pos) + 1
    {
      var u := Uniform();
      t := Pick(d, u);
    }
  }

  /** A KV cache, as the token sequence whose keys and values it holds. */
  class TokenCache {
    var tokens: seq<nat>

    constructor ()
      ensures tokens == []
    {
      tokens := [];
    }

    method Crop(length: nat)
      modifies this
      ensures tokens == if length < |old(tokens)| then old(tokens)[..length] else old(tokens)
    {
      if length < |tokens| {
        tokens := tokens[..length];
      }
    }

    // A forward pass over `input`: one row of logits per input position, each conditioned on
    // everything cached before it.
    method Forward(model: seq<nat> -> seq<real>, input: seq<nat>) returns (logits: seq<seq<real>>)
      modifies this
      ensures tokens == old(tokens) + input
      ensures |logits| == |input|
      ensures forall j :: 0 <= j < |input| ==> logits[j] == model(old(tokens) + input[..j + 1])
    {
      var held := tokens;
      logits := seq(|input|, j requires 0 <= j < |input| => model(held + input[..j + 1]));
      tokens := tokens + input;
    }
  }

  /** The client's side of the streamer protocol: everything put so far, end to end. */
  class Streamer {
    var shown: seq<nat>
    var ended: bool

    constructor ()
      ensures shown == [] && !ended
    {
      shown, ended := [], false;
    }

    method Put(tokens: seq<nat>)
      modifies this
      ensures shown == old(shown) + tokens && ended == old(ended)
    {
      shown := shown + tokens;
    }

    method End()
      modifies this
      ensures shown == old(shown) && ended
    {
      ended := true;
    }
  }

  /** The small resident model and its own cache. */
  class DraftModel {
    const net: Networks
    var cache: TokenCache?
    var forwards: nat

    constructor (net: Networks)
      ensures this.net == net && cache == null && forwards == 0
    {
      this.net := net;
      cache, forwards := null, 0;
    }

    method Reset()
      modifies this`cache
      ensures cache == null
    {
      cache := null;
    }

    method Crop(length: nat)
      modifies cache
      ensures cache != null ==>
        cache.tokens == if length < |old(cache.tokens)| then old(cache.tokens)[..length] else old(cache.tokens)
    {
      if cache != null {
        cache.Crop(length);
      }
    }

    // One draft forward over everything not yet cached, and one draw from what it predicts.
    method Step(sequence: seq<nat>, cached: nat, rng: Generator)
      returns (token: nat, distribution: seq<real>)
      requires net.Valid() && cached < |sequence|
      requires cache != null && cache.tokens == sequence[..cached]
      modifies cache, rng, this`forwards
      ensures cache.tokens == sequence && cache == old(cache)
      ensures distribution == net.Warped().Q(sequence)
      ensures token == Pick(distribution, rng.tape(old(rng.pos))) && rng.pos == old(rng.pos) + 1
      ensures forwards == old(forwards) + 1
    {
      var chunk := sequence[cached..];
      var logits := cache.Forward(net.draft, chunk);
      forwards := forwards + 1;
      assert sequence[..cached] + chunk[..|chunk|] == sequence;
      distribution := net.sampling.Distribution(logits[|logits| - 1]);
      token := rng.Draw(distribution);
    }

    // One more proposal after `tokens`, with the distribution it was drawn from.
    method ProposeOne(sequence: seq<nat>, tokens: seq<nat>, probs: seq<seq<real>>, cached: nat, rng: Generator,
                      ghost m: ValidModels, ghost pos0: nat)
      returns (moreTokens: seq<nat>, moreProbs: seq<seq<real>>)
      requires net.Valid() && m == net.Warped() && cached < |sequence| + |tokens|
      requires cache != null && cache.tokens == (sequence + tokens)[..cached]
      requires rng.pos == pos0 + |tokens| && Drafted(m, sequence, tokens, probs, rng.tape, pos0)
      modifies cache, rng, this`forwards
      ensures cache.tokens == sequence + tokens && cache == old(cache)
      ensures |moreTokens| == |tokens| + 1 && tokens <= moreTokens && rng.pos == old(rng.pos) + 1
      ensures forwards == old(forwards) + 1
      ensures Drafted(m, sequence, moreTokens, moreProbs, rng.tape, pos0)
    {
      var token, distribution := Step(sequence + tokens, cached, rng);
      moreTokens, moreProbs := tokens + [token], probs + [distribution];
      DraftProbsAppend(m, sequence, tokens, token);
      ProposalsAppend(m, sequence, |tokens|, rng.tape, pos0);
    }

    // Extend `sequence` by up to `k` tokens, one forward each; the last proposal is not fed back.
    method Propose(sequence: seq<nat>, cached: nat, k: nat, rng: Generator, ghost m: ValidModels)
      returns (tokens: seq<nat>, probs: seq<seq<real>>, nowCached: nat)
      requires net.Valid() && m == net.Warped() && cached <= |sequence|
      requires cache == null ==> cached == 0
      requires cache != null ==> cache.tokens == sequence[..cached]
      modifies this, cache, rng
      ensures cache != null && (cache == old(cache) || fresh(cache))
      ensures |tokens| == if cached < |sequence| then k else 0
      ensures Drafted(m, sequence, tokens, probs, rng.tape, old(rng.pos))
      ensures rng.pos == old(rng.pos) + |tokens| && forwards == old(forwards) + |tokens|
      ensures nowCached == if tokens == [] then cached else |sequence| + |tokens| - 1
      ensures nowCached <= |sequence| + |tokens| && cache.tokens == (sequence + tokens)[..nowCached]
    {
      if cache == null {
        cache := new TokenCache();
      }
      tokens, probs, nowCached := [], [], cached;
      while |tokens| < k
        invariant cache != null && (cache == old(cache) || fresh(cache))
        invariant |tokens| <= k
        invariant rng.pos == old(rng.pos) + |tokens| && forwards == old(forwards) + |tokens|
        invariant nowCached == if tokens == [] then cached else |sequence| + |tokens| - 1
        invariant cache.tokens == (sequence + tokens)[..nowCached]
        invariant cached < |sequence| || tokens == []
        invariant Drafted(m, sequence, tokens, probs, rng.tape, old(rng.pos))
        decreases k - |tokens|
      {
        if nowCached == |sequence| + |tokens| {
          break;
        }
        var shorter := tokens;
        tokens, probs := ProposeOne(sequence, tokens, probs, nowCached, rng, m, old(rng.pos));
        nowCached := |sequence| + |shorter|;
        assert (sequence + tokens)[..nowCached] == sequence + shorter;
      }
    }
  }

  lemma {:induction false} ProposalsAppend(m: ValidModels, ctx: seq<nat>, n: nat, tape: Tape, pos: nat)
    ensures var x := Proposals(m, ctx, n, tape, pos);
      Proposals(m, ctx, n + 1, tape, pos) == x + [Pick(m.Q(ctx + x), tape(pos + n))]
    decreases n
  {
    if n == 0 {
      assert ctx + [] == ctx;
    } else {
      var t := Pick(m.Q(ctx), tape(pos));
      var rest := Proposals(m, ctx + [t], n - 1, tape, pos + 1);
      ProposalsAppend(m, ctx + [t], n - 1, tape, pos + 1);
      assert ctx + [t] + rest == ctx + ([t] + rest);
    }
  }

  lemma DraftProbsAppend(m: ValidModels, ctx: seq<nat>, x: seq<nat>, t: nat)
    ensures DraftProbs(m, ctx, x + [t]) == DraftProbs(m, ctx, x) + [m.Q(ctx + x)]
  {
    var q := DraftProbs(m, ctx, x) + [m.Q(ctx + x)];
    forall j | 0 <= j <= |x| ensures DraftProbs(m, ctx, x + [t])[j] == q[j] {
      assert (x + [t])[..j] == if j < |x| then x[..j] else x;
    }
  }

  /** The accept/reject core. */
  method Verify(proposals: seq<nat>, draftProbs: seq<seq<real>>, targetProbs: seq<seq<real>>, rng: Generator)
    returns (accepted: nat, token: nat)
    requires |draftProbs| == |proposals| && |targetProbs| == |proposals| + 1
    requires forall j :: 0 <= j < |targetProbs| ==> |targetProbs[j]| > 0
    requires forall j :: 0 <= j < |proposals| ==>
               |draftProbs[j]| == |targetProbs[j]| && proposals[j] < |targetProbs[j]|
    modifies rng
    ensures accepted <= |proposals|
    ensures Verdict(accepted, token, rng.pos)
         == VerifyRun(proposals, draftProbs, targetProbs, 0, rng.tape, old(rng.pos))
  {
    accepted := 0;
    while accepted < |proposals|
      invariant accepted <= |proposals|
      invariant VerifyRun(proposals, draftProbs, targetProbs, 0, rng.tape, old(rng.pos))
             == VerifyRun(proposals, draftProbs, targetProbs, accepted, rng.tape, rng.pos)
    {
      var p, q := targetProbs[accepted], draftProbs[accepted];
      var ratio := AcceptRatio(p[proposals[accepted]], q[proposals[accepted]]);
      var keep := ratio >= 1.0;
      if !keep && ratio > 0.0 {
        var u := rng.Uniform();
        keep := u < ratio;
      }
      if !keep {
        token := rng.Draw(ResampleDist(p, q));
        return;
      }
      accepted := accepted + 1;
    }
    token := rng.Draw(targetProbs[|proposals|]);
  }

  // `k` is the integer nearest to `mean`, ties to the even one, held between one and `most`.
  predicate Nearest(k: int, mean: real, most: nat) {
    if mean < 0.5 then k == 1
    else if mean > most as real + 0.5 then k == most
    else mean - 0.5 <= k as real <= mean + 0.5 || (k == 1 && mean <= 1.5) || (k == most && mean >= most as real - 0.5)
  }

  lemma MeanRun(proposed: nat, accepted: nat)
    requires proposed > 0
    ensures accepted >= proposed ==> accepted as real / proposed as real >= 1.0
    ensures accepted < proposed ==>
      var rate := accepted as real / proposed as real;
      rate < 1.0 && rate / (1.0 - rate) == accepted as real / (proposed - accepted) as real
  {
    var p, a := proposed as real, accepted as real;
    Shares(a, p);
    if accepted < proposed {
      var rate := a / p;
      var mean := rate / (1.0 - rate);
      assert mean * (1.0 - rate) == rate;
      MeanTimes(mean, rate, p, a);
      QuotientIs(a, p - a, mean);
    }
  }

  lemma Shares(a: real, p: real)
    requires p > 0.0
    ensures a / p * p == a
    ensures a >= p ==> a / p >= 1.0
    ensures a < p ==> a / p < 1.0
  {}

  lemma MeanTimes(mean: real, rate: real, p: real, a: real)
    requires mean * (1.0 - rate) == rate && rate * p == a
    ensures mean * (p - a) == a
  {
    assert mean * ((1.0 - rate) * p) == (mean * (1.0 - rate)) * p;
    assert (1.0 - rate) * p == p - rate * p;
  }

  lemma QuotientIs(x: real, y: real, z: real)
    requires y > 0.0 && z * y == x
    ensures x / y == z
  {}

  // The next pass's proposal width: the mean run of acceptances at the rate measured so far.
  function Adapt(most: nat, lookahead: nat, proposed: nat, accepted: nat): (k: nat)
    ensures proposed == 0 ==> k == lookahead
    ensures most >= 1 && proposed > 0 ==> 1 <= k <= most
    ensures most >= 1 && 0 < proposed <= accepted ==> k == most
    ensures most >= 1 && accepted < proposed ==> Nearest(k, accepted as real / (proposed - accepted) as real, most)
  {
    if proposed == 0 then lookahead
    else
      var rate := accepted as real / proposed as real;
      var expected := if rate >= 1.0 then most as real else rate / (1.0 - rate);
      MeanRun(proposed, accepted);
      var k := RoundHalfEven(expected);
      var capped := if k < most then k else most;
      if capped < 1 then 1 else capped
  }

  datatype Outcome =
    | Generated(tokens: seq<nat>)
    | NotAPrefix         // the cache handed in holds more positions than the prompt
    | TooFewColumns      // nothing of the prompt is left to feed, so a column of logits is missing

  /** Runs one generation: draft K, verify in a single target pass, repeat. */
  class SpeculativeDecoder {
    const net: Networks
    const draft: DraftModel
    const maxLookahead: nat
    const cfg: Config
    var lookahead: nat
    var passes: nat
    var proposed: nat
    var accepted: nat
    var emitted: nat

    ghost predicate Valid()
      reads this
    {
      && net.Valid() && draft.net == net && 1 <= lookahead <= maxLookahead
      && forall l, p, a :: cfg.adapt(l, p, a) == Adapt(maxLookahead, l, p, a)
    }

    ghost function State(tokens: seq<nat>, remaining: nat): RunState
      reads this
    {
      RunState(tokens, remaining, lookahead, passes, proposed, accepted, emitted)
    }

    constructor (draft: DraftModel, lookahead: int, maxLookahead: int, eos: set<nat>)
      requires draft.net.Valid()
      ensures Valid() && this.draft == draft && cfg.eos == eos
      ensures passes == proposed == accepted == emitted == 0
    {
      var most := if maxLookahead > 1 then maxLookahead else 1;
      var width := if lookahead < most then lookahead else most;
      this.net, this.draft := draft.net, draft;
      cfg := Config(eos, (l, p, a) => Adapt(most, l, p, a));
      this.maxLookahead := most;
      this.lookahead := if width > 1 then width else 1;
      passes, proposed, accepted, emitted := 0, 0, 0, 0;
    }

    // One wide target pass over what is not yet cached plus the proposals, and its verdict on them.
    method TargetPass(sequence: seq<nat>, cached: nat, x: seq<nat>, q: seq<seq<real>>, cache: TokenCache,
                      rng: Generator, ghost m: ValidModels)
      returns (ok: bool, kept: nat, token: nat)
      requires Valid() && m == net.Warped()
      requires cached <= |sequence| && cache.tokens == sequence[..cached]
      requires InVocab(m, x) && q == DraftProbs(m, sequence, x)
      modifies cache, rng
      ensures ok == (cached < |sequence|)
      ensures cache.tokens == sequence + x
      ensures ok ==> kept <= |x| && Judged(m, sequence, x, Verdict(kept, token, rng.pos), rng.tape, old(rng.pos))
    {
      ghost var held := cache.tokens;
      var candidate := sequence[cached..] + x;
      var logits := cache.Forward(net.target, candidate);
      assert held + candidate == sequence + x;
      var width := |x| + 1;
      ok, kept, token := |logits| >= width, 0, 0;
      if ok {
        var p := ColumnProbs(net, logits, width);
        LogitColumns(net, m, sequence, held, candidate, x, logits);
        kept, token := Verify(x, q, p, rng);
      }
    }

    // A width that follows from the acceptance rate: nothing rejected asks for the most, otherwise the mean run
    // of acceptances is asked for.
    ghost predicate Follows(width: nat)
      reads this
    {
      && (proposed > 0 && accepted >= proposed ==> width == maxLookahead)
      && (accepted < proposed ==> Nearest(width, accepted as real / (proposed - accepted) as real, maxLookahead))
    }

    // The next pass's proposal width, from the acceptance rate measured so far.
    method AdaptWidth()
      requires Valid()
      modifies this`lookahead
      ensures Valid() && lookahead == cfg.adapt(old(lookahead), proposed, accepted)
      ensures Follows(lookahead)
    {
      lookahead := cfg.adapt(lookahead, proposed, accepted);
    }

    // After a pass over `sequence` that proposed `x` and produced `y`: take the rejected positions back
    // out of both caches.
    method RollBack(sequence: seq<nat>, cached: nat, x: seq<nat>, y: seq<nat>, nowDraft: nat, cache: TokenCache)
      returns (held: nat, draftHeld: nat)
      requires cached <= |sequence| && 0 < |y| <= |x| + 1 && y[..|y| - 1] == x[..|y| - 1]
      requires draft.cache != null && cache != draft.cache && cache.tokens == sequence + x
      requires nowDraft <= |sequence| + |x| && draft.cache.tokens == (sequence + x)[..nowDraft]
      modifies cache, draft.cache
      ensures held == |sequence + y| - 1 && draftHeld == Min(nowDraft, held)
      ensures InStep(sequence + y, held, draftHeld, cache)
    {
      var pending := |sequence| - cached;
      held := cached + pending + (|y| - 1);
      cache.Crop(held);
      draftHeld := if nowDraft < held then nowDraft else held;
      draft.Crop(draftHeld);
      assert (sequence + x)[..held] == sequence + x[..|y| - 1] == (sequence + y)[..held];
      assert (sequence + x)[..draftHeld] == (sequence + x)[..held][..draftHeld];
      assert (sequence + y)[..draftHeld] == (sequence + y)[..held][..draftHeld];
    }

    // The caches hold exactly the positions of `sequence` they are said to, the draft none of its last.
    ghost predicate InStep(sequence: seq<nat>, cached: nat, draftCached: nat, cache: TokenCache)
      reads cache, draft, draft.cache
    {
      && cache != draft.cache
      && cached <= |sequence| && cache.tokens == sequence[..cached]
      && draftCached <= cached
      && (draft.cache == null ==> draftCached == 0)
      && (draft.cache != null ==> draft.cache.tokens == sequence[..draftCached])
    }

    lemma NothingDrafted(prompt: seq<nat>, cache: TokenCache)
      requires draft.cache == null && cache.tokens <= prompt
      ensures InStep(prompt, |cache.tokens|, 0, cache)
    {}

    // Draft `k` proposals and verify them in one target pass.
    method Judge(sequence: seq<nat>, k: nat, cached: nat, draftCached: nat, cache: TokenCache, rng: Generator,
                 ghost m: ValidModels)
      returns (ok: bool, x: seq<nat>, kept: nat, token: nat, nowDraft: nat)
      requires Valid() && m == net.Warped() && InStep(sequence, cached, draftCached, cache)
      modifies cache, rng, draft, draft.cache
      ensures draft.cache != null && (draft.cache == old(draft.cache) || fresh(draft.cache))
      ensures ok == (cached < |sequence|)
      ensures cache.tokens == sequence + x
      ensures nowDraft <= |sequence| + |x| && draft.cache.tokens == (sequence + x)[..nowDraft]
      ensures draft.forwards == old(draft.forwards) + |x|
      ensures nowDraft == if x == [] then draftCached else |sequence| + |x| - 1
      ensures ok ==> kept <= |x| == k && x == Proposals(m, sequence, k, rng.tape, old(rng.pos))
      ensures ok ==> Judged(m, sequence, x, Verdict(kept, token, rng.pos), rng.tape, old(rng.pos) + k)
    {
      hide VerifyRun, Proposals, DraftProbs, TargetProbs, Networks.Valid, Networks.Warped, Models.Valid, IsDist;
      var q;
      x, q, nowDraft := draft.Propose(sequence, draftCached, k, rng, m);
      ok, kept, token := TargetPass(sequence, cached, x, q, cache, rng, m);
    }

    // Each pass emits what it accepted and one token of its own.
    method Account(k: nat, kept: nat, y: seq<nat>, ghost st: RunState)
      requires |y| == kept + 1 <= st.remaining && st == State(st.tokens, st.remaining)
      modifies this`passes, this`proposed, this`accepted, this`emitted
      ensures State(st.tokens + Shown(y, cfg.eos), st.remaining - |y|) == Counted(cfg, st, k, kept, y)
      ensures emitted - old(emitted) == accepted - old(accepted) + passes - old(passes)
      ensures emitted == old(emitted) + |y| && passes == old(passes) + 1 && proposed == old(proposed) + k
    {
      hide Shown, FirstEos;
      passes, proposed, accepted, emitted := passes + 1, proposed + k, accepted + kept, emitted + |y|;
    }

    /** One pass up to the counters: draft `x`, produce `y`, account for both. */
    method Forward(sequence: seq<nat>, room: nat, cached: nat, draftCached: nat, cache: TokenCache, rng: Generator,
                   ghost m: ValidModels)
      returns (ok: bool, x: seq<nat>, y: seq<nat>, nowDraft: nat)
      requires Valid() && m == net.Warped() && room > 0 && InStep(sequence, cached, draftCached, cache)
      modifies this, cache, rng, draft, draft.cache
      ensures Valid() && lookahead == old(lookahead)
      ensures draft.cache != null && (draft.cache == old(draft.cache) || fresh(draft.cache))
      ensures ok == (cached < |sequence|)
      ensures cache.tokens == sequence + x
      ensures nowDraft <= |sequence| + |x| && draft.cache.tokens == (sequence + x)[..nowDraft]
      ensures ok ==> 0 < |y| <= |x| + 1 && |y| <= room && y[..|y| - 1] == x[..|y| - 1]
      ensures ok ==> (OnePass(m, cfg, old(State(sequence, room)), rng.tape, old(rng.pos))
                   == EndOf(cfg, State(sequence + Shown(y, cfg.eos), room - |y|), y, rng.pos))
      ensures ok ==> emitted - old(emitted) == accepted - old(accepted) + passes - old(passes)
      ensures ok ==> passes == old(passes) + 1 && emitted == old(emitted) + |y|
      ensures ok ==>
        proposed - old(proposed) == draft.forwards - old(draft.forwards) == |x| == Min(old(lookahead), room - 1)
      ensures nowDraft == if x == [] then draftCached else |sequence| + |x| - 1
    {
      hide VerifyRun, Proposals, DraftProbs, TargetProbs, FirstEos, Shown, OnePass, EndOf, Networks.Valid,
        Networks.Warped, Models.Valid, IsDist, Judged, InStep, Counted, Adapt;
      var kept, token;
      ok, x, kept, token, nowDraft := Judge(sequence, Min(lookahead, room - 1), cached, draftCached, cache, rng, m);
      y := [];
      if ok {
        ghost var st, v := State(sequence, room), Verdict(kept, token, rng.pos);
        OnePassIs(m, cfg, st, x, v, rng.tape, old(rng.pos));
        y := (x[..kept] + [token])[..Min(kept + 1, room)];
        assert y == Verified(x, v);
        Account(|x|, kept, y, st);
      }
    }

    // After a pass that produced `y`: stream what the caller may see, roll the caches back, adapt the width.
    method Settle(sequence: seq<nat>, ghost room: nat, cached: nat, x: seq<nat>, y: seq<nat>, nowDraft: nat,
                  cache: TokenCache, streamer: Streamer?)
      returns (ended: bool, more: seq<nat>, held: nat, draftHeld: nat)
      requires Valid() && cached <= |sequence| && 0 < |y| <= |x| + 1 && y[..|y| - 1] == x[..|y| - 1] && |y| <= room
      requires draft.cache != null && cache != draft.cache && cache.tokens == sequence + x
      requires nowDraft <= |sequence| + |x| && draft.cache.tokens == (sequence + x)[..nowDraft]
      modifies this`lookahead, cache, draft.cache, streamer
      ensures Valid() && ended == (FirstEos(y, cfg.eos) < |y|) && more == Shown(y, cfg.eos)
      ensures streamer != null ==> streamer.shown == old(streamer.shown) + more && streamer.ended == old(streamer.ended)
      ensures held == |sequence + y| - 1 == |cache.tokens| && draftHeld == Min(nowDraft, held)
      ensures InStep(sequence + y, held, draftHeld, cache) && (!ended ==> Follows(lookahead))
      ensures ended ==> lookahead == old(lookahead)
      ensures !ended ==> State(sequence + y, room - |y|) == Adapted(cfg, old(State(sequence + y, room - |y|)))
    {
      hide FirstEos, Shown, Networks.Valid, InStep, Follows, Adapt, Adapted;
      more := Shown(y, cfg.eos);
      if streamer != null {
        streamer.Put(more);
      }
      held, draftHeld := RollBack(sequence, cached, x, y, nowDraft, cache);
      ended := FirstEos(y, cfg.eos) < |y|;
      if !ended {
        AdaptWidth();
        AdaptedIs(cfg, old(State(sequence + y, room - |y|)), State(sequence + y, room - |y|));
      }
    }

    /** One pass: draft, verify, stream what the caller may see, roll the caches back, adapt the width.
        `k` is how many tokens were proposed; `whole` is all the pass produced, which the caches are left in step
        with even when the caller is not shown what follows an end-of-sequence token; `goal` is what the whole
        generation comes to. */
    method Pass(sequence: seq<nat>, room: nat, cached: nat, draftCached: nat, cache: TokenCache, rng: Generator,
                streamer: Streamer?, ghost m: ValidModels, ghost goal: (RunState, nat))
      returns (ok: bool, ended: bool, more: seq<nat>, held: nat, draftHeld: nat, ghost k: nat, ghost whole: seq<nat>)
      requires Valid() && m == net.Warped() && room > 0 && InStep(sequence, cached, draftCached, cache)
      requires goal == Generation(m, cfg, State(sequence, room), rng.tape, rng.pos)
      modifies this, cache, rng, draft, draft.cache, streamer
      ensures Valid()
      ensures draft.cache != null && (draft.cache == old(draft.cache) || fresh(draft.cache))
      ensures ok == (cached < |sequence|)
      ensures ok ==> emitted - old(emitted) == accepted - old(accepted) + passes - old(passes) == |whole|
      ensures ok ==> passes == old(passes) + 1 && (!ended ==> Follows(lookahead))
      ensures ok ==> k == Min(old(lookahead), room - 1)
      ensures ok ==> proposed - old(proposed) == draft.forwards - old(draft.forwards) == k
      ensures ok ==> draftHeld == Min(if k == 0 then draftCached else |sequence| + k - 1, held)
      ensures ok && streamer != null ==>
        streamer.shown == old(streamer.shown) + more && streamer.ended == old(streamer.ended)
      ensures ok && ended ==> goal == (State(sequence + more, goal.0.remaining), rng.pos)
      ensures ok ==> held == |sequence + whole| - 1 == |cache.tokens| && InStep(sequence + whole, held, draftHeld, cache)
      ensures ok ==> more == Shown(whole, cfg.eos) && 0 < |whole| <= room && (!ended ==> whole == more)
      ensures ok && !ended ==> goal == Generation(m, cfg, State(sequence + more, room - |more|), rng.tape, rng.pos)
    {
      hide OnePass, EndOf, Adapted, FirstEos, Shown, Generation, Networks.Valid, Networks.Warped, Models.Valid, IsDist,
        Follows, Adapt;
      ghost var st, pos := State(sequence, room), rng.pos;
      var x, y, nowDraft;
      ok, x, y, nowDraft := Forward(sequence, room, cached, draftCached, cache, rng, m);
      ended, more, held, draftHeld, k, whole := false, [], 0, 0, |x|, y;
      if ok {
        PassLeads(m, cfg, st, State(sequence + Shown(y, cfg.eos), room - |y|), y, rng.tape, pos, rng.pos);
        ended, more, held, draftHeld := Settle(sequence, room, cached, x, y, nowDraft, cache, streamer);
      }
    }

    // Pass after pass until the budget is spent or an end-of-sequence token is met.
    method Decode(prompt: seq<nat>, maxNew: nat, held0: nat, cache: TokenCache, rng: Generator, streamer: Streamer?,
                  ghost m: ValidModels, ghost goal: (RunState, nat))
      returns (r: Outcome)
      requires Valid() && m == net.Warped() && draft.cache == null && held0 <= |prompt| && InStep(prompt, held0, 0, cache)
      requires goal == Generation(m, cfg, State(prompt, maxNew), rng.tape, rng.pos)
      modifies this, cache, rng, draft, streamer
      ensures Valid() && r != NotAPrefix
      ensures r == TooFewColumns <==> maxNew > 0 && held0 == |prompt|
      ensures r.Generated? ==> goal == (State(r.tokens, goal.0.remaining), rng.pos)
      ensures r.Generated? ==> prompt <= r.tokens
      ensures r.Generated? && streamer != null ==>
        streamer.ended && streamer.shown == old(streamer.shown) + r.tokens[|prompt|..]
      ensures r.Generated? ==> emitted - old(emitted) == accepted - old(accepted) + passes - old(passes) <= maxNew
      ensures r.Generated? ==> proposed - old(proposed) == draft.forwards - old(draft.forwards)
      ensures r.Generated? && maxNew > 0 ==> |cache.tokens| == |prompt| + (emitted - old(emitted)) - 1
    {
      hide OnePass, Generation, Shown, FirstEos, Networks.Valid, Networks.Warped, Models.Valid, IsDist, InStep, Follows,
        Adapt, Valid;
      var produced, cached, draftCached, done := [], held0, 0, 0;
      AfterPrompt(prompt, []);
      while done < maxNew
        invariant Valid() && 0 <= done <= maxNew
        invariant draft.cache == null || fresh(draft.cache)
        invariant 0 <= draftCached && 0 <= cached && InStep(prompt + produced, cached, draftCached, cache)
        invariant done == 0 ==> produced == [] && cached == held0
        invariant done > 0 ==> cached == |prompt + produced| - 1 && held0 < |prompt|
        invariant goal == Generation(m, cfg, State(prompt + produced, maxNew - done), rng.tape, rng.pos)
        invariant streamer != null ==> streamer.shown == old(streamer.shown) + produced
        invariant (prompt + produced)[|prompt|..] == produced && prompt <= prompt + produced
        invariant emitted - old(emitted) == accepted - old(accepted) + passes - old(passes) == done == |produced|
        invariant proposed - old(proposed) == draft.forwards - old(draft.forwards)
        invariant done > 0 ==> |cache.tokens| == |prompt| + done - 1
      {
        var ok, ended, more, held, draftHeld, k, whole :=
          Pass(prompt + produced, maxNew - done, cached, draftCached, cache, rng, streamer, m, goal);
        if !ok {
          return TooFewColumns;
        }
        ConcatAssociates(prompt, produced, more);
        ConcatAssociates(if streamer == null then [] else old(streamer.shown), produced, more);
        produced := produced + more;
        AfterPrompt(prompt, produced);
        if ended {
          if streamer != null {
            streamer.End();
          }
          return Generated(prompt + produced);
        }
        done, cached, draftCached := done + |more|, held, draftHeld;
      }
      GenerationEnd(m, cfg, State(prompt + produced, 0), rng.tape, rng.pos);
      if streamer != null {
        streamer.End();
      }
      return Generated(prompt + produced);
    }

    /** Generate up to `maxNew` tokens. `handed` is a target cache already holding a prefix of the
        prompt. */
    method Generate(prompt: seq<nat>, maxNew: nat, rng: Generator, streamer: Streamer?, handed: TokenCache?)
      returns (r: Outcome)
      requires Valid() && (handed != null ==> handed != draft.cache)
      requires handed != null && |handed.tokens| <= |prompt| ==> handed.tokens <= prompt
      modifies this, draft, rng, streamer, handed
      ensures Valid()
      ensures r == NotAPrefix <==> handed != null && |old(handed.tokens)| > |prompt|
      ensures r == TooFewColumns <==> maxNew > 0 && |prompt| == if handed == null then 0 else |old(handed.tokens)|
      ensures r.Generated? ==>
        var (st, pos) := Generation(net.Warped(), cfg, old(State(prompt, maxNew)), rng.tape, old(rng.pos));
        r.tokens == st.tokens && rng.pos == pos && State(st.tokens, st.remaining) == st
      ensures r.Generated? && net.sampling.Greedy() ==> r.tokens == GreedyDecode(net, cfg.eos, prompt, maxNew)
      ensures r.Generated? && streamer != null ==>
        streamer.ended && streamer.shown == old(streamer.shown) + r.tokens
      ensures r.Generated? ==> emitted - old(emitted) == accepted - old(accepted) + passes - old(passes) <= maxNew
      ensures r.Generated? ==> proposed - old(proposed) == draft.forwards - old(draft.forwards)
      ensures r.Generated? && maxNew > 0 && handed != null ==>
        |handed.tokens| == |prompt| + (emitted - old(emitted)) - 1
    {
      hide OnePass, Generation, Networks.Valid, Networks.Warped, Models.Valid, IsDist, InStep, Adapt;
      ghost var m: ValidModels := net.Warped();
      ghost var goal := Generation(m, cfg, State(prompt, maxNew), rng.tape, rng.pos);
      GreedyGeneration(net, m, cfg, State(prompt, maxNew), rng.tape, rng.pos);
      var cache: TokenCache;
      if handed != null {
        cache := handed;
      } else {
        cache := new TokenCache();
      }
      draft.Reset();
      if streamer != null {
        streamer.Put(prompt);
      }
      if |cache.tokens| > |prompt| {
        return NotAPrefix;
      }
      NothingDrafted(prompt, cache);
      r := Decode(prompt, maxNew, |cache.tokens|, cache, rng, streamer, m, goal);
    }
  }

  // Where a pass that produced `y` leaves the generation, and that without an end-of-sequence token
  // everything produced is shown.
  lemma PassLeads(m: ValidModels, cfg: Config, st: RunState, next: RunState, y: seq<nat>, tape: Tape, pos: nat,
                  after: nat)
    requires st.remaining > 0 && OnePass(m, cfg, st, tape, pos) == EndOf(cfg, next, y, after)
    ensures FirstEos(y, cfg.eos) < |y| ==> Generation(m, cfg, st, tape, pos) == (next, after)
    ensures FirstEos(y, cfg.eos) == |y| ==>
      && Shown(y, cfg.eos) == y
      && Generation(m, cfg, st, tape, pos) == Generation(m, cfg, Adapted(cfg, next), tape, after)
  {
    hide OnePass, FirstEos, Generation, Models.Valid, Adapted;
    GenerationStep(m, cfg, st, EndOf(cfg, next, y, after), tape, pos);
  }

  lemma AdaptedIs(cfg: Config, st: RunState, next: RunState)
    requires next == st.(lookahead := cfg.adapt(st.lookahead, st.proposed, st.accepted))
    ensures next == Adapted(cfg, st)
  {}

  lemma GreedyGeneration(net: Networks, m: ValidModels, cfg: Config, st: RunState, tape: Tape, pos: nat)
    requires net.Valid() && m == net.Warped()
    ensures net.sampling.Greedy() ==>
      Generation(m, cfg, st, tape, pos).0.tokens == GreedyDecode(net, cfg.eos, st.tokens, st.remaining)
  {
    if net.sampling.Greedy() {
      GreedySpeculationIsGreedy(net, cfg, st, tape, pos);
    }
  }

  lemma ConcatAssociates(a: seq<nat>, b: seq<nat>, c: seq<nat>)
    ensures a + b + c == a + (b + c)
  {}

  lemma AfterPrompt(prompt: seq<nat>, produced: seq<nat>)
    ensures (prompt + produced)[|prompt|..] == produced && prompt <= prompt + produced && prompt + [] == prompt
  {}

  // The distributions of the last `width` columns of a pass.
  function ColumnProbs(net: Networks, logits: seq<seq<real>>, width: nat): (p: seq<seq<real>>)
    requires width <= |logits| && forall j :: 0 <= j < |logits| ==> |logits[j]| > 0
    ensures |p| == width
  {
    seq(width, i requires 0 <= i < width => net.sampling.Distribution(logits[|logits| - width + i]))
  }

  lemma SameContext(sequence: seq<nat>, held: seq<nat>, candidate: seq<nat>, x: seq<nat>, i: nat)
    requires held + candidate == sequence + x && |candidate| > |x| && i <= |x|
    ensures held + candidate[..|candidate| - |x| + i] == sequence + x[..i]
  {
    assert held + candidate[..|candidate| - |x| + i] == (held + candidate)[..|sequence| + i];
  }

  // They are the target's distributions at each proposal and after the last.
  lemma LogitColumns(net: Networks, m: ValidModels, sequence: seq<nat>, held: seq<nat>, candidate: seq<nat>,
                     x: seq<nat>, logits: seq<seq<real>>)
    requires net.Valid() && m == net.Warped()
    requires held + candidate == sequence + x && |candidate| > |x|
    requires |logits| == |candidate|
    requires forall j :: 0 <= j < |candidate| ==> logits[j] == net.target(held + candidate[..j + 1])
    ensures ColumnProbs(net, logits, |x| + 1) == TargetProbs(m, sequence, x)
  {
    hide Models.Valid, IsDist;
    var p := ColumnProbs(net, logits, |x| + 1);
    forall i | 0 <= i <= |x| ensures p[i] == m.P(sequence + x[..i]) {
      SameContext(sequence, held, candidate, x, i);
    }
  }
}
