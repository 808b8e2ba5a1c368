/** How long a recorded response is: what the stop test counts, and when that is what the request asked for.

    The test compares `base + accepted + 1` with the requested number of tokens. `base` includes the prompt and
    leaves out the carried token, so it does not count generated tokens. */
module SpeculativeLength {
  import opened Common
  import opened SpeculativeRound
  import opened SpeculativeSession
  import opened SpeculativeDecoding
  import opened SpeculativeSeed

  /** A round is the last one exactly if prompt and response, without the token carried into it, reach the limit. */
  lemma StopTestCountsPromptAndNotCarry(c: Setup, w: World, net: Net, e: Event)
    requires WellFormed(c) && Seed(c) == |c.prompt| && Inv(c, w) && Regular(c, w, e)
    requires Served(w, e).Some? && Served(w, e).value.phase.Verifying? && Served(w, e).value.phase.pos + 1 == |c.shards|
    requires e.reply.nextTokenIds.Some?
    ensures var p, p' := Served(w, e).value, WorldStep(c, w, net, e).s.pipeline;
            && p'.Some? && p'.value.phase.AwaitingRollback?
            && (p'.value.phase.rb.finalizing <==>
                  |c.prompt| + |p'.value.generated| - CarryLen(p.carry) >= c.maxTokens)
  {
    hide Greedy;
    var p := Served(w, e).value;
    assert w.caches[p.phase.pos] == Committed(c, p)[..p.base];
    var out := VerifyRound(p.carry, p.expected0, p.phase.draft, e.reply.nextTokenIds.value);
    RoundArithmetic(c, p.base, p.carry, |p.generated|, p.round - 1, out.acceptedCount);
  }

  /** Every response of every honest and orderly run, for every target, has the requested number of tokens. */
  ghost predicate ResponsesAreFull(c: Setup) {
    forall next: Target, net: Net, run: seq<Stimulus> ::
      var t := c.(next := next);
      RegularRun(t, Init(t, net), run) ==>
        forall line | line in Run(t, Init(t, net), run).s.sent && line.Record? :: c.maxTokens <= |line.tokens|
  }

  /** What the request must look like for that. */
  predicate FullByDesign(c: Setup) {
    c.maxTokens <= 1 || |c.prompt| == 0 || (|c.prompt| == 1 && c.maxDraft + 2 < c.maxTokens)
  }

  lemma ResponsesAreFullIffByDesign(c: Setup)
    requires WellFormed(c) && c.maxDraft > 0 && Seed(c) == |c.prompt|
    ensures ResponsesAreFull(c) <==> FullByDesign(c)
  {
    if FullByDesign(c) {
      forall next: Target, net: Net, run: seq<Stimulus> | RegularRun(c.(next := next), Init(c.(next := next), net), run)
        ensures forall line | line in Run(c.(next := next), Init(c.(next := next), net), run).s.sent && line.Record? ::
                  c.maxTokens <= |line.tokens|
      {
        var t := c.(next := next);
        InitHolds(t, net);
        RunKeeps(t, Init(t, net), run);
      }
    } else {
      var t := c.(next := Zero());
      var run, tokens := TooShortRun(t);
      assert RegularRun(t, Init(t, OneMiner()), run);
    }
  }

  // ---- A response that is too short ------------------------------------------------------------------

  /** A target that always predicts 0. */
  function Zero(): Target {
    (ctx: seq<u32>) => 0
  }

  function Zeros(n: nat): seq<u32> {
    seq(n, _ => 0)
  }

  /** The zero target accepts a draft of zeros as a whole. */
  lemma ZerosAreAccepted(c: Setup, p: Pipeline, cache: seq<u32>, n: nat)
    requires c.next == Zero() && p.expected0 == 0 && p.phase.Verifying? && p.phase.draft == Zeros(n)
    ensures Verdict(c, p, cache) == RoundOutcome(n, 0, true)
  {
    var logits := Logits(c.next, cache, Batch(p));
    assert forall i | 0 <= i <= n :: Prediction(p.carry, p.expected0, logits, i) == 0;
    OutcomeUnique(p.carry, p.expected0, p.phase.draft, logits, Verdict(c, p, cache), RoundOutcome(n, 0, true));
  }

  /** The zero target rejects the draft `[1]` and settles on 0. */
  lemma OneIsRejected(c: Setup, p: Pipeline, cache: seq<u32>)
    requires c.next == Zero() && p.expected0 == 0 && p.phase.Verifying? && p.phase.draft == [1]
    ensures Verdict(c, p, cache) == RoundOutcome(0, 0, false)
  {
    var logits := Logits(c.next, cache, Batch(p));
    assert Prediction(p.carry, p.expected0, logits, 0) == 0;
    OutcomeUnique(p.carry, p.expected0, p.phase.draft, logits, Verdict(c, p, cache), RoundOutcome(0, 0, false));
  }

  /** A run was honest, so the world it leads to satisfies the invariant. */
  lemma ReachedHolds(c: Setup, run: seq<Stimulus>, w: World)
    requires WellFormed(c) && Seed(c) == |c.prompt| && Extends(c, true, Init(c, OneMiner()), run, w)
    ensures Inv(c, w)
  {
    InitHolds(c, OneMiner());
    RunKeeps(c, Init(c, OneMiner()), run);
  }

  /** In a final rollback one session after the other acknowledges, and the response is recorded. */
  lemma {:induction false} AcksRecord(c: Setup, run: seq<Stimulus>, w: World, n: nat)
    returns (run': seq<Stimulus>, w': World)
    requires WellFormed(c) && Seed(c) == |c.prompt| && n <= |c.shards| && Extends(c, true, Init(c, OneMiner()), run, w)
    requires w.s.pipeline.Some? && w.s.counting == map[]
    requires var p := w.s.pipeline.value;
             && p.phase.AwaitingRollback? && p.phase.rb.finalizing
             && p.phase.rb.pending == (set i | n <= i < |c.shards| :: c.shards[i]) + {DRAFT_SESSION}
    ensures Extends(c, true, Init(c, OneMiner()), run', w')
    ensures exists line :: line in w'.s.sent && line.Record? && line.tokens == w.s.pipeline.value.generated
    decreases |c.shards| - n
  {
    ReachedHolds(c, run, w);
    hide PhaseInv, Greedy;
    var p := w.s.pipeline.value;
    var idx := if n < |c.shards| then c.shards[n] else DRAFT_SESSION;
    var e := RollbackAck(idx, true, None);
    var w1 := WorldStep(c, w, OneMiner(), e);
    ExtendByOne(c, true, Init(c, OneMiner()), run, w, e);
    if n < |c.shards| {
      assert DRAFT_SESSION in p.phase.rb.pending - {idx};
      var rest := set i | n + 1 <= i < |c.shards| :: c.shards[i];
      assert idx !in rest;
      assert p.phase.rb.pending - {idx} == rest + {DRAFT_SESSION};
      run', w' := AcksRecord(c, run + [Stimulus(OneMiner(), e)], w1, n + 1);
    } else {
      assert p.phase.rb.pending - {idx} == {};
      run', w' := run + [Stimulus(OneMiner(), e)], w1;
      assert w1.s.sent[|w1.s.sent| - 1].Record?;
    }
  }

  /** One round in the one-miner world, from the draft to the end of its rollback or to the record. */
  lemma RoundOf(c: Setup, run: seq<Stimulus>, w: World, cache: seq<u32>, draft: seq<u32>, accepted: nat)
    returns (run': seq<Stimulus>, w': World)
    requires WellFormed(c) && Seed(c) == |c.prompt| && c.next == Zero() && Extends(c, true, Init(c, OneMiner()), run, w)
    requires Drafting(c, w, cache) && w.s.pipeline.value.expected0 == 0 && |draft| <= c.maxDraft
    requires (draft == [1] && accepted == 0) || (draft == Zeros(accepted) && accepted > 0)
    ensures Extends(c, true, Init(c, OneMiner()), run', w')
    ensures var p := w.s.pipeline.value;
            var g := p.generated + draft[..accepted] + [0];
            if |c.prompt| + |g| - CarryLen(p.carry) >= c.maxTokens
            then exists line :: line in w'.s.sent && line.Record? && line.tokens == g
            else w'.s.pipeline.Some? && w'.s.pipeline.value.generated == g && w'.s.pipeline.value.expected0 == 0
                 && w'.s.pipeline.value.carry.Some? && exists cache' :: Drafting(c, w', cache')
  {
    var w0, p := Init(c, OneMiner()), w.s.pipeline.value;
    ReachedHolds(c, run, w);
    assert w.s.counting == map[];
    RoundArithmetic(c, p.base, p.carry, |p.generated|, p.round, accepted);
    var run1, w1 := DraftIsRelayed(c, true, w0, run, w, cache, draft);
    if accepted == 0 { OneIsRejected(c, w1.s.pipeline.value, cache); }
    else { ZerosAreAccepted(c, w1.s.pipeline.value, cache, accepted); }
    var run2, w2 := DraftIsVerified(c, true, w0, run1, w1, cache);
    if w2.s.pipeline.value.phase.rb.finalizing {
      run', w' := AcksRecord(c, run2, w2, 0);
    } else {
      run', w' := AcksEndRound(c, true, w0, run2, w2, 0, w2.caches);
      assert Drafting(c, w', Truncate(cache + Batch(w1.s.pipeline.value), AsU32(w2.s.pipeline.value.phase.rb.keepLen)));
    }
  }

  /** Rounds that reject every draft go on until the stop test ends them, before the response is full. */
  lemma {:induction false} RejectedRounds(c: Setup, run: seq<Stimulus>, w: World, cache: seq<u32>)
    returns (run': seq<Stimulus>, tokens: seq<u32>)
    requires WellFormed(c) && Seed(c) == |c.prompt| && c.next == Zero() && c.maxDraft > 0
    requires |c.prompt| >= 2 && c.maxTokens >= 2
    requires Extends(c, true, Init(c, OneMiner()), run, w) && Drafting(c, w, cache) && w.s.pipeline.value.expected0 == 0
    ensures RegularRun(c, Init(c, OneMiner()), run') && |tokens| < c.maxTokens
    ensures exists line :: line in Run(c, Init(c, OneMiner()), run').s.sent && line.Record? && line.tokens == tokens
    decreases c.maxTokens + 1 - |w.s.pipeline.value.generated|
  {
    ReachedHolds(c, run, w);
    var p := w.s.pipeline.value;
    var run1, w1 := RoundOf(c, run, w, cache, [1], 0);
    tokens := p.generated + [1][..0] + [0];
    if |c.prompt| + |tokens| - CarryLen(p.carry) >= c.maxTokens {
      run' := run1;
    } else {
      var cache1 :| Drafting(c, w1, cache1);
      run', tokens := RejectedRounds(c, run1, w1, cache1);
    }
  }

  /** An honest and orderly run of a request outside the design that records fewer tokens than requested. */
  lemma TooShortRun(c: Setup) returns (run: seq<Stimulus>, tokens: seq<u32>)
    requires WellFormed(c) && Seed(c) == |c.prompt| && c.next == Zero() && c.maxDraft > 0 && !FullByDesign(c)
    ensures RegularRun(c, Init(c, OneMiner()), run) && |tokens| < c.maxTokens
    ensures exists line :: line in Run(c, Init(c, OneMiner()), run).s.sent && line.Record? && line.tokens == tokens
  {
    var run1, w1 := PromptPassSeedsBase(c);
    if |c.prompt| >= 2 {
      run, tokens := RejectedRounds(c, run1, w1, c.prompt);
    } else {
      var accepted := c.maxTokens - 2;
      var draft := if accepted == 0 then [1] else Zeros(accepted);
      var run2, w2 := RoundOf(c, run1, w1, c.prompt, draft, accepted);
      run, tokens := run2, w1.s.pipeline.value.generated + draft[..accepted] + [0];
    }
  }
}
