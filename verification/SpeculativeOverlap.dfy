/** What goes wrong when a second reply to the prompt is accepted while the prompt is being counted.

    Meanwhile the request has no assignment, so a tick hands the same step to a second miner. Its count, too, is waited
    for, and resets the request to the start of its first round whenever it arrives. */
module SpeculativeOverlap {
  import opened Common
  import opened SpeculativeRound
  import opened SpeculativeSession
  import opened SpeculativeDecoding
  import opened SpeculativeSeed

  /** A target that predicts 1 only after three more tokens than the prompt has. */
  function ThirdIsOne(n: nat): Target {
    (ctx: seq<u32>) => if |ctx| == n + 3 then 1 else 0
  }

  lemma RightTokens(prompt: seq<u32>)
    ensures Greedy(ThirdIsOne(|prompt|), prompt, 4) == [0, 0, 0, 1]
  {
    var next := ThirdIsOne(|prompt|);
    assert Greedy(next, prompt, 1) == [0];
    assert Greedy(next, prompt, 2) == [0, 0];
    assert Greedy(next, prompt, 3) == [0, 0, 0];
  }

  function Second(): Net {
    Net(Some("x"), Some("m"), {"m", "x"})
  }

  /** Two handlers count the same prompt. */
  lemma TwoAreCounting(c: Setup) returns (run: seq<Stimulus>, w: World)
    requires WellFormed(c)
    ensures Extends(c, false, Init(c, OneMiner()), run, w)
    ensures var n := Counting(TextToCount(c), c.next(c.prompt)); w.s.counting == map["m" := n, "x" := n]
    ensures w.s.pipeline.Some? && w.s.shardAssignment.None? && w.s.draftAssignment.None?
    ensures |w.caches| == |c.shards| && forall i | 0 <= i < |c.shards| :: w.caches[i] == c.prompt
    ensures var p := w.s.pipeline.value;
            && p.shards == c.shards && p.maxTokens == c.maxTokens && p.promptHex == c.promptHex
            && p.draftWallet.None? && p.carry.None? && p.generated == []
  {
    var w0 := Init(c, OneMiner());
    var run0, w1 := PromptReachesLast(c);
    var e1 := PromptAnswer(c, "m");
    assert Served(w1, e1) == w1.s.pipeline;
    ExtendBy(c, false, w0, run0, w1, Stimulus(OneMiner(), e1));
    var w2 := WorldStep(c, w1, OneMiner(), e1);
    run := run0 + [Stimulus(OneMiner(), e1)];
    run, w := SecondCounts(c, run, w2);
  }

  lemma SecondCounts(c: Setup, run: seq<Stimulus>, w: World) returns (run': seq<Stimulus>, w': World)
    requires WellFormed(c) && Extends(c, false, Init(c, OneMiner()), run, w)
    requires w.s.pipeline.Some? && w.s.shardAssignment.None? && w.s.draftAssignment.None?
    requires w.s.counting == map["m" := Counting(TextToCount(c), c.next(c.prompt))]
    requires |w.caches| == |c.shards| && forall i | 0 <= i < |c.shards| :: w.caches[i] == c.prompt
    requires var p := w.s.pipeline.value;
             && p.shards == c.shards && p.maxTokens == c.maxTokens && p.promptHex == c.promptHex
             && p.draftWallet.None? && p.carry.None? && p.generated == []
             && p.phase.PromptProcessing? && p.phase.pos + 1 == |c.shards| && CountedText(p) == TextToCount(c)
    ensures Extends(c, false, Init(c, OneMiner()), run', w')
    ensures var n := Counting(TextToCount(c), c.next(c.prompt)); w'.s.counting == map["m" := n, "x" := n]
    ensures w'.s.pipeline.Some? && w'.s.shardAssignment.None? && w'.s.draftAssignment.None?
    ensures |w'.caches| == |c.shards| && forall i | 0 <= i < |c.shards| :: w'.caches[i] == c.prompt
    ensures var p, p' := w.s.pipeline.value, w'.s.pipeline.value; p' == p.(contributions := p'.contributions)
  {
    var w0 := Init(c, OneMiner());
    ExtendBy(c, false, w0, run, w, Stimulus(Second(), RetryTick));
    var w1 := WorldStep(c, w, Second(), RetryTick);
    var e := PromptAnswer(c, "x");
    assert Served(w1, e) == w1.s.pipeline;
    ExtendBy(c, false, w0, run + [Stimulus(Second(), RetryTick)], w1, Stimulus(OneMiner(), e));
    run' := run + [Stimulus(Second(), RetryTick)] + [Stimulus(OneMiner(), e)];
    w' := WorldStep(c, w1, OneMiner(), e);
  }

  lemma ZeroIsAccepted(c: Setup, p: Pipeline)
    requires c.next == ThirdIsOne(|c.prompt|) && p.carry.None? && p.expected0 == 0
    ensures Outcome(c, p, c.prompt, [0]) == RoundOutcome(1, 0, true)
  {
    var logits := Logits(c.next, c.prompt, CarrySeq(p.carry) + [0]);
    assert logits == [0];
    OutcomeUnique(p.carry, p.expected0, [0], logits, Outcome(c, p, c.prompt, [0]), RoundOutcome(1, 0, true));
  }

  /** One round was completed, with its draft accepted, before the second count arrives. */
  lemma FirstRoundDone(c: Setup) returns (run: seq<Stimulus>, w: World)
    requires WellFormed(c) && Seed(c) == |c.prompt| && c.maxDraft > 0 && c.maxTokens > |c.prompt| + 2
    requires c.next == ThirdIsOne(|c.prompt|)
    ensures Extends(c, false, Init(c, OneMiner()), run, w) && Drafting(c, w, c.prompt + [0])
    ensures w.s.counting == map["x" := Counting(TextToCount(c), c.next(c.prompt))]
    ensures var p := w.s.pipeline.value; p.carry == Some(0) && p.generated == [0, 0]
  {
    var w0 := Init(c, OneMiner());
    var run1, w1 := TwoAreCounting(c);
    hide Extends;
    var run2, w2 := PromptIsCounted(c, false, w0, run1, w1, "m");
    assert Drafting(c, w2, c.prompt);
    var p := w2.s.pipeline.value;
    ZeroIsAccepted(c, p);
    assert AsU32(|c.prompt| + 1) == |c.prompt| + 1 && AsU32(|c.prompt| + 2) == |c.prompt| + 2;
    hide Drafting, Outcome;
    run, w := RoundSettles(c, false, w0, run2, w2, c.prompt, [0]);
    assert c.prompt + CarrySeq(p.carry) + [0] == c.prompt + [0];
    assert w.s.counting == map["x" := Counting(TextToCount(c), c.next(c.prompt))];
  }

  /** The late count rewinds `base`, and the next rollback cuts the caches one token short. */
  lemma SecondCountRewinds(c: Setup) returns (run: seq<Stimulus>, w: World)
    requires WellFormed(c) && Seed(c) == |c.prompt| && c.maxDraft > 0 && c.maxTokens > |c.prompt| + 2
    requires c.next == ThirdIsOne(|c.prompt|)
    ensures Extends(c, false, Init(c, OneMiner()), run, w) && Drafting(c, w, c.prompt + [0])
    ensures var p := w.s.pipeline.value; p.carry == Some(0) && p.generated == [0, 0, 0]
  {
    var w0 := Init(c, OneMiner());
    var run1, w1 := FirstRoundDone(c);
    hide Extends;
    var run2, w2 := PromptIsCounted(c, false, w0, run1, w1, "x");
    assert Drafting(c, w2, c.prompt + [0]);
    assert |c.prompt + [0] + [0]| == |c.prompt| + 2;
    FiveIsRejected(c, w2.s.pipeline.value, c.prompt + [0]);
    assert AsU32(|c.prompt| + 1) == |c.prompt| + 1;
    hide Drafting, Outcome;
    run, w := RoundSettles(c, false, w0, run2, w2, c.prompt + [0], [5]);
    assert (c.prompt + [0] + [0] + [5])[..|c.prompt| + 1] == c.prompt + [0];
  }

  /** With any seed that is right, and room for three rounds, an honest run that is not orderly commits a token the
      target would not produce. */
  lemma SecondPromptReplyDiverges(c: Setup) returns (run: seq<Stimulus>)
    requires WellFormed(c) && Seed(c) == |c.prompt| && c.maxDraft > 0 && c.maxTokens > |c.prompt| + 2
    requires c.next == ThirdIsOne(|c.prompt|)
    ensures HonestRun(c, Init(c, OneMiner()), run) && !OrderlyRun(c, Init(c, OneMiner()), run)
    ensures var s := Run(c, Init(c, OneMiner()), run).s; s.pipeline.Some? && s.pipeline.value.generated == [0, 0, 0, 0]
    ensures Greedy(c.next, c.prompt, 4) == [0, 0, 0, 1]
  {
    var w0, cache := Init(c, OneMiner()), c.prompt + [0];
    var run1, w1 := SecondCountRewinds(c);
    FiveIsRejected(c, w1.s.pipeline.value, cache);
    var run2, w2 := DraftIsRelayed(c, false, w0, run1, w1, cache, [5]);
    var run3, w3 := DraftIsVerified(c, false, w0, run2, w2, cache);
    run := run3;
    RightTokens(c.prompt);
    hide Greedy, HonestRun, OrderlyRun, Run;
    var g := w3.s.pipeline.value.generated;
    assert g[3] == 0 && c.next(c.prompt + g[..3]) == 1;
    if OrderlyRun(c, Init(c, OneMiner()), run) {
      SpeculationPreservesMeaning(c, OneMiner(), run);
    }
  }
}
