/** When the committed tokens really are the target's: the exact condition on how `base` is seeded.

    The prompt length is counted from the input of the shard that finishes the prompt pass. With more
    than one shard that input is a tensor, the counted text is empty, and `base` starts wrong. */
module SpeculativeSeed {
  import opened Common
  import opened SpeculativeRound
  import opened SpeculativeSession
  import opened SpeculativeDecoding

  ghost predicate GreedySoFar(c: Setup, s: Session) {
    && (s.pipeline.Some? ==> s.pipeline.value.generated == Greedy(c.next, c.prompt, |s.pipeline.value.generated|))
    && (forall line | line in s.sent && line.Record? :: line.tokens == Greedy(c.next, c.prompt, |line.tokens|))
  }

  /** Either `base` starts at the prompt length, or the first round is already the last one. */
  predicate SeedHarmless(c: Setup) {
    Seed(c) == |c.prompt| || Seed(c) + 1 >= c.maxTokens
  }

  /** What the request `c` commits is greedy, for every target and every honest and orderly run. */
  ghost predicate MeaningPreserved(c: Setup) {
    forall next: Target, net: Net, run: seq<Stimulus> ::
      var t := c.(next := next);
      RegularRun(t, Init(t, net), run) ==> GreedySoFar(t, Run(t, Init(t, net), run).s)
  }

  lemma MeaningPreservedIffSeedHarmless(c: Setup)
    requires WellFormed(c) && c.maxDraft > 0
    ensures MeaningPreserved(c) <==> SeedHarmless(c)
  {
    if SeedHarmless(c) {
      forall next: Target, net: Net, run: seq<Stimulus> | RegularRun(c.(next := next), Init(c.(next := next), net), run)
        ensures GreedySoFar(c.(next := next), Run(c.(next := next), Init(c.(next := next), net), run).s)
      {
        HarmlessSeedKeepsMeaning(c.(next := next), net, run);
      }
    } else {
      var t := c.(next := LengthTarget(|c.prompt|));
      var run := WrongSeedDiverges(t);
      assert RegularRun(t, Init(t, OneMiner()), run);
    }
  }

  // ---- A harmless seed -------------------------------------------------------------------------------

  /** In its only round a wrongly seeded pipeline still verifies against the whole prompt. */
  ghost predicate OnlyRound(c: Setup, w: World, p: Pipeline) {
    && p.shards == c.shards && p.maxTokens == c.maxTokens && p.promptHex == c.promptHex
    && |w.caches| == |c.shards|
    && match p.phase
       case PromptProcessing(pos, input) =>
         && pos < |p.shards| && p.carry.None? && p.generated == []
         && (forall i | 0 <= i < pos :: w.caches[i] == c.prompt)
         && (pos == 0 ==> input == Prompt(p.promptHex)) && (pos > 0 ==> input.Tensor?)
       case AwaitingDraft =>
         && p.base == Seed(c) && p.carry.None? && p.generated == [] && p.expected0 == c.next(c.prompt)
         && CachesHold(w.caches, c.prompt, 0, [])
       case Verifying(pos, input, draft) =>
         && pos < |p.shards| && |draft| <= c.maxDraft
         && p.base == Seed(c) && p.carry.None? && p.generated == [] && p.expected0 == c.next(c.prompt)
         && CachesHold(w.caches, c.prompt, pos, draft)
       case AwaitingRollback(rb) => rb.finalizing && p.generated == Greedy(c.next, c.prompt, |p.generated|)
  }

  ghost predicate OnlyRoundInv(c: Setup, w: World) {
    && GreedySoFar(c, w.s) && OneCounting(w.s)
    && (w.s.pipeline.Some? ==>
          var p := w.s.pipeline.value;
          && OnlyRound(c, w, p)
          && (forall v | v in w.s.counting :: CountingInv(c, w, p, w.s.counting[v]))
          && (w.s.draftAssignment.Some? ==> p.phase.AwaitingDraft?))
  }

  lemma OnlyRoundDispatch(c: Setup, w: World, net: Net)
    requires OnlyRoundInv(c, w)
    ensures w.s.draftAssignment.None? || w.s.pipeline.None? || w.s.pipeline.value.phase.AwaitingDraft? ==>
              OnlyRoundInv(c, w.(s := DispatchShard(w.s, net)))
    ensures OnlyRoundInv(c, w.(s := DispatchDraft(w.s, net)))
  {
  }

  lemma {:induction false} RollbackLinesAreNoRecords(shards: seq<u32>, n: nat, net: Net, keep: u32, finalize: bool)
    requires n <= |shards|
    ensures forall line | line in ShardRollbacks(shards, n, net, keep, finalize) :: !line.Record?
  {
    if n > 0 {
      RollbackLinesAreNoRecords(shards, n - 1, net, keep, finalize);
    }
  }

  lemma OnlyRoundRelay(c: Setup, w: World, net: Net, e: Event)
    requires WellFormed(c) && OnlyRoundInv(c, w) && Regular(c, w, e)
    requires Served(w, e).Some? && Served(w, e).value.phase.pos + 1 != |c.shards|
    ensures OnlyRoundInv(c, WorldStep(c, w, net, e))
  {
    hide Greedy;
    var p := Served(w, e).value;
    var p1 := p.(contributions := Bump(p.contributions, e.wallet),
                 phase := p.phase.(pos := p.phase.pos + 1, input := Tensor(e.reply.output)));
    OnlyRoundDispatch(c, World(w.s.(shardAssignment := None, pipeline := Some(p1)), Feed(c, w, e), Acked(w, e)), net);
  }

  lemma OnlyRoundPrompt(c: Setup, w: World, net: Net, e: Event)
    requires WellFormed(c) && OnlyRoundInv(c, w) && Regular(c, w, e)
    requires Served(w, e).Some? && Served(w, e).value.phase.pos + 1 == |c.shards|
             && Served(w, e).value.phase.PromptProcessing?
    ensures OnlyRoundInv(c, WorldStep(c, w, net, e))
  {
    var p := Served(w, e).value;
    var p1 := p.(contributions := Bump(p.contributions, e.wallet));
    assert p1.contributions != map[] by { assert e.wallet in p1.contributions; }
    var w1 := WorldStep(c, w, net, e);
    if w1.s.pipeline.Some? {
      assert w1.s.counting == map[e.wallet := Counting(CountedText(p), c.next(c.prompt))];
      assert CountingInv(c, w1, p1, w1.s.counting[e.wallet]);
    }
  }

  lemma OnlyRoundCounted(c: Setup, w: World, net: Net, e: Event)
    requires WellFormed(c) && OnlyRoundInv(c, w) && Regular(c, w, e) && e.Counted?
    ensures OnlyRoundInv(c, WorldStep(c, w, net, e))
  {
    if e.wallet in w.s.counting {
      var s1 := w.s.(counting := w.s.counting - {e.wallet});
      assert s1.counting == map[];
      var n := w.s.counting[e.wallet];
      if w.s.pipeline.Some? && n.text in e.counts {
        var p := w.s.pipeline.value;
        assert CountingInv(c, w, p, n);
        var p2 := p.(base := e.counts[n.text], expected0 := n.token, phase := AwaitingDraft);
        assert p2.base == Seed(c);
        OnlyRoundDispatch(c, w.(s := s1.(pipeline := Some(p2))), net);
      }
    }
  }

  lemma OnlyRoundVerify(c: Setup, w: World, net: Net, e: Event)
    requires WellFormed(c) && Seed(c) + 1 >= c.maxTokens && OnlyRoundInv(c, w) && Regular(c, w, e)
    requires Served(w, e).Some? && Served(w, e).value.phase.pos + 1 == |c.shards| && Served(w, e).value.phase.Verifying?
    ensures OnlyRoundInv(c, WorldStep(c, w, net, e))
  {
    var p := Served(w, e).value;
    var draft := p.phase.draft;
    var s1 := w.s.(shardAssignment := None, pipeline := Some(p.(contributions := Bump(p.contributions, e.wallet))));
    assert Step(w.s, net, e) == FinishVerify(s1, net, e.reply);
    assert w.caches[p.phase.pos] == c.prompt && Batch(p) == draft;
    if e.reply.nextTokenIds.Some? {
      var out := VerifyRound(p.carry, p.expected0, draft, e.reply.nextTokenIds.value);
      assert c.prompt + CarrySeq(p.carry) == c.prompt;
      RoundCommitsGreedy(c.next, c.prompt, p.carry, p.expected0, draft);
      OnlyRoundEnds(c, s1, net, out);
    }
  }

  lemma OnlyRoundEnds(c: Setup, s: Session, net: Net, out: RoundOutcome)
    requires WellFormed(c) && Seed(c) + 1 >= c.maxTokens && s.pipeline.Some? && GreedySoFar(c, s)
    requires var p := s.pipeline.value;
             && p.phase.Verifying? && p.base == Seed(c) && p.maxTokens == c.maxTokens && p.generated == []
             && out.acceptedCount <= |p.phase.draft| <= c.maxDraft
             && p.phase.draft[..out.acceptedCount] + [out.settleToken] ==
                Greedy(c.next, c.prompt, out.acceptedCount + 1)
    ensures var p := s.pipeline.value;
            var n := out.acceptedCount;
            var p1 := p.(generated := p.generated + p.phase.draft[..n] + [out.settleToken]);
            var s' := BeginRollback(s.(pipeline := Some(p1)), net, out, KvKeepLen(p.base, p.carry, n), |p.phase.draft|,
                                    IsFinalizing(p.base, n, p.maxTokens));
            && GreedySoFar(c, s') && s'.pipeline.value.phase.rb.finalizing
            && s'.pipeline.value.generated == Greedy(c.next, c.prompt, n + 1)
  {
    var p := s.pipeline.value;
    var n := out.acceptedCount;
    assert AsU32(p.base + n + 1) == p.base + n + 1;
    assert p.generated + p.phase.draft[..n] + [out.settleToken] == p.phase.draft[..n] + [out.settleToken];
    RollbackLinesAreNoRecords(p.shards, |p.shards|, net, AsU32(KvKeepLen(p.base, p.carry, n)), true);
  }

  lemma OnlyRoundAck(c: Setup, w: World, net: Net, e: Event)
    requires OnlyRoundInv(c, w) && e.RollbackAck?
    ensures OnlyRoundInv(c, WorldStep(c, w, net, e))
  {
  }

  lemma OnlyRoundDraft(c: Setup, w: World, net: Net, e: Event)
    requires WellFormed(c) && OnlyRoundInv(c, w) && Regular(c, w, e) && e.DraftResult?
    ensures OnlyRoundInv(c, WorldStep(c, w, net, e))
  {
    if w.s.draftAssignment == Some(e.wallet) && e.tokens != [] && w.s.pipeline.Some? {
      var p := w.s.pipeline.value;
      var p1 := p.(round := p.round + 1, phase := Verifying(0, TokenIds(CarrySeq(p.carry) + e.tokens), e.tokens));
      OnlyRoundDispatch(c, w.(s := w.s.(draftAssignment := None, pipeline := Some(p1))), net);
    }
  }

  lemma OnlyRoundStep(c: Setup, w: World, net: Net, e: Event)
    requires WellFormed(c) && Seed(c) + 1 >= c.maxTokens && OnlyRoundInv(c, w) && Regular(c, w, e)
    ensures OnlyRoundInv(c, WorldStep(c, w, net, e))
  {
    match e
    case Counted(_, _) => OnlyRoundCounted(c, w, net, e);
    case ShardResult(_, _) =>
      if Served(w, e).Some? {
        var phase := Served(w, e).value.phase;
        if phase.pos + 1 != |c.shards| { OnlyRoundRelay(c, w, net, e); }
        else if phase.PromptProcessing? { OnlyRoundPrompt(c, w, net, e); }
        else { OnlyRoundVerify(c, w, net, e); }
      } else {
        OnlyRoundUnserved(c, w, net, e);
      }
    case DraftResult(_, _) => OnlyRoundDraft(c, w, net, e);
    case RollbackAck(_, _, _) => OnlyRoundAck(c, w, net, e);
    case RetryTick =>
      OnlyRoundDispatch(c, w, net);
      OnlyRoundDispatch(c, w.(s := if w.s.shardAssignment.None? then DispatchShard(w.s, net) else w.s), net);
    case Disconnect(_) => OnlyRoundDisconnect(c, w, e.wallet);
  }

  lemma OnlyRoundUnserved(c: Setup, w: World, net: Net, e: Event)
    requires OnlyRoundInv(c, w) && e.ShardResult? && Served(w, e).None?
    ensures OnlyRoundInv(c, WorldStep(c, w, net, e))
  {
  }

  lemma OnlyRoundDisconnect(c: Setup, w: World, wallet: Wallet)
    requires OnlyRoundInv(c, w)
    ensures OnlyRoundInv(c, w.(s := OnDisconnect(w.s, wallet)))
  {
  }

  lemma {:induction false} OnlyRoundRun(c: Setup, w: World, run: seq<Stimulus>)
    requires WellFormed(c) && Seed(c) + 1 >= c.maxTokens && OnlyRoundInv(c, w) && RegularRun(c, w, run)
    ensures OnlyRoundInv(c, Run(c, w, run))
    decreases |run|
  {
    if run != [] {
      OnlyRoundStep(c, w, run[0].net, run[0].event);
      OnlyRoundRun(c, WorldStep(c, w, run[0].net, run[0].event), run[1..]);
    }
  }

  lemma HarmlessSeedKeepsMeaning(c: Setup, net: Net, run: seq<Stimulus>)
    requires WellFormed(c) && SeedHarmless(c) && RegularRun(c, Init(c, net), run)
    ensures GreedySoFar(c, Run(c, Init(c, net), run).s)
  {
    if Seed(c) == |c.prompt| {
      InitHolds(c, net);
      RunKeeps(c, Init(c, net), run);
    } else {
      OnlyRoundRun(c, Init(c, net), run);
    }
  }

  // ---- A harmful seed ----------------------------------------------------------------------------------

  /** A target that looks only at the length of its context. */
  function LengthTarget(n: nat): Target {
    (ctx: seq<u32>) => if |ctx| == n + 1 then 1 else 0
  }

  function OneMiner(): Net {
    Net(Some("m"), Some("m"), {"m"})
  }

  /** An honest run leads from `w0` to `w`, and it is orderly if it is tidy. */
  ghost predicate Extends(c: Setup, tidy: bool, w0: World, run: seq<Stimulus>, w: World) {
    HonestRun(c, w0, run) && (tidy ==> OrderlyRun(c, w0, run)) && Run(c, w0, run) == w
  }

  lemma {:induction false} ExtendBy(c: Setup, tidy: bool, w0: World, run: seq<Stimulus>, w: World, x: Stimulus)
    requires Extends(c, tidy, w0, run, w) && Honest(c, w, x.event) && (tidy ==> Orderly(w, x.event))
    ensures Extends(c, tidy, w0, run + [x], WorldStep(c, w, x.net, x.event))
    decreases |run|
  {
    var longer := run + [x];
    if run == [] {
      assert longer[1..] == [];
    } else {
      assert longer[1..] == run[1..] + [x];
      ExtendBy(c, tidy, WorldStep(c, w0, run[0].net, run[0].event), run[1..], w, x);
    }
  }

  lemma ExtendByOne(c: Setup, tidy: bool, w0: World, run: seq<Stimulus>, w: World, e: Event)
    requires Extends(c, tidy, w0, run, w) && Honest(c, w, e) && (tidy ==> Orderly(w, e))
    ensures Extends(c, tidy, w0, run + [Stimulus(OneMiner(), e)], WorldStep(c, w, OneMiner(), e))
  {
    hide Honest, Orderly, WorldStep, Extends;
    ExtendBy(c, tidy, w0, run, w, Stimulus(OneMiner(), e));
  }

  /** The one-miner world waits for the reply of the shard at the current position. */
  ghost predicate Relaying(c: Setup, w: World, pos: nat) {
    && w.s.pipeline.Some? && w.s.draftAssignment.None?
    && var p := w.s.pipeline.value;
    && p.shards == c.shards && p.maxTokens == c.maxTokens && p.promptHex == c.promptHex
    && |w.caches| == |c.shards| && pos < |c.shards|
    && (p.phase.PromptProcessing? || p.phase.Verifying?) && p.phase.pos == pos
    && w.s.shardAssignment == Some(ShardAssignment("m", c.shards[pos]))
  }

  function Relay(c: Setup, pos: nat): Event
    requires pos < |c.shards|
  {
    ShardResult("m", ShardReply(c.shards[pos], "", None, None))
  }

  /** One shard's reply is relayed to the next one. */
  lemma RelayedOnce(c: Setup, tidy: bool, w0: World, run: seq<Stimulus>, w: World, pos: nat)
    requires Extends(c, tidy, w0, run, w) && Relaying(c, w, pos) && (tidy ==> w.s.counting == map[])
    requires pos + 1 < |c.shards|
    ensures var w1 := WorldStep(c, w, OneMiner(), Relay(c, pos));
            && Extends(c, tidy, w0, run + [Stimulus(OneMiner(), Relay(c, pos))], w1) && Relaying(c, w1, pos + 1)
            && w1.s.counting == w.s.counting
            && var p, p' := w.s.pipeline.value, w1.s.pipeline.value;
               && p' == p.(phase := p'.phase, contributions := p'.contributions)
               && p'.phase == p.phase.(pos := pos + 1, input := Tensor(""))
               && w1.caches == w.caches[pos := if p.phase.Verifying? then w.caches[pos] + Batch(p) else c.prompt]
  {
    assert Served(w, Relay(c, pos)) == w.s.pipeline;
    ExtendByOne(c, tidy, w0, run, w, Relay(c, pos));
    hide Extends;
  }

  /** Any pass reaches its last shard, every earlier shard having fed. */
  lemma {:induction false} PassReachesLastShard(c: Setup, tidy: bool, w0: World, run: seq<Stimulus>, w: World, pos: nat,
                                                old_: seq<seq<u32>>, fed: seq<seq<u32>>)
    returns (run': seq<Stimulus>, w': World)
    requires Extends(c, tidy, w0, run, w) && Relaying(c, w, pos) && (tidy ==> w.s.counting == map[])
    requires |old_| == |fed| == |c.shards|
    requires pos > 0 && w.s.pipeline.value.phase.PromptProcessing? ==> w.s.pipeline.value.phase.input.Tensor?
    requires forall i | 0 <= i < |c.shards| :: w.caches[i] == if i < pos then fed[i] else old_[i]
    requires var p := w.s.pipeline.value;
             forall i | 0 <= i < |c.shards| :: fed[i] == if p.phase.PromptProcessing? then c.prompt
               else old_[i] + Batch(p)
    ensures Extends(c, tidy, w0, run', w') && Relaying(c, w', |c.shards| - 1)
    ensures forall i | 0 <= i < |c.shards| :: w'.caches[i] == if i + 1 < |c.shards| then fed[i] else old_[i]
    ensures var p, p' := w.s.pipeline.value, w'.s.pipeline.value;
            && p'.phase.PromptProcessing? == p.phase.PromptProcessing?
            && p'.draftWallet == p.draftWallet
            && (pos + 1 == |c.shards| ==> w' == w) && w'.s.counting == w.s.counting
            && (p.phase.PromptProcessing? && 1 < |c.shards| ==> p'.phase.input.Tensor?)
            && (p.phase.Verifying? ==> p'.phase.draft == p.phase.draft)
            && p'.base == p.base && p'.carry == p.carry && p'.expected0 == p.expected0 && p'.generated == p.generated
    decreases |c.shards| - pos
  {
    if pos == |c.shards| - 1 {
      run', w' := run, w;
    } else {
      RelayedOnce(c, tidy, w0, run, w, pos);
      var longer, w1 := run + [Stimulus(OneMiner(), Relay(c, pos))], WorldStep(c, w, OneMiner(), Relay(c, pos));
      hide Extends, WorldStep;
      run', w' := PassReachesLastShard(c, tidy, w0, longer, w1, pos + 1, old_, fed);
    }
  }

  /** One shard after the other acknowledges, the draft session last. */
  lemma {:induction false} AcksEndRound(c: Setup, tidy: bool, w0: World, run: seq<Stimulus>, w: World, n: nat,
                                        old_: seq<seq<u32>>)
    returns (run': seq<Stimulus>, w': World)
    requires WellFormed(c) && n <= |c.shards| == |w.caches| == |old_|
    requires Extends(c, tidy, w0, run, w) && w.s.pipeline.Some?
    requires w.s.shardAssignment.None? && w.s.draftAssignment.None? && (tidy ==> w.s.counting == map[])
    requires var p := w.s.pipeline.value;
             && p.shards == c.shards && p.maxTokens == c.maxTokens && p.promptHex == c.promptHex
             && p.phase.AwaitingRollback? && !p.phase.rb.finalizing
             && (p.draftWallet.Some? ==> p.draftWallet.value == "m")
             && p.phase.rb.pending == (set i | n <= i < |c.shards| :: c.shards[i]) + {DRAFT_SESSION}
             && forall i | 0 <= i < |c.shards| ::
                  w.caches[i] == if i < n then Truncate(old_[i], AsU32(p.phase.rb.keepLen)) else old_[i]
    ensures Extends(c, tidy, w0, run', w') && w'.s.pipeline.Some? && w'.s.shardAssignment.None?
            && w'.s.draftAssignment == Some("m") && w'.s.counting == w.s.counting
    ensures var p, p' := w.s.pipeline.value, w'.s.pipeline.value;
            && p'.shards == c.shards && p'.maxTokens == c.maxTokens && p'.promptHex == c.promptHex
            && p'.phase.AwaitingDraft?
            && p'.draftWallet == Some("m") && p'.expected0 == p.phase.rb.settleToken
            && p'.base == p.phase.rb.keepLen && p'.carry == Some(p.phase.rb.settleToken) && p'.generated == p.generated
            && |w'.caches| == |c.shards|
            && forall i | 0 <= i < |c.shards| :: w'.caches[i] == Truncate(old_[i], AsU32(p.phase.rb.keepLen))
    decreases |c.shards| - n
  {
    var p := w.s.pipeline.value;
    var idx := if n < |c.shards| then c.shards[n] else DRAFT_SESSION;
    var e := RollbackAck(idx, true, None);
    var w1 := WorldStep(c, w, OneMiner(), e);
    ExtendByOne(c, tidy, w0, run, w, e);
    if n < |c.shards| {
      assert DRAFT_SESSION in p.phase.rb.pending - {idx};
      var rest := set i | n + 1 <= i < |c.shards| :: c.shards[i];
      assert idx !in rest;
      assert p.phase.rb.pending - {idx} == rest + {DRAFT_SESSION};
      run', w' := AcksEndRound(c, tidy, w0, run + [Stimulus(OneMiner(), e)], w1, n + 1, old_);
    } else {
      assert p.phase.rb.pending - {idx} == {};
      run', w' := run + [Stimulus(OneMiner(), e)], w1;
    }
  }

  /** The one-miner world waits for a draft, every cache holding `cache`. */
  ghost predicate Drafting(c: Setup, w: World, cache: seq<u32>) {
    && w.s.pipeline.Some? && w.s.shardAssignment.None? && w.s.draftAssignment == Some("m")
    && var p := w.s.pipeline.value;
    && p.shards == c.shards && p.maxTokens == c.maxTokens && p.promptHex == c.promptHex && p.phase.AwaitingDraft?
    && p.draftWallet == Some("m")
    && |w.caches| == |c.shards| && CachesHold(w.caches, cache, 0, [])
  }

  /** A draft is proposed and relayed up to the last shard. */
  lemma DraftIsRelayed(c: Setup, tidy: bool, w0: World, run: seq<Stimulus>, w: World, cache: seq<u32>, draft: seq<u32>)
    returns (run': seq<Stimulus>, w': World)
    requires WellFormed(c) && 0 < |draft| <= c.maxDraft && Extends(c, tidy, w0, run, w) && Drafting(c, w, cache)
    requires tidy ==> w.s.counting == map[]
    ensures Extends(c, tidy, w0, run', w') && Relaying(c, w', |c.shards| - 1) && w'.s.counting == w.s.counting
    ensures var p, p' := w.s.pipeline.value, w'.s.pipeline.value;
            && p'.phase.Verifying? && p'.phase.draft == draft && p'.draftWallet == Some("m")
            && p'.base == p.base && p'.carry == p.carry && p'.expected0 == p.expected0 && p'.generated == p.generated
            && (forall i | 0 <= i < |c.shards| - 1 :: w'.caches[i] == cache + Batch(p'))
            && w'.caches[|c.shards| - 1] == cache
  {
    var e := DraftResult("m", draft);
    var w1 := WorldStep(c, w, OneMiner(), e);
    ExtendByOne(c, tidy, w0, run, w, e);
    var p, p1 := w.s.pipeline.value, w1.s.pipeline.value;
    assert p1 == p.(round := p.round + 1, phase := Verifying(0, TokenIds(CarrySeq(p.carry) + draft), draft));
    assert Relaying(c, w1, 0) && w1.caches == w.caches;
    assert forall i | 0 <= i < |c.shards| :: w.caches[i] == cache;
    var fed := seq(|c.shards|, i requires 0 <= i < |c.shards| => w.caches[i] + Batch(w1.s.pipeline.value));
    run', w' := PassReachesLastShard(c, tidy, w0, run + [Stimulus(OneMiner(), e)], w1, 0, w.caches, fed);
  }

  /** What an honest target makes of the draft being verified on top of `cache`. */
  ghost function Verdict(c: Setup, p: Pipeline, cache: seq<u32>): RoundOutcome
    requires p.phase.Verifying?
  {
    VerifyRound(p.carry, p.expected0, p.phase.draft, Logits(c.next, cache, Batch(p)))
  }

  /** An honest target verifies the draft, and the rollback begins. */
  lemma DraftIsVerified(c: Setup, tidy: bool, w0: World, run: seq<Stimulus>, w: World, cache: seq<u32>)
    returns (run': seq<Stimulus>, w': World)
    requires WellFormed(c) && Extends(c, tidy, w0, run, w) && Relaying(c, w, |c.shards| - 1)
    requires tidy ==> w.s.counting == map[]
    requires var p := w.s.pipeline.value;
             && p.phase.Verifying?
             && (forall i | 0 <= i < |c.shards| - 1 :: w.caches[i] == cache + Batch(p))
             && w.caches[|c.shards| - 1] == cache
    ensures Extends(c, tidy, w0, run', w') && w'.s.pipeline.Some? && w'.s.counting == w.s.counting
    ensures w'.s.shardAssignment.None? && w'.s.draftAssignment.None?
    ensures |w'.caches| == |c.shards|
    ensures var p, p', out := w.s.pipeline.value, w'.s.pipeline.value, Verdict(c, w.s.pipeline.value, cache);
            && p'.shards == c.shards && p'.maxTokens == c.maxTokens && p'.promptHex == c.promptHex
            && p'.draftWallet == p.draftWallet
            && p'.generated == p.generated + p.phase.draft[..out.acceptedCount] + [out.settleToken]
            && p'.phase.AwaitingRollback? && p'.phase.rb.pending == Sessions(p')
            && p'.phase.rb.settleToken == out.settleToken
            && p'.phase.rb.keepLen == KvKeepLen(p.base, p.carry, out.acceptedCount)
            && p'.phase.rb.finalizing == IsFinalizing(p.base, out.acceptedCount, c.maxTokens)
            && forall i | 0 <= i < |c.shards| :: w'.caches[i] == cache + Batch(p)
  {
    var p := w.s.pipeline.value;
    var logits := Logits(c.next, cache, Batch(p));
    var e := ShardResult("m", ShardReply(c.shards[|c.shards| - 1], "", None, Some(logits)));
    assert Served(w, e) == w.s.pipeline;
    ExtendByOne(c, tidy, w0, run, w, e);
    run', w' := run + [Stimulus(OneMiner(), e)], WorldStep(c, w, OneMiner(), e);
  }

  /** A whole round that is not the last one: drafted, verified, rolled back, and the next draft requested. */
  lemma RoundSettles(c: Setup, tidy: bool, w0: World, run: seq<Stimulus>, w: World, cache: seq<u32>, draft: seq<u32>)
    returns (run': seq<Stimulus>, w': World)
    requires WellFormed(c) && 0 < |draft| <= c.maxDraft && Extends(c, tidy, w0, run, w) && Drafting(c, w, cache)
    requires tidy ==> w.s.counting == map[]
    requires var p := w.s.pipeline.value; !IsFinalizing(p.base, Outcome(c, p, cache, draft).acceptedCount, c.maxTokens)
    ensures Extends(c, tidy, w0, run', w') && w'.s.pipeline.Some? && w'.s.counting == w.s.counting
    ensures var p, p', out := w.s.pipeline.value, w'.s.pipeline.value, Outcome(c, w.s.pipeline.value, cache, draft);
            var keep := KvKeepLen(p.base, p.carry, out.acceptedCount);
            && Drafting(c, w', Truncate(cache + CarrySeq(p.carry) + draft, AsU32(keep)))
            && p'.base == keep && p'.carry == Some(out.settleToken) && p'.expected0 == out.settleToken
            && p'.generated == p.generated + draft[..out.acceptedCount] + [out.settleToken]
  {
    var run1, w1 := DraftIsRelayed(c, tidy, w0, run, w, cache, draft);
    var batch := Batch(w1.s.pipeline.value);
    assert cache + batch == cache + CarrySeq(w.s.pipeline.value.carry) + draft;
    var run2, w2 := DraftIsVerified(c, tidy, w0, run1, w1, cache);
    hide Extends, Relaying, Honest, WorldStep, Logits, VerifyRound;
    run', w' := AcksEndRound(c, tidy, w0, run2, w2, 0, w2.caches);
  }

  /** What an honest target makes of a draft on top of a cache. */
  function Outcome(c: Setup, p: Pipeline, cache: seq<u32>, draft: seq<u32>): (out: RoundOutcome)
    ensures out.acceptedCount <= |draft|
  {
    VerifyRound(p.carry, p.expected0, draft, Logits(c.next, cache, CarrySeq(p.carry) + draft))
  }

  /** A target that predicts 0 rejects the draft `[5]` and settles on 0. */
  lemma FiveIsRejected(c: Setup, p: Pipeline, cache: seq<u32>)
    requires if p.carry.Some? then c.next(cache + [p.carry.value]) == 0 else p.expected0 == 0
    ensures Outcome(c, p, cache, [5]) == RoundOutcome(0, 0, false)
    ensures p.generated + [5][..0] + [0] == p.generated + [0]
  {
    var logits := Logits(c.next, cache, CarrySeq(p.carry) + [5]);
    assert (CarrySeq(p.carry) + [5])[..1] == if p.carry.Some? then [p.carry.value] else [5];
    assert Prediction(p.carry, p.expected0, logits, 0) == 0;
  }

  /** The prompt has been relayed to the last shard, and nobody has counted it yet. */
  ghost predicate PromptAtLast(c: Setup, w: World) {
    && |c.shards| > 0 && Relaying(c, w, |c.shards| - 1)
    && (forall i | 0 <= i < |c.shards| - 1 :: w.caches[i] == c.prompt)
    && var p := w.s.pipeline.value;
    && p.phase.PromptProcessing? && p.carry.None? && p.generated == [] && p.draftWallet.None?
    && CountedText(p) == TextToCount(c)
  }

  function TextToCount(c: Setup): string {
    if |c.shards| == 1 then c.promptHex else ""
  }

  lemma PromptReachesLast(c: Setup) returns (run: seq<Stimulus>, w: World)
    requires WellFormed(c)
    ensures Extends(c, true, Init(c, OneMiner()), run, w) && PromptAtLast(c, w) && w.s.counting == map[]
  {
    var w0 := Init(c, OneMiner());
    assert Relaying(c, w0, 0);
    var fed := seq(|c.shards|, _ => c.prompt);
    run, w := PassReachesLastShard(c, true, w0, [], w0, 0, w0.caches, fed);
    assert forall i | 0 <= i < |c.shards| - 1 :: w.caches[i] == fed[i];
  }

  /** The last shard's honest answer to the prompt. */
  function PromptAnswer(c: Setup, w: Wallet): Event
    requires |c.shards| > 0
  {
    ShardResult(w, ShardReply(c.shards[|c.shards| - 1], "", Some(c.next(c.prompt)), None))
  }

  /** The prompt pass ends with `base` seeded and a draft requested. */
  lemma PromptPassSeedsBase(c: Setup) returns (run': seq<Stimulus>, w': World)
    requires WellFormed(c)
    ensures Extends(c, true, Init(c, OneMiner()), run', w') && Drafting(c, w', c.prompt) && w'.s.counting == map[]
    ensures var p' := w'.s.pipeline.value;
            p'.base == Seed(c) && p'.carry.None? && p'.expected0 == c.next(c.prompt) && p'.generated == []
  {
    var w0, e := Init(c, OneMiner()), PromptAnswer(c, "m");
    var run, w := PromptReachesLast(c);
    assert Served(w, e) == w.s.pipeline;
    ExtendByOne(c, true, w0, run, w, e);
    run', w' := run + [Stimulus(OneMiner(), e)], WorldStep(c, w, OneMiner(), e);
    assert w'.s.counting == map["m" := Counting(TextToCount(c), c.next(c.prompt))];
    run', w' := PromptIsCounted(c, true, w0, run', w', "m");
    assert w'.s.counting == map[];
  }

  /** The wait of the prompt pass ends with a true count. */
  lemma PromptIsCounted(c: Setup, tidy: bool, w0: World, run: seq<Stimulus>, w: World, v: Wallet)
    returns (run': seq<Stimulus>, w': World)
    requires WellFormed(c) && Extends(c, tidy, w0, run, w)
    requires w.s.pipeline.Some?
    requires v in w.s.counting && w.s.counting[v] == Counting(TextToCount(c), c.next(c.prompt))
    requires |w.caches| == |c.shards|
    requires var p := w.s.pipeline.value;
             && p.shards == c.shards && p.maxTokens == c.maxTokens && p.promptHex == c.promptHex
             && p.draftWallet in {None, Some("m")}
    ensures Extends(c, tidy, w0, run', w') && w'.caches == w.caches && w'.s.counting == w.s.counting - {v}
    ensures w'.s.pipeline.Some? && w'.s.shardAssignment == w.s.shardAssignment && w'.s.draftAssignment == Some("m")
    ensures var p, p' := w.s.pipeline.value, w'.s.pipeline.value;
            p' == p.(base := Seed(c), expected0 := c.next(c.prompt), phase := AwaitingDraft, draftWallet := Some("m"))
  {
    var counts := map["" := c.emptyCount][c.promptHex := |c.prompt|];
    var e := Counted(v, counts);
    ExtendByOne(c, tidy, w0, run, w, e);
    run', w' := run + [Stimulus(OneMiner(), e)], WorldStep(c, w, OneMiner(), e);
  }

  lemma LengthTargetGreedy(prompt: seq<u32>)
    ensures Greedy(LengthTarget(|prompt|), prompt, 2) == [0, 1]
  {
    assert Greedy(LengthTarget(|prompt|), prompt, 1) == [0];
    assert |prompt + [0]| == |prompt| + 1;
  }

  /** A harmful seed cuts the caches back to a length that is not the prompt's. */
  function CacheAfterRound(c: Setup): seq<u32> {
    Truncate(c.prompt + [5], Seed(c))
  }

  /** The first round commits 0 and leaves caches that do not hold what was committed. */
  lemma FirstRoundCutsWrong(c: Setup) returns (run: seq<Stimulus>, w: World)
    requires WellFormed(c) && c.maxDraft > 0 && !SeedHarmless(c) && c.next == LengthTarget(|c.prompt|)
    ensures Extends(c, true, Init(c, OneMiner()), run, w) && Drafting(c, w, CacheAfterRound(c))
    ensures |CacheAfterRound(c)| != |c.prompt| && w.s.counting == map[]
    ensures var p := w.s.pipeline.value; p.carry.Some? && p.expected0 == 0 && p.generated == [0]
  {
    var run1, w1 := PromptPassSeedsBase(c);
    FiveIsRejected(c, w1.s.pipeline.value, c.prompt);
    assert AsU32(Seed(c)) == Seed(c) && AsU32(Seed(c) + 1) == Seed(c) + 1;
    assert c.prompt + CarrySeq(None) + [5] == c.prompt + [5];
    hide Extends, Outcome;
    run, w := RoundSettles(c, true, Init(c, OneMiner()), run1, w1, c.prompt, [5]);
  }

  /** With a harmful seed the first rollback leaves caches of the wrong length, and the second round
      commits a token the target would never have produced. */
  lemma WrongSeedDiverges(c: Setup) returns (run: seq<Stimulus>)
    requires WellFormed(c) && c.maxDraft > 0 && !SeedHarmless(c) && c.next == LengthTarget(|c.prompt|)
    ensures RegularRun(c, Init(c, OneMiner()), run)
    ensures var s := Run(c, Init(c, OneMiner()), run).s; s.pipeline.Some? && s.pipeline.value.generated == [0, 0]
    ensures Greedy(c.next, c.prompt, 2) == [0, 1]
    ensures !GreedySoFar(c, Run(c, Init(c, OneMiner()), run).s)
  {
    var w0, cache := Init(c, OneMiner()), CacheAfterRound(c);
    var run1, w1 := FirstRoundCutsWrong(c);
    FiveIsRejected(c, w1.s.pipeline.value, cache);
    var run2, w2 := DraftIsRelayed(c, true, w0, run1, w1, cache, [5]);
    var run3, w3 := DraftIsVerified(c, true, w0, run2, w2, cache);
    run := run3;
    LengthTargetGreedy(c.prompt);
  }
}
