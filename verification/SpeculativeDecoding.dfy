/** What a run of the speculative engine commits, together with the KV caches its shards hold.

    The engine never sees the caches: it only tells the shards what to feed and how far to truncate.
    `World` puts them next to the session so that "the target's logits" can be what a real target
    computes, namely a function of the cache it physically holds and of the batch it is given. */
module SpeculativeDecoding {
  import opened Common
  import opened SpeculativeRound
  import opened SpeculativeSession

  datatype World = World(s: Session, caches: seq<seq<u32>>, acked: set<u32>)

  /** The request and its environment. `emptyCount` is what the tokenizer counts for the empty text,
      `maxDraft` bounds the length of one drafted batch. */
  datatype Setup = Setup(
    next: Target, prompt: seq<u32>, promptHex: string, shards: seq<u32>, maxTokens: u32, emptyCount: nat, maxDraft: nat)

  ghost predicate WellFormed(c: Setup) {
    && |c.shards| > 0
    && (forall i, j | 0 <= i < j < |c.shards| :: c.shards[i] != c.shards[j])
    && DRAFT_SESSION !in c.shards
    && |c.prompt| + c.maxTokens + c.maxDraft + 1 < U32_LIMIT
    && c.emptyCount + c.maxDraft + 1 < U32_LIMIT
    && (c.promptHex == "" ==> c.emptyCount == |c.prompt|)
  }

  /** The count that seeds `base`: only a one-shard pipeline still holds the prompt at its last shard. */
  function Seed(c: Setup): nat {
    if |c.shards| == 1 then |c.prompt| else c.emptyCount
  }

  function Init(c: Setup, net: Net): World {
    World(DispatchShard(Start(c.shards, c.maxTokens, c.promptHex), net), seq(|c.shards|, _ => []), {})
  }

  // ---- The shards ------------------------------------------------------------------------------

  function Batch(p: Pipeline): seq<u32>
    requires p.phase.Verifying?
  {
    CarrySeq(p.carry) + p.phase.draft
  }

  function Truncate(cache: seq<u32>, keep: nat): seq<u32> {
    if keep < |cache| then cache[..keep] else cache
  }

  /** The pipeline whose current shard this reply completes, if any. */
  function Served(w: World, e: Event): Option<Pipeline> {
    if e.ShardResult? && Accepts(w.s, e.wallet, e.reply.shardIndex) && w.s.pipeline.Some?
       && (w.s.pipeline.value.phase.PromptProcessing? || w.s.pipeline.value.phase.Verifying?)
       && w.s.pipeline.value.phase.pos < |w.caches|
    then w.s.pipeline else None
  }

  function RollingBack(w: World, e: Event): Option<Rollback> {
    if e.RollbackAck? && w.s.pipeline.Some? && w.s.pipeline.value.phase.AwaitingRollback?
    then Some(w.s.pipeline.value.phase.rb) else None
  }

  /** An accepted reply means the shard fed its input; a successful acknowledgement means it truncated. */
  function Feed(c: Setup, w: World, e: Event): seq<seq<u32>> {
    if Served(w, e).Some? then
      var p := Served(w, e).value;
      var i := p.phase.pos;
      if p.phase.PromptProcessing? then w.caches[i := c.prompt] else w.caches[i := w.caches[i] + Batch(p)]
    else if RollingBack(w, e).Some? && e.ok then
      var keep := AsU32(RollingBack(w, e).value.keepLen);
      seq(|w.caches|, i requires 0 <= i < |w.caches| =>
        if i < |c.shards| && c.shards[i] == e.shardIndex then Truncate(w.caches[i], keep) else w.caches[i])
    else w.caches
  }

  function Acked(w: World, e: Event): set<u32> {
    if RollingBack(w, e).Some? then w.acked + {e.shardIndex} else if Served(w, e).Some? then {} else w.acked
  }

  ghost function WorldStep(c: Setup, w: World, net: Net, e: Event): World {
    World(Step(w.s, net, e), Feed(c, w, e), Acked(w, e))
  }

  /** What is assumed of the environment, given the caches its shards hold. Drafted tokens are arbitrary. */
  ghost predicate Honest(c: Setup, w: World, e: Event) {
    && (e.DraftResult? ==> |e.tokens| <= c.maxDraft)
    && (RollingBack(w, e).Some? ==> e.ok)
    && (e.Counted? ==>
          && (c.promptHex in e.counts ==> e.counts[c.promptHex] == |c.prompt|)
          && ("" in e.counts ==> e.counts[""] == c.emptyCount))
    && (Served(w, e).Some? ==>
          var p := Served(w, e).value;
          var pos := p.phase.pos;
          && (p.phase.PromptProcessing? && (forall i | 0 <= i < pos :: w.caches[i] == c.prompt) ==>
                e.reply.nextTokenId in {None, Some(c.next(c.prompt))})
          && (p.phase.Verifying? && (forall i | 0 <= i < pos :: w.caches[i] == w.caches[pos] + Batch(p)) ==>
                e.reply.nextTokenIds in {None, Some(Logits(c.next, w.caches[pos], Batch(p)))}))
  }

  /** An accepted reply answers the step the request is at, and none is accepted while the prompt is being counted.
      The engine could check this where it accepts the reply; it does not. */
  predicate Orderly(w: World, e: Event) {
    && (e.ShardResult? && Accepts(w.s, e.wallet, e.reply.shardIndex) && w.s.pipeline.Some? ==> w.s.counting == map[])
    && (Served(w, e).Some? ==>
          var p := Served(w, e).value; p.phase.pos < |p.shards| && e.reply.shardIndex == p.shards[p.phase.pos])
  }

  ghost predicate Regular(c: Setup, w: World, e: Event) {
    Honest(c, w, e) && Orderly(w, e)
  }

  // ---- The invariant -----------------------------------------------------------------------------

  function Committed(c: Setup, p: Pipeline): seq<u32> {
    c.prompt + p.generated
  }

  /** Between rounds: everything committed is in the caches, except a carried last token. */
  ghost predicate Settled(c: Setup, p: Pipeline) {
    && p.base + CarryLen(p.carry) == |Committed(c, p)|
    && p.base <= |c.prompt| + c.maxTokens
    && (p.carry.None? ==> p.generated == [] && p.expected0 == c.next(c.prompt))
    && (p.carry.Some? ==> p.generated != [] && p.carry.value == p.generated[|p.generated| - 1])
  }

  /** `rounds` rounds were completed, none of them the last one. */
  ghost predicate Unfinished(c: Setup, base: nat, carry: Option<u32>, generated: nat, rounds: nat) {
    && (rounds == 0 <==> carry.None?)
    && (rounds > 0 ==> base < c.maxTokens && |c.prompt| + rounds <= base + 1)
    && rounds <= generated
  }

  ghost predicate CachesHold(caches: seq<seq<u32>>, content: seq<u32>, fed: nat, batch: seq<u32>) {
    forall i | 0 <= i < |caches| :: caches[i] == content + (if i < fed then batch else [])
  }

  /** Every cache physically reaches `keep` positions, and they are the committed ones. */
  ghost predicate CachesCover(caches: seq<seq<u32>>, committed: seq<u32>, keep: nat)
    requires keep <= |committed|
  {
    forall i | 0 <= i < |caches| :: keep <= |caches[i]| && caches[i][..keep] == committed[..keep]
  }

  function RoundBound(c: Setup): nat {
    1 + if c.maxTokens > |c.prompt| then c.maxTokens - |c.prompt| else 0
  }

  /** Response lengths at which the stop test can end a request: after a first round, or after a later one. */
  predicate StopLength(c: Setup, n: nat) {
    n > 0 && ((n <= c.maxDraft + 1 && c.maxTokens <= |c.prompt| + n) || c.maxTokens < |c.prompt| + n)
  }

  ghost predicate PhaseInv(c: Setup, w: World, p: Pipeline)
    requires |w.caches| == |p.shards|
  {
    match p.phase
    case PromptProcessing(pos, input) =>
      && pos < |p.shards| && p.round == 0 && p.carry.None? && p.generated == []
      && (forall i | 0 <= i < pos :: w.caches[i] == c.prompt)
      && (pos == 0 ==> input == Prompt(p.promptHex)) && (pos > 0 ==> input.Tensor?)
    case AwaitingDraft =>
      && Settled(c, p) && Unfinished(c, p.base, p.carry, |p.generated|, p.round)
      && CachesHold(w.caches, Committed(c, p)[..p.base], 0, [])
    case Verifying(pos, input, draft) =>
      && pos < |p.shards| && p.round > 0 && 0 < |draft| <= c.maxDraft
      && (pos == 0 ==> input == TokenIds(Batch(p)))
      && Settled(c, p) && Unfinished(c, p.base, p.carry, |p.generated|, p.round - 1)
      && CachesHold(w.caches, Committed(c, p)[..p.base], pos, Batch(p))
    case AwaitingRollback(rb) => RollbackInv(c, w, p, rb)
  }

  ghost predicate RollbackInv(c: Setup, w: World, p: Pipeline, rb: Rollback)
    requires |w.caches| == |p.shards|
  {
    && rb.keepLen + 1 == |Committed(c, p)|
    && CachesCover(w.caches, Committed(c, p), rb.keepLen)
    && 0 < p.round <= |p.generated|
    && rb.settleToken == p.generated[|p.generated| - 1]
    && rb.keepLen <= |c.prompt| + c.maxTokens + c.maxDraft + 1
    && (forall i | 0 <= i < |w.caches| && p.shards[i] !in rb.pending :: |w.caches[i]| == rb.keepLen)
    && rb.pending == Sessions(p) - w.acked && rb.pending != {}
    && (rb.finalizing ==> StopLength(c, |p.generated|))
    && (!rb.finalizing ==> Unfinished(c, rb.keepLen, Some(rb.settleToken), |p.generated|, p.round))
  }

  /** The prompt is counted when every shard has fed it. */
  ghost predicate CountingInv(c: Setup, w: World, p: Pipeline, n: Counting) {
    && p.phase.PromptProcessing? && p.phase.pos + 1 == |p.shards| && n == Counting(CountedText(p), c.next(c.prompt))
    && p.contributions != map[]
    && forall i | 0 <= i < |w.caches| :: w.caches[i] == c.prompt
  }

  ghost predicate OneCounting(s: Session) {
    forall v, w | v in s.counting && w in s.counting :: v == w
  }

  ghost predicate PipelineInv(c: Setup, w: World, p: Pipeline) {
    && p.shards == c.shards && p.maxTokens == c.maxTokens && p.promptHex == c.promptHex
    && |w.caches| == |c.shards|
    && 2 <= p.k <= 8
    && p.round <= RoundBound(c)
    && p.generated == Greedy(c.next, c.prompt, |p.generated|)
    && (p.phase == PromptProcessing(0, Prompt(p.promptHex)) || p.contributions != map[])
    && PhaseInv(c, w, p)
    && (forall v | v in w.s.counting :: CountingInv(c, w, p, w.s.counting[v]))
    && (w.s.draftAssignment.Some? ==> p.phase.AwaitingDraft?)
  }

  /** A recorded response is the target's greedy decode, and is long enough for the stop test. */
  ghost predicate LineOk(c: Setup, line: Line) {
    && (line.DraftGenerate? ==> 1 <= line.k <= 8)
    && (line.Record? ==>
          && line.tokens == Greedy(c.next, c.prompt, |line.tokens|)
          && StopLength(c, |line.tokens|))
  }

  ghost predicate Inv(c: Setup, w: World) {
    && OneCounting(w.s)
    && (w.s.pipeline.Some? ==> PipelineInv(c, w, w.s.pipeline.value))
    && (forall line | line in w.s.sent :: LineOk(c, line))
  }

  // ---- Preservation, one event at a time ------------------------------------------------------------

  lemma DispatchShardKeeps(c: Setup, w: World, net: Net)
    requires WellFormed(c) && Inv(c, w)
    requires w.s.draftAssignment.None? || w.s.pipeline.None? || w.s.pipeline.value.phase.AwaitingDraft?
    ensures Inv(c, w.(s := DispatchShard(w.s, net)))
  {
  }

  lemma DispatchDraftKeeps(c: Setup, w: World, net: Net)
    requires WellFormed(c) && Inv(c, w)
    ensures Inv(c, w.(s := DispatchDraft(w.s, net)))
  {
  }

  lemma InitHolds(c: Setup, net: Net)
    requires WellFormed(c)
    ensures Inv(c, Init(c, net))
  {
    var w := World(Start(c.shards, c.maxTokens, c.promptHex), seq(|c.shards|, _ => []), {});
    DispatchShardKeeps(c, w, net);
  }

  /** The reply fed the shard's cache, and the next shard is at the same point of the pass. */
  lemma RelayedPhase(c: Setup, w: World, e: Event, p1: Pipeline, s1: Session)
    requires WellFormed(c) && Inv(c, w) && Served(w, e).Some? && Served(w, e).value.phase.pos + 1 != |c.shards|
    requires var p := Served(w, e).value;
             p1 == p.(contributions := p1.contributions,
                      phase := p.phase.(pos := p.phase.pos + 1, input := Tensor(e.reply.output)))
    ensures |Feed(c, w, e)| == |c.shards| && PhaseInv(c, World(s1, Feed(c, w, e), Acked(w, e)), p1)
  {
    hide LineOk, Greedy, RollbackInv, CountingInv, Unfinished;
  }

  lemma RelayKeeps(c: Setup, w: World, net: Net, e: Event)
    requires WellFormed(c) && Inv(c, w) && Regular(c, w, e)
    requires Served(w, e).Some? && Served(w, e).value.phase.pos + 1 != |c.shards|
    ensures Inv(c, WorldStep(c, w, net, e))
  {
    hide LineOk, Greedy, RollbackInv;
    var p := Served(w, e).value;
    var p1 := p.(contributions := Bump(p.contributions, e.wallet),
                 phase := p.phase.(pos := p.phase.pos + 1, input := Tensor(e.reply.output)));
    var s1 := w.s.(shardAssignment := None, pipeline := Some(p1));
    assert p1.contributions != map[] by { assert e.wallet in p1.contributions; }
    assert Step(w.s, net, e) == DispatchShard(s1, net);
    var w1 := World(s1, Feed(c, w, e), Acked(w, e));
    hide Step, DispatchShard;
    RelayedPhase(c, w, e, p1, s1);
    hide PhaseInv, Honest, Orderly;
    assert PipelineInv(c, w1, p1);
    hide Feed;
    DispatchShardKeeps(c, w1, net);
  }

  lemma PromptDoneKeeps(c: Setup, w: World, net: Net, e: Event)
    requires WellFormed(c) && Inv(c, w) && Regular(c, w, e)
    requires Served(w, e).Some? && Served(w, e).value.phase.pos + 1 == |c.shards|
             && Served(w, e).value.phase.PromptProcessing?
    ensures Inv(c, WorldStep(c, w, net, e))
  {
    var p := Served(w, e).value;
    var p1 := p.(contributions := Bump(p.contributions, e.wallet));
    assert p1.contributions != map[] by { assert e.wallet in p1.contributions; }
    var w1 := WorldStep(c, w, net, e);
    if w1.s.pipeline.Some? {
      assert w1.s.counting == map[e.wallet := Counting(CountedText(p), c.next(c.prompt))];
      assert CountingInv(c, w1, p1, w1.s.counting[e.wallet]);
    }
  }

  /** Once the prompt is counted nobody is counting, and the first round can begin. */
  lemma CountedKeeps(c: Setup, w: World, net: Net, e: Event)
    requires WellFormed(c) && Seed(c) == |c.prompt| && Inv(c, w) && Regular(c, w, e) && e.Counted?
    ensures Inv(c, WorldStep(c, w, net, e))
  {
    if e.wallet in w.s.counting {
      var s1 := w.s.(counting := w.s.counting - {e.wallet});
      assert s1.counting == map[];
      var n := w.s.counting[e.wallet];
      if w.s.pipeline.Some? && n.text in e.counts {
        var p := w.s.pipeline.value;
        assert CountingInv(c, w, p, n);
        var p2 := p.(base := e.counts[n.text], expected0 := n.token, phase := AwaitingDraft);
        assert p2.base == |c.prompt|;
        assert Committed(c, p2)[..p2.base] == c.prompt;
        DispatchDraftKeeps(c, w.(s := s1.(pipeline := Some(p2))), net);
      }
    }
  }

  /** The arithmetic of the stop test when nothing wraps. */
  lemma RoundArithmetic(c: Setup, base: nat, carry: Option<u32>, generated: nat, rounds: nat, accepted: nat)
    requires WellFormed(c) && base <= |c.prompt| + c.maxTokens && accepted <= c.maxDraft
    requires base + CarryLen(carry) == |c.prompt| + generated && (carry.None? ==> generated == 0)
    requires Unfinished(c, base, carry, generated, rounds)
    ensures rounds + 1 <= RoundBound(c)
    ensures IsFinalizing(base, accepted, c.maxTokens) <==>
            c.maxTokens <= |c.prompt| + generated + accepted + 1 - CarryLen(carry)
    ensures IsFinalizing(base, accepted, c.maxTokens) ==> StopLength(c, generated + accepted + 1)
    ensures !IsFinalizing(base, accepted, c.maxTokens) ==>
              Unfinished(c, KvKeepLen(base, carry, accepted), Some(0), generated + accepted + 1, rounds + 1)
  {
    assert AsU32(base + accepted + 1) == base + accepted + 1;
  }

  lemma VerifiedCaches(c: Setup, w: World, e: Event, p: Pipeline, n: nat)
    requires p.phase.Verifying? && n <= |p.phase.draft|
    requires Served(w, e) == Some(p) && p.phase.pos + 1 == |w.caches|
    requires Settled(c, p) && CachesHold(w.caches, Committed(c, p)[..p.base], p.phase.pos, Batch(p))
    ensures var keep := KvKeepLen(p.base, p.carry, n);
            forall i | 0 <= i < |w.caches| ::
              keep <= |Feed(c, w, e)[i]| && Feed(c, w, e)[i][..keep] == Committed(c, p) + p.phase.draft[..n]
  {
    var keep := KvKeepLen(p.base, p.carry, n);
    var committed := Committed(c, p);
    assert committed == committed[..p.base] + CarrySeq(p.carry);
    var full := committed[..p.base] + Batch(p);
    assert full == committed + p.phase.draft;
    assert full[..keep] == committed + p.phase.draft[..n];
    assert forall i | 0 <= i < |w.caches| :: Feed(c, w, e)[i] == full;
  }

  /** The response grows by the target's own greedy continuation. */
  lemma VerifyExtendsGreedy(c: Setup, p: Pipeline, r: ShardReply, out: RoundOutcome)
    requires p.phase.Verifying? && Settled(c, p)
    requires p.generated == Greedy(c.next, c.prompt, |p.generated|)
    requires r.nextTokenIds == Some(Logits(c.next, Committed(c, p)[..p.base], Batch(p)))
    requires out == VerifyRound(p.carry, p.expected0, p.phase.draft, r.nextTokenIds.value)
    ensures var g := p.generated + p.phase.draft[..out.acceptedCount] + [out.settleToken];
            g == Greedy(c.next, c.prompt, |g|)
  {
    hide Greedy, Logits;
    var cache := Committed(c, p)[..p.base];
    var more := p.phase.draft[..out.acceptedCount] + [out.settleToken];
    assert Committed(c, p) == cache + CarrySeq(p.carry);
    assert p.carry.None? ==> cache == c.prompt;
    RoundCommitsGreedy(c.next, cache, p.carry, p.expected0, p.phase.draft);
    GreedySplit(c.next, c.prompt, |p.generated|, out.acceptedCount + 1);
    assert p.generated + p.phase.draft[..out.acceptedCount] + [out.settleToken] == p.generated + more;
  }

  lemma VerifyDoneKeeps(c: Setup, w: World, net: Net, e: Event)
    requires WellFormed(c) && Inv(c, w) && Regular(c, w, e)
    requires Served(w, e).Some? && Served(w, e).value.phase.pos + 1 == |c.shards| && Served(w, e).value.phase.Verifying?
    ensures Inv(c, WorldStep(c, w, net, e))
  {
    hide BeginRollback, Greedy;
    var p := Served(w, e).value;
    var p1 := p.(contributions := Bump(p.contributions, e.wallet));
    var s1 := w.s.(shardAssignment := None, pipeline := Some(p1));
    assert p1.contributions != map[] by { assert e.wallet in p1.contributions; }
    assert w.caches[p.phase.pos] == Committed(c, p)[..p.base];
    assert WorldStep(c, w, net, e).s == FinishVerify(s1, net, e.reply);
    if e.reply.nextTokenIds.Some? {
      assert |e.reply.nextTokenIds.value| == |Batch(p)|;
      var out := VerifyRound(p.carry, p.expected0, p.phase.draft, e.reply.nextTokenIds.value);
      VerifyExtendsGreedy(c, p, e.reply, out);
      VerifiedCaches(c, w, e, p, out.acceptedCount);
      RoundArithmetic(c, p.base, p.carry, |p.generated|, p.round - 1, out.acceptedCount);
      EnterRollbackKeeps(c, w, p1, s1, net, out, Feed(c, w, e));
    }
  }

  lemma EnterRollbackKeeps(c: Setup, w: World, p: Pipeline, s: Session, net: Net, out: RoundOutcome,
                           caches: seq<seq<u32>>)
    requires WellFormed(c) && |caches| == |c.shards| && p.phase.Verifying?
             && out.acceptedCount <= |p.phase.draft| <= c.maxDraft
    requires s.pipeline == Some(p) && s.draftAssignment.None? && s.counting == map[]
    requires p.shards == c.shards && p.maxTokens == c.maxTokens && p.promptHex == c.promptHex
    requires 2 <= p.k <= 8 && 0 < p.round <= RoundBound(c) && p.round <= |p.generated| + 1 && p.contributions != map[]
             && Settled(c, p)
    requires var g := p.generated + p.phase.draft[..out.acceptedCount] + [out.settleToken];
             g == Greedy(c.next, c.prompt, |g|)
    requires forall i | 0 <= i < |caches| ::
               KvKeepLen(p.base, p.carry, out.acceptedCount) <= |caches[i]| &&
               caches[i][..KvKeepLen(p.base, p.carry, out.acceptedCount)] == Committed(c, p)
                 + p.phase.draft[..out.acceptedCount]
    requires var n := out.acceptedCount;
             && (IsFinalizing(p.base, n, c.maxTokens) ==> StopLength(c, |p.generated| + n + 1))
             && (!IsFinalizing(p.base, n, c.maxTokens) ==>
                   Unfinished(c, KvKeepLen(p.base, p.carry, n), Some(0), |p.generated| + n + 1, p.round))
    requires forall line | line in s.sent :: LineOk(c, line)
    ensures var n := out.acceptedCount;
            var p1 := p.(generated := p.generated + p.phase.draft[..n] + [out.settleToken]);
            var s' := BeginRollback(s.(pipeline := Some(p1)), net, out, KvKeepLen(p.base, p.carry, n), |p.phase.draft|,
                                    IsFinalizing(p.base, n, p.maxTokens));
            Inv(c, World(s', caches, {}))
  {
    var n := out.acceptedCount;
    var keep := KvKeepLen(p.base, p.carry, n);
    var p1 := p.(generated := p.generated + p.phase.draft[..n] + [out.settleToken]);
    assert Committed(c, p1)[..keep] == Committed(c, p) + p.phase.draft[..n];
    assert DRAFT_SESSION in Sessions(p1);
    ShardRollbackLines(c, p.shards, |p.shards|, net, AsU32(keep), IsFinalizing(p.base, n, p.maxTokens));
  }

  lemma {:induction false} ShardRollbackLines(c: Setup, shards: seq<u32>, n: nat, net: Net, keep: u32, finalize: bool)
    requires n <= |shards|
    ensures forall line | line in ShardRollbacks(shards, n, net, keep, finalize) :: LineOk(c, line)
  {
    if n > 0 {
      ShardRollbackLines(c, shards, n - 1, net, keep, finalize);
    }
  }

  /** An acknowledgement shortens exactly the acknowledged cache to the kept length. */
  lemma AckTruncates(c: Setup, w: World, e: Event)
    requires WellFormed(c) && Inv(c, w) && Regular(c, w, e) && RollingBack(w, e).Some?
    ensures var p := w.s.pipeline.value;
            var rb := p.phase.rb;
            && |Feed(c, w, e)| == |c.shards|
            && CachesCover(Feed(c, w, e), Committed(c, p), rb.keepLen)
            && forall i | 0 <= i < |c.shards| && c.shards[i] !in rb.pending - {e.shardIndex} ::
               |Feed(c, w, e)[i]| == rb.keepLen
  {
    assert AsU32(RollingBack(w, e).value.keepLen) == RollingBack(w, e).value.keepLen;
  }

  lemma AckKeeps(c: Setup, w: World, net: Net, e: Event)
    requires WellFormed(c) && Inv(c, w) && Regular(c, w, e) && RollingBack(w, e).Some?
    ensures Inv(c, WorldStep(c, w, net, e))
  {
    var p := w.s.pipeline.value;
    assert w.s.counting == map[];
    var rb := p.phase.rb.(pending := p.phase.rb.pending - {e.shardIndex});
    var caches, acked := Feed(c, w, e), Acked(w, e);
    AckTruncates(c, w, e);
    assert rb.pending == Sessions(p) - acked;
    if rb.pending != {} {
      var s1 := Step(w.s, net, e);
      assert s1.pipeline == Some(p.(phase := AwaitingRollback(rb)));
      assert RollbackInv(c, World(s1, caches, acked), s1.pipeline.value, rb);
    } else if rb.finalizing {
      FinalizeKeeps(c, w, net, e);
    } else {
      var s1 := w.s.(pipeline := Some(NextRound(p, rb)));
      assert s1.sent == w.s.sent + [];
      RoundDoneKeeps(c, World(s1, caches, acked), p, rb);
      DispatchDraftKeeps(c, World(s1, caches, acked), net);
    }
  }

  lemma FinalizeKeeps(c: Setup, w: World, net: Net, e: Event)
    requires WellFormed(c) && Inv(c, w) && RollingBack(w, e).Some?
    requires var rb := w.s.pipeline.value.phase.rb; rb.finalizing && rb.pending - {e.shardIndex} == {}
    ensures Step(w.s, net, e).pipeline.None? && Inv(c, WorldStep(c, w, net, e))
  {
  }

  lemma RoundDoneKeeps(c: Setup, w: World, p: Pipeline, rb: Rollback)
    requires WellFormed(c) && p.shards == c.shards && p.maxTokens == c.maxTokens && p.promptHex == c.promptHex
    requires |w.caches| == |c.shards| && p.round <= RoundBound(c) && p.contributions != map[]
    requires p.generated == Greedy(c.next, c.prompt, |p.generated|) && p.generated != []
    requires rb.settleToken == p.generated[|p.generated| - 1] && rb.keepLen + 1 == |Committed(c, p)|
    requires Unfinished(c, rb.keepLen, Some(rb.settleToken), |p.generated|, p.round)
    requires CachesCover(w.caches, Committed(c, p), rb.keepLen)
    requires forall i | 0 <= i < |w.caches| :: |w.caches[i]| == rb.keepLen
    requires w.s.pipeline == Some(NextRound(p, rb)) && w.s.draftAssignment.None? && w.s.counting == map[]
    requires forall line | line in w.s.sent :: LineOk(c, line)
    ensures Inv(c, w)
  {
    forall i | 0 <= i < |w.caches| ensures w.caches[i] == Committed(c, p)[..rb.keepLen] {
      assert w.caches[i] == w.caches[i][..rb.keepLen];
    }
  }

  lemma DraftKeeps(c: Setup, w: World, net: Net, e: Event)
    requires WellFormed(c) && Inv(c, w) && Regular(c, w, e) && e.DraftResult?
    requires w.s.draftAssignment == Some(e.wallet) && e.tokens != [] && w.s.pipeline.Some?
    ensures Inv(c, WorldStep(c, w, net, e))
  {
    hide Greedy;
    var p := w.s.pipeline.value;
    var p1 := p.(round := p.round + 1, phase := Verifying(0, TokenIds(CarrySeq(p.carry) + e.tokens), e.tokens));
    var w1 := w.(s := w.s.(draftAssignment := None, pipeline := Some(p1)));
    RoundArithmetic(c, p.base, p.carry, |p.generated|, p.round, 0);
    assert Committed(c, p1) == Committed(c, p) && Settled(c, p1);
    assert CachesHold(w.caches, Committed(c, p1)[..p1.base], 0, Batch(p1));
    assert PhaseInv(c, w1, p1);
    assert Inv(c, w1);
    DispatchShardKeeps(c, w1, net);
  }

  lemma RetryKeeps(c: Setup, w: World, net: Net)
    requires WellFormed(c) && Inv(c, w)
    ensures Inv(c, w.(s := OnRetryTick(w.s, net)))
  {
    var w1 := if w.s.shardAssignment.None? then w.(s := DispatchShard(w.s, net)) else w;
    if w.s.shardAssignment.None? { DispatchShardKeeps(c, w, net); }
    DispatchDraftKeeps(c, w1, net);
  }

  lemma PhaseIgnoresSession(c: Setup, w: World, s: Session, p: Pipeline, credits: map<Wallet, nat>)
    requires |w.caches| == |p.shards|
    ensures PhaseInv(c, w.(s := s), p.(contributions := credits)) <==> PhaseInv(c, w, p)
  {
  }

  lemma DisconnectKeeps(c: Setup, w: World, wallet: Wallet)
    requires Inv(c, w)
    ensures Inv(c, w.(s := OnDisconnect(w.s, wallet)))
  {
    hide LineOk, Greedy, Settled;
    var s := OnDisconnect(w.s, wallet);
    if s.pipeline.Some? {
      PhaseIgnoresSession(c, w, s, s.pipeline.value, s.pipeline.value.contributions);
      hide PhaseInv;
      assert PipelineInv(c, w.(s := s), s.pipeline.value);
    }
  }

  lemma StepKeeps(c: Setup, w: World, net: Net, e: Event)
    requires WellFormed(c) && Seed(c) == |c.prompt| && Inv(c, w) && Regular(c, w, e)
    ensures Inv(c, WorldStep(c, w, net, e))
  {
    match e
    case Counted(_, _) => CountedKeeps(c, w, net, e);
    case ShardResult(_, _) =>
      if Served(w, e).Some? {
        var phase := Served(w, e).value.phase;
        if phase.pos + 1 != |c.shards| { RelayKeeps(c, w, net, e); }
        else if phase.PromptProcessing? { PromptDoneKeeps(c, w, net, e); }
        else { VerifyDoneKeeps(c, w, net, e); }
      } else {
        UnservedKeeps(c, w, net, e);
      }
    case DraftResult(wallet, tokens) =>
      if w.s.draftAssignment == Some(wallet) && tokens != [] && w.s.pipeline.Some? { DraftKeeps(c, w, net, e); }
    case RollbackAck(_, _, _) => if RollingBack(w, e).Some? { AckKeeps(c, w, net, e); }
    case RetryTick => RetryKeeps(c, w, net);
    case Disconnect(wallet) => DisconnectKeeps(c, w, wallet);
  }

  lemma UnservedKeeps(c: Setup, w: World, net: Net, e: Event)
    requires Inv(c, w) && e.ShardResult? && Served(w, e).None?
    ensures Inv(c, WorldStep(c, w, net, e))
  {
    var s := Step(w.s, net, e);
    assert WorldStep(c, w, net, e) == w.(s := s);
    if w.s.pipeline.Some? {
      var p, credits := w.s.pipeline.value, s.pipeline.value.contributions;
      assert s.pipeline == Some(p.(contributions := credits));
      PhaseIgnoresSession(c, w, s, p, credits);
      assert p.contributions != map[] ==> credits != map[];
      hide PhaseInv, Step, LineOk, Greedy;
      assert PipelineInv(c, w.(s := s), s.pipeline.value);
    }
  }

  // ---- Whole runs ----------------------------------------------------------------------------------

  datatype Stimulus = Stimulus(net: Net, event: Event)

  ghost function Run(c: Setup, w: World, run: seq<Stimulus>): World
    decreases |run|
  {
    if run == [] then w else Run(c, WorldStep(c, w, run[0].net, run[0].event), run[1..])
  }

  ghost predicate HonestRun(c: Setup, w: World, run: seq<Stimulus>)
    decreases |run|
  {
    run != [] ==> Honest(c, w, run[0].event) && HonestRun(c, WorldStep(c, w, run[0].net, run[0].event), run[1..])
  }

  ghost predicate OrderlyRun(c: Setup, w: World, run: seq<Stimulus>)
    decreases |run|
  {
    run != [] ==> Orderly(w, run[0].event) && OrderlyRun(c, WorldStep(c, w, run[0].net, run[0].event), run[1..])
  }

  ghost predicate RegularRun(c: Setup, w: World, run: seq<Stimulus>) {
    HonestRun(c, w, run) && OrderlyRun(c, w, run)
  }

  lemma {:induction false} RunKeeps(c: Setup, w: World, run: seq<Stimulus>)
    requires WellFormed(c) && Seed(c) == |c.prompt| && Inv(c, w) && RegularRun(c, w, run)
    ensures Inv(c, Run(c, w, run))
    decreases |run|
  {
    if run != [] {
      StepKeeps(c, w, run[0].net, run[0].event);
      RunKeeps(c, WorldStep(c, w, run[0].net, run[0].event), run[1..]);
    }
  }

  /** Meaning preservation: whatever the draft proposes and however events interleave, what a run has
      committed so far, and what it finally records, is the target's own greedy decode of the prompt. */
  lemma SpeculationPreservesMeaning(c: Setup, net: Net, run: seq<Stimulus>)
    requires WellFormed(c) && Seed(c) == |c.prompt| && RegularRun(c, Init(c, net), run)
    ensures var s := Run(c, Init(c, net), run).s;
            && (s.pipeline.Some? ==>
                  forall i | 0 <= i < |s.pipeline.value.generated| ::
                    s.pipeline.value.generated[i] == c.next(c.prompt + s.pipeline.value.generated[..i]))
            && (forall line | line in s.sent && line.Record? ::
                  line.tokens == Greedy(c.next, c.prompt, |line.tokens|) && c.maxTokens <= |c.prompt| + |line.tokens|)
  {
    InitHolds(c, net);
    RunKeeps(c, Init(c, net), run);
    hide RegularRun, Run, Init, WellFormed, Seed, PhaseInv, CountingInv;
    var s := Run(c, Init(c, net), run).s;
    if s.pipeline.Some? {
      GreedyPointwise(c, s.pipeline.value.generated);
    }
  }

  lemma GreedyPointwise(c: Setup, g: seq<u32>)
    requires g == Greedy(c.next, c.prompt, |g|)
    ensures forall i | 0 <= i < |g| :: g[i] == c.next(c.prompt + g[..i])
  {
    hide Greedy;
    forall i | 0 <= i < |g| ensures g[i] == c.next(c.prompt + g[..i]) {
      GreedyPrefix(c.next, c.prompt, i, |g|);
      GreedyPrefix(c.next, c.prompt, i + 1, |g|);
      GreedyLast(c.next, c.prompt, i);
      assert g[..i + 1][i] == g[i];
    }
  }

  /** After a completed rollback: the caches are exactly what was committed minus the carried last token. */
  lemma RollbackRestoresCaches(c: Setup, net: Net, run: seq<Stimulus>, i: nat)
    requires WellFormed(c) && Seed(c) == |c.prompt| && RegularRun(c, Init(c, net), run)
    requires var s := Run(c, Init(c, net), run).s; s.pipeline.Some? && s.pipeline.value.phase.AwaitingDraft?
    requires i < |c.shards|
    ensures var w := Run(c, Init(c, net), run);
            var p := w.s.pipeline.value;
            && |w.caches| == |c.shards| && p.base <= |c.prompt| + |p.generated|
            && w.caches[i] == (c.prompt + p.generated)[..p.base]
            && p.base == |c.prompt| + |p.generated| - CarryLen(p.carry)
            && (p.carry == if p.generated == [] then None else Some(p.generated[|p.generated| - 1]))
  {
    InitHolds(c, net);
    RunKeeps(c, Init(c, net), run);
  }

  lemma RollbackWithinCaches(c: Setup, w: World, i: nat)
    requires WellFormed(c) && Inv(c, w) && w.s.pipeline.Some? && w.s.pipeline.value.phase.AwaitingRollback?
    requires i < |c.shards|
    ensures var keep := w.s.pipeline.value.phase.rb.keepLen;
            && |w.caches| == |c.shards| && keep <= |w.caches[i]|
            && AsU32(keep) == keep == |c.prompt| + |w.s.pipeline.value.generated| - 1
            && w.caches[i][..keep] == (c.prompt + w.s.pipeline.value.generated)[..keep]
  {
    hide Greedy, LineOk, CountingInv, Unfinished, StopLength;
  }

  /** The truncation a shard is asked for never reaches beyond what its cache physically holds. */
  lemma KeepLenWithinCache(c: Setup, net: Net, run: seq<Stimulus>, i: nat)
    requires WellFormed(c) && Seed(c) == |c.prompt| && RegularRun(c, Init(c, net), run)
    requires var s := Run(c, Init(c, net), run).s; s.pipeline.Some? && s.pipeline.value.phase.AwaitingRollback?
    requires i < |c.shards|
    ensures var w := Run(c, Init(c, net), run);
            var keep := w.s.pipeline.value.phase.rb.keepLen;
            && |w.caches| == |c.shards| && keep <= |w.caches[i]|
            && AsU32(keep) == keep == |c.prompt| + |w.s.pipeline.value.generated| - 1
            && w.caches[i][..keep] == (c.prompt + w.s.pipeline.value.generated)[..keep]
  {
    InitHolds(c, net);
    RunKeeps(c, Init(c, net), run);
    hide RegularRun, Run, Init, Inv;
    RollbackWithinCaches(c, Run(c, Init(c, net), run), i);
  }

  /** Termination: every round commits at least one token, and the number of rounds is bounded. */
  lemma RoundsAreBounded(c: Setup, net: Net, run: seq<Stimulus>)
    requires WellFormed(c) && Seed(c) == |c.prompt| && RegularRun(c, Init(c, net), run)
    ensures var s := Run(c, Init(c, net), run).s;
            && (s.pipeline.Some? ==>
                  var p := s.pipeline.value;
                  && p.round <= RoundBound(c) && p.round <= |p.generated| + 1
                  && (!p.phase.Verifying? ==> p.round <= |p.generated|)
                  && 2 <= p.k <= 8)
            && (forall line | line in s.sent && line.DraftGenerate? :: 1 <= line.k <= 8)
  {
    InitHolds(c, net);
    RunKeeps(c, Init(c, net), run);
  }

  /** A round ends only after every shard and the draft session acknowledged its rollback in that phase. */
  lemma RoundEndsAfterEveryAck(c: Setup, w: World, net: Net, e: Event)
    requires WellFormed(c) && Seed(c) == |c.prompt| && Inv(c, w) && Regular(c, w, e) && !e.Disconnect?
    requires w.s.pipeline.Some? && w.s.pipeline.value.phase.AwaitingRollback?
    ensures var s' := Step(w.s, net, e);
            (s'.pipeline.Some? && s'.pipeline.value.phase.AwaitingRollback?) <==>
            !(forall idx | idx in c.shards + [DRAFT_SESSION] :: idx in Acked(w, e))
  {
    var p := w.s.pipeline.value;
    assert forall idx :: idx in c.shards + [DRAFT_SESSION] <==> idx in Sessions(p);
    if RollingBack(w, e).Some? {
      var rb := p.phase.rb.(pending := p.phase.rb.pending - {e.shardIndex});
      assert rb.pending == Sessions(p) - Acked(w, e);
    }
  }
}
