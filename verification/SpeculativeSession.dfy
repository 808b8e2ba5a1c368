/** The state of one speculatively decoded request and what every event does to it.

    A `Session` is the slice of the engine's maps that belongs to one request id; `sent` records, in
    order, every line and on-chain call the engine emitted for it. The handler of the reply that ends the prompt pass
    waits until the prompt's tokens are counted; everything else is handled without waiting. */
module SpeculativeSession {
  import opened Common
  import opened SpeculativeRound
  import opened Attribution

  /** The draft's own KV session uses this reserved shard index. */
  const DRAFT_SESSION: u32 := 0xFFFF_FFFF

  datatype WireInput = Prompt(hex: string) | NextTokenId(id: u32) | TokenIds(ids: seq<u32>) | Tensor(data: string)

  datatype Rollback = Rollback(
    pending: set<u32>, acceptedCount: nat, kThisRound: nat, settleToken: u32, keepLen: nat, finalizing: bool)

  datatype Phase =
    | PromptProcessing(pos: nat, input: WireInput)
    | AwaitingDraft
    | Verifying(pos: nat, input: WireInput, draft: seq<u32>)
    | AwaitingRollback(rb: Rollback)

  datatype Pipeline = Pipeline(
    shards: seq<u32>, maxTokens: u32, promptHex: string, draftWallet: Option<Wallet>,
    base: nat, carry: Option<u32>, expected0: u32, k: nat, round: nat, phase: Phase,
    generated: seq<u32>, contributions: map<Wallet, nat>)

  datatype ShardAssignment = ShardAssignment(wallet: Wallet, shardIndex: u32)

  datatype Line =
    | ShardAssign(wallet: Wallet, shardIndex: u32, input: WireInput)
    | DraftGenerate(wallet: Wallet, k: nat, input: WireInput)
    | KvRollback(wallet: Wallet, shardIndex: u32, keepUntil: u32, finalize: bool)
    | SubmitShard(shardIndex: u32, hash: string)
    | Record(wallet: Wallet, tokens: seq<u32>)

  /** A suspended handler: the text it has counted, and the token it will go on with. */
  datatype Counting = Counting(text: string, token: u32)

  datatype Session = Session(
    pipeline: Option<Pipeline>, shardAssignment: Option<ShardAssignment>, draftAssignment: Option<Wallet>,
    counting: map<Wallet, Counting>, sent: seq<Line>)

  /** What the miner registry answers while an event is handled: the round-robin picks and who is connected. */
  datatype Net = Net(nextMiner: Option<Wallet>, draftMiner: Option<Wallet>, connected: set<Wallet>)

  datatype ShardReply = ShardReply(shardIndex: u32, output: string, nextTokenId: Option<u32>,
                                   nextTokenIds: Option<seq<u32>>)

  datatype Event =
    | ShardResult(wallet: Wallet, reply: ShardReply)
    | Counted(wallet: Wallet, counts: map<string, nat>)
    | DraftResult(wallet: Wallet, tokens: seq<u32>)
    | RollbackAck(shardIndex: u32, ok: bool, finalizedHash: Option<string>)
    | RetryTick
    | Disconnect(wallet: Wallet)

  function Start(shards: seq<u32>, maxTokens: u32, promptHex: string): Session {
    Session(Some(Pipeline(shards, maxTokens, promptHex, None, 0, None, 0, 4, 0,
                          PromptProcessing(0, Prompt(promptHex)), [], map[])), None, None, map[], [])
  }

  // ---- Dispatch ------------------------------------------------------------------------------

  function DispatchShard(s: Session, net: Net): Session {
    if s.pipeline.None? then s else
      var p := s.pipeline.value;
      if !(p.phase.PromptProcessing? || p.phase.Verifying?) || p.phase.pos >= |p.shards| then s
      else if net.nextMiner.None? || net.nextMiner.value !in net.connected then s
      else
        var w, idx := net.nextMiner.value, p.shards[p.phase.pos];
        s.(shardAssignment := Some(ShardAssignment(w, idx)), sent := s.sent + [ShardAssign(w, idx, p.phase.input)])
  }

  function DraftK(p: Pipeline): nat {
    if p.carry.Some? then (if p.k <= 2 then 1 else p.k - 1) else p.k
  }

  function DraftInput(p: Pipeline): WireInput {
    if p.carry.Some? then NextTokenId(p.carry.value) else Prompt(p.promptHex)
  }

  /** The pinned draft miner while it is connected, otherwise a freshly picked one. */
  function DraftMiner(p: Pipeline, net: Net): Option<Wallet> {
    if p.draftWallet.Some? && p.draftWallet.value in net.connected then p.draftWallet else net.draftMiner
  }

  function DispatchDraft(s: Session, net: Net): Session {
    if s.pipeline.None? || !s.pipeline.value.phase.AwaitingDraft? then s else
      var p := s.pipeline.value;
      var miner := DraftMiner(p, net);
      if miner.None? then s else
        var s1 := s.(pipeline := Some(p.(draftWallet := miner)));
        if miner.value !in net.connected then s1
        else s1.(draftAssignment := miner, sent := s.sent + [DraftGenerate(miner.value, DraftK(p), DraftInput(p))])
  }

  // ---- Shard results ---------------------------------------------------------------------------

  predicate Accepts(s: Session, w: Wallet, shardIndex: u32) {
    s.shardAssignment == Some(ShardAssignment(w, shardIndex))
  }

  ghost function OnShardResult(s: Session, net: Net, w: Wallet, r: ShardReply): Session {
    if !Accepts(s, w, r.shardIndex) then s else
      var s1 := s.(shardAssignment := None);
      if s1.pipeline.None? then s1 else
        Continue(s1.(pipeline := Some(s1.pipeline.value.(contributions := Bump(s1.pipeline.value.contributions, w)))),
                 net, w, r)
  }

  /** Where an accepted reply leads: the next shard, the end of the prompt pass, or the end of a round. */
  ghost function Continue(s: Session, net: Net, w: Wallet, r: ShardReply): Session
    requires s.pipeline.Some?
  {
    var p := s.pipeline.value;
    if !(p.phase.PromptProcessing? || p.phase.Verifying?) then s
    else if p.phase.pos + 1 != |p.shards| then
      DispatchShard(s.(pipeline := Some(p.(phase := p.phase.(pos := p.phase.pos + 1, input := Tensor(r.output))))), net)
    else if p.phase.PromptProcessing? then FinishPrompt(s, w, r)
    else FinishVerify(s, net, r)
  }

  /** The text whose tokens are counted to seed `base`: the shard input, if it still is the prompt. */
  function CountedText(p: Pipeline): string
    requires p.phase.PromptProcessing?
  {
    if p.phase.input.Prompt? then p.phase.input.hex else ""
  }

  function FinishPrompt(s: Session, w: Wallet, r: ShardReply): Session
    requires s.pipeline.Some? && s.pipeline.value.phase.PromptProcessing?
  {
    if r.nextTokenId.None? then s.(pipeline := None)
    else s.(counting := s.counting[w := Counting(CountedText(s.pipeline.value), r.nextTokenId.value)])
  }

  /** The count seeds `base`, whatever the request is doing by then; without a count the request is dropped. */
  function OnCounted(s: Session, net: Net, w: Wallet, counts: map<string, nat>): Session {
    if w !in s.counting then s
    else
      var c, s1 := s.counting[w], s.(counting := s.counting - {w});
      if c.text !in counts then s1.(pipeline := None)
      else if s1.pipeline.None? then s1
      else
        var p := s1.pipeline.value.(base := counts[c.text], expected0 := c.token, phase := AwaitingDraft);
        DispatchDraft(s1.(pipeline := Some(p)), net)
  }

  function IsFinalizing(base: nat, acceptedCount: nat, maxTokens: u32): bool {
    AsU32(base + acceptedCount + 1) >= maxTokens
  }

  ghost function FinishVerify(s: Session, net: Net, r: ShardReply): Session
    requires s.pipeline.Some? && s.pipeline.value.phase.Verifying?
  {
    var p := s.pipeline.value;
    var draft := p.phase.draft;
    if r.nextTokenIds.None? then s.(pipeline := None)
    // A wrong batch length trips the length assertion: the handler dies here and the round stalls.
    else if |r.nextTokenIds.value| != |draft| + CarryLen(p.carry) then s
    else
      var out := VerifyRound(p.carry, p.expected0, draft, r.nextTokenIds.value);
      var p1 := p.(generated := p.generated + draft[..out.acceptedCount] + [out.settleToken]);
      BeginRollback(s.(pipeline := Some(p1)), net, out, KvKeepLen(p.base, p.carry, out.acceptedCount), |draft|,
                    IsFinalizing(p.base, out.acceptedCount, p.maxTokens))
  }

  // ---- Rollback ------------------------------------------------------------------------------

  /** The truncate/finalize command for one shard, to the currently picked miner. */
  function ShardRollback(shard: u32, net: Net, keep: u32, finalize: bool): seq<Line> {
    if net.nextMiner.None? || net.nextMiner.value !in net.connected then []
    else [KvRollback(net.nextMiner.value, shard, keep, finalize)]
  }

  /** The commands for the first `n` shards. */
  function ShardRollbacks(shards: seq<u32>, n: nat, net: Net, keep: u32, finalize: bool): seq<Line>
    requires n <= |shards|
  {
    if n == 0 then []
    else ShardRollbacks(shards, n - 1, net, keep, finalize) + ShardRollback(shards[n - 1], net, keep, finalize)
  }

  function DraftRollback(p: Pipeline, net: Net, keep: u32): seq<Line> {
    if p.draftWallet.None? || p.draftWallet.value !in net.connected then []
    else [KvRollback(p.draftWallet.value, DRAFT_SESSION, keep, false)]
  }

  function IndexSet(shards: seq<u32>, n: nat): set<u32>
    requires n <= |shards|
  {
    set i | 0 <= i < n :: shards[i]
  }

  function Sessions(p: Pipeline): set<u32> {
    IndexSet(p.shards, |p.shards|) + {DRAFT_SESSION}
  }

  function BeginRollback(s: Session, net: Net, out: RoundOutcome, keepLen: nat, kThisRound: nat,
                         finalizing: bool): Session
    requires s.pipeline.Some?
  {
    var p := s.pipeline.value;
    var rb := Rollback(Sessions(p), out.acceptedCount, kThisRound, out.settleToken, keepLen, finalizing);
    s.(pipeline := Some(p.(phase := AwaitingRollback(rb))),
       sent := s.sent + ShardRollbacks(p.shards, |p.shards|, net, AsU32(keepLen), finalizing)
                      + DraftRollback(p, net, AsU32(keepLen)))
  }

  /** On the final round a shard's acknowledgement carries the hash to submit for it. */
  function FinalSubmit(shardIndex: u32, finalizing: bool, finalizedHash: Option<string>): seq<Line> {
    if shardIndex != DRAFT_SESSION && finalizing && finalizedHash.Some?
    then [SubmitShard(shardIndex, finalizedHash.value)] else []
  }

  ghost function OnRollbackAck(s: Session, net: Net, shardIndex: u32, finalizedHash: Option<string>): Session {
    if s.pipeline.None? || !s.pipeline.value.phase.AwaitingRollback? then s else
      var p := s.pipeline.value;
      var rb := p.phase.rb.(pending := p.phase.rb.pending - {shardIndex});
      var submit := FinalSubmit(shardIndex, rb.finalizing, finalizedHash);
      var s1 := s.(pipeline := Some(p.(phase := AwaitingRollback(rb))), sent := s.sent + submit);
      if rb.pending != {} then s1
      else if rb.finalizing then Finalize(s1)
      else DispatchDraft(s1.(pipeline := Some(NextRound(p, rb))), net)
  }

  function NextRound(p: Pipeline, rb: Rollback): Pipeline {
    p.(base := rb.keepLen, carry := Some(rb.settleToken), expected0 := rb.settleToken,
       k := NextK(p.k, rb.acceptedCount, rb.kThisRound), phase := AwaitingDraft)
  }

  ghost function Finalize(s: Session): Session
    requires s.pipeline.Some?
  {
    var p := s.pipeline.value;
    var winner := Winner(p.contributions);
    s.(pipeline := None, sent := if winner.None? then s.sent else s.sent + [Record(winner.value, p.generated)])
  }

  // ---- Draft results, ticks and disconnects ------------------------------------------------------

  function OnDraftResult(s: Session, net: Net, w: Wallet, tokens: seq<u32>): Session {
    if s.draftAssignment != Some(w) then s else
      var s1 := s.(draftAssignment := None);
      if tokens == [] || s.pipeline.None? then s1 else
        var p := s.pipeline.value;
        DispatchShard(
          s1.(pipeline := Some(p.(round := p.round + 1,
                                  phase := Verifying(0, TokenIds(CarrySeq(p.carry) + tokens), tokens)))), net)
  }

  function OnRetryTick(s: Session, net: Net): Session {
    var s1 := if s.shardAssignment.None? then DispatchShard(s, net) else s;
    if s1.draftAssignment.None? then DispatchDraft(s1, net) else s1
  }

  /** Ending a wallet's session drops the handler running inside it, then releases what the wallet holds. */
  function OnDisconnect(s: Session, w: Wallet): Session {
    Released(s.(counting := s.counting - {w}), w)
  }

  function Unassigned(s: Session, w: Wallet): Session {
    var s1 := if s.shardAssignment.Some? && s.shardAssignment.value.wallet == w then s.(shardAssignment := None) else s;
    if s1.draftAssignment == Some(w) then s1.(draftAssignment := None) else s1
  }

  function Released(s: Session, w: Wallet): Session {
    var s2 := Unassigned(s, w);
    if s2.pipeline.Some? && s2.pipeline.value.draftWallet == Some(w) then s2.(pipeline := None) else s2
  }

  ghost function Step(s: Session, net: Net, e: Event): Session {
    match e
    case ShardResult(w, r) => OnShardResult(s, net, w, r)
    case Counted(w, counts) => OnCounted(s, net, w, counts)
    case DraftResult(w, tokens) => OnDraftResult(s, net, w, tokens)
    case RollbackAck(shardIndex, _, hash) => OnRollbackAck(s, net, shardIndex, hash)
    case RetryTick => OnRetryTick(s, net)
    case Disconnect(w) => OnDisconnect(s, w)
  }
}
