/** The speculative engine: the maps it keeps for all requests, and the handlers that update them.

    Every handler is proved to do to its own request exactly what the session machine says, and to
    leave every other request alone. Handlers read the registry through a `Roster` taken under its lock. */
module SpeculativeEngines {
  import opened Common
  import opened Attribution
  import opened Rosters
  import Round = SpeculativeRound
  import Graphs = ModelGraphs
  import Shards = ShardSession
  import S = SpeculativeSession

  function IndicesOf(shards: seq<Shards.Shard>): seq<u32> {
    seq(|shards|, i requires 0 <= i < |shards| => shards[i].index)
  }

  /** The pipeline goes through the shards in the order of their indices. */
  function Opening(shards: seq<Shards.Shard>, maxTokens: u32, promptHex: string): S.Session {
    S.Start(IndicesOf(Graphs.ByIndex(shards)), maxTokens, promptHex)
  }

  function NetOf(roster: Roster, last: Option<Wallet>): S.Net {
    S.Net(roster.PickNext(last), roster.PickDraftCapable(None), roster.Connected())
  }

  /** A retry tick took one request from `before` to `after`, wherever the round-robin stood at that moment. */
  ghost predicate Retried(before: S.Session, roster: Roster, after: S.Session) {
    exists last :: after == S.Step(before, NetOf(roster, last), S.RetryTick)
  }

  lemma DraftIgnoresTurn(s: S.Session, roster: Roster, last: Option<Wallet>)
    ensures S.DispatchDraft(s, NetOf(roster, None)) == S.DispatchDraft(s, NetOf(roster, last))
  {
  }

  /** Shard steps first, drafts second: together one retry tick, since a draft's choice of miner ignores the
      round-robin. */
  lemma TickInTwoPasses(before: S.Session, mid: S.Session, after: S.Session, roster: Roster, last: Option<Wallet>)
    requires mid == if before.shardAssignment.None? then S.DispatchShard(before, NetOf(roster, last)) else before
    requires after == if mid.draftAssignment.None? then S.DispatchDraft(mid, NetOf(roster, None)) else mid
    ensures Retried(before, roster, after)
  {
    var net := NetOf(roster, last);
    assert S.DispatchDraft(mid, net) == S.DispatchDraft(mid, NetOf(roster, None));
    assert after == S.Step(before, net, S.RetryTick);
  }

  lemma NoRollbacksYet(shards: seq<u32>, sent: seq<S.Line>, net: S.Net, keep: u32, finalize: bool)
    ensures S.IndexSet(shards, 0) == {} && sent + S.ShardRollbacks(shards, 0, net, keep, finalize) == sent
  {
  }

  lemma RollbacksGrow(shards: seq<u32>, n: nat, sent: seq<S.Line>, net: S.Net, keep: u32, finalize: bool)
    requires n < |shards|
    ensures S.IndexSet(shards, n + 1) == S.IndexSet(shards, n) + {shards[n]}
    ensures sent + S.ShardRollbacks(shards, n + 1, net, keep, finalize)
         == sent + S.ShardRollbacks(shards, n, net, keep, finalize) + S.ShardRollback(shards[n], net, keep, finalize)
  {
    hide S.ShardRollback;
  }

  class SpeculativeEngine {
    var pipelines: map<RequestId, S.Pipeline>
    var shardAssignments: map<RequestId, S.ShardAssignment>
    var draftAssignments: map<RequestId, Wallet>
    var lastShardWallet: Option<Wallet>
    /** The suspended handlers of each request, by the wallet in whose session they run. */
    var counting: map<RequestId, map<Wallet, S.Counting>>
    /** Everything sent on behalf of each request, in order. */
    var sent: map<RequestId, seq<S.Line>>

    function CountingOf(id: RequestId): map<Wallet, S.Counting>
      reads this
    {
      if id in counting then counting[id] else map[]
    }

    function SentOf(id: RequestId): seq<S.Line>
      reads this`sent
    {
      if id in sent then sent[id] else []
    }

    /** The part of the engine that belongs to one request. */
    function Slice(id: RequestId): S.Session
      reads this
    {
      S.Session(if id in pipelines then Some(pipelines[id]) else None,
                if id in shardAssignments then Some(shardAssignments[id]) else None,
                if id in draftAssignments then Some(draftAssignments[id]) else None,
                CountingOf(id),
                SentOf(id))
    }

    constructor ()
      ensures forall id :: Slice(id) == S.Session(None, None, None, map[], [])
    {
      pipelines, shardAssignments, draftAssignments, lastShardWallet := map[], map[], map[], None;
      counting, sent := map[], map[];
    }

    method Emit(id: RequestId, line: S.Line)
      modifies this`sent
      ensures Slice(id) == old(Slice(id)).(sent := old(Slice(id)).sent + [line])
      ensures forall other | other != id :: Slice(other) == old(Slice(other))
    {
      sent := sent[id := SentOf(id) + [line]];
    }

    /** Without a draft source for the model nothing is started. */
    method StartPipeline(id: RequestId, hasDraftSource: bool, shards: seq<Shards.Shard>, maxTokens: u32,
                         promptHex: string, roster: Roster)
      modifies this
      ensures var start := old(Slice(id)).(pipeline := Opening(shards, maxTokens, promptHex).pipeline);
              Slice(id) == if hasDraftSource then S.DispatchShard(start, NetOf(roster, old(lastShardWallet)))
                else old(Slice(id))
      ensures forall other | other != id :: Slice(other) == old(Slice(other))
    {
      if !hasDraftSource { return; }
      var sorted := Graphs.SortByIndex(shards);
      var phase := S.PromptProcessing(0, S.Prompt(promptHex));
      pipelines := pipelines[id := S.Pipeline(IndicesOf(sorted), maxTokens, promptHex, None, 0, None, 0, 4, 0, phase,
                                              [], map[])];
      DispatchShardStep(id, roster);
    }

    method DispatchShardStep(id: RequestId, roster: Roster)
      modifies this
      ensures Slice(id) == S.DispatchShard(old(Slice(id)), NetOf(roster, old(lastShardWallet)))
      ensures forall other | other != id :: Slice(other) == old(Slice(other))
    {
      if id !in pipelines { return; }
      var p := pipelines[id];
      if !p.phase.PromptProcessing? && !p.phase.Verifying? { return; }
      var pos, input := p.phase.pos, p.phase.input;
      if pos >= |p.shards| { return; }
      var wallet := roster.PickNext(lastShardWallet);
      if wallet.None? { return; }
      lastShardWallet := wallet;
      if wallet.value !in roster.order { return; }
      shardAssignments := shardAssignments[id := S.ShardAssignment(wallet.value, p.shards[pos])];
      Emit(id, S.ShardAssign(wallet.value, p.shards[pos], input));
    }

    method DispatchDraft(id: RequestId, roster: Roster)
      modifies this
      ensures Slice(id) == S.DispatchDraft(old(Slice(id)), NetOf(roster, old(lastShardWallet)))
      ensures lastShardWallet == old(lastShardWallet)
      ensures forall other | other != id :: Slice(other) == old(Slice(other))
    {
      hide NextAfter;
      if id !in pipelines || !pipelines[id].phase.AwaitingDraft? { return; }
      var wallet := PinDraftMiner(id, roster);
      if wallet.None? || wallet.value !in roster.order { return; }
      var p := pipelines[id];
      var k := p.k;
      if p.carry.Some? {
        k := if p.k <= 2 then 1 else p.k - 1;
      }
      var input := if p.carry.Some? then S.NextTokenId(p.carry.value) else S.Prompt(p.promptHex);
      draftAssignments := draftAssignments[id := wallet.value];
      Emit(id, S.DraftGenerate(wallet.value, k, input));
    }

    /** The pinned draft miner if it is still connected, otherwise a draft-capable one, pinned from now on. */
    method PinDraftMiner(id: RequestId, roster: Roster) returns (wallet: Option<Wallet>)
      requires id in pipelines
      modifies this`pipelines
      ensures id in pipelines && wallet == S.DraftMiner(old(pipelines[id]), NetOf(roster, lastShardWallet))
      ensures pipelines[id] == if wallet.Some? then old(pipelines[id]).(draftWallet := wallet) else old(pipelines[id])
      ensures forall other | other != id :: Slice(other) == old(Slice(other))
    {
      var p := pipelines[id];
      wallet := p.draftWallet;
      if wallet.None? || wallet.value !in roster.order {
        wallet := roster.PickDraftCapable(None);
        if wallet.Some? {
          pipelines := pipelines[id := p.(draftWallet := wallet)];
        }
      }
    }

    /** Accepts the reply of the assigned miner, then advances, finishes the prompt pass or settles the round. */
    method HandleShardResult(id: RequestId, wallet: Wallet, reply: S.ShardReply, roster: Roster)
      returns (accepted: bool)
      modifies this
      ensures accepted <==> S.Accepts(old(Slice(id)), wallet, reply.shardIndex)
      ensures Slice(id) == S.OnShardResult(old(Slice(id)), NetOf(roster, old(lastShardWallet)), wallet, reply)
      ensures forall other | other != id :: Slice(other) == old(Slice(other))
    {
      hide NetOf, S.Continue;
      if id !in shardAssignments { return false; }
      var assignment := shardAssignments[id];
      if assignment.wallet != wallet || assignment.shardIndex != reply.shardIndex { return false; }
      accepted := true;
      shardAssignments := shardAssignments - {id};
      if id !in pipelines { return; }
      var p := pipelines[id];
      pipelines := pipelines[id := p.(contributions := Bump(p.contributions, wallet))];
      Continue(id, wallet, reply, roster);
    }

    /** Relays to the next shard, or finishes the prompt pass or the verify pass. */
    method Continue(id: RequestId, wallet: Wallet, reply: S.ShardReply, roster: Roster)
      requires id in pipelines
      modifies this
      ensures Slice(id) == S.Continue(old(Slice(id)), NetOf(roster, old(lastShardWallet)), wallet, reply)
      ensures forall other | other != id :: Slice(other) == old(Slice(other))
    {
      hide S.FinishPrompt, S.FinishVerify, S.DispatchShard;
      var p := pipelines[id];
      if !p.phase.PromptProcessing? && !p.phase.Verifying? { return; }
      if p.phase.pos + 1 != |p.shards| {
        pipelines := pipelines[id := p.(phase := p.phase.(pos := p.phase.pos + 1, input := S.Tensor(reply.output)))];
        DispatchShardStep(id, roster);
      } else if p.phase.PromptProcessing? {
        FinishPrompt(id, wallet, reply);
      } else {
        FinishVerify(id, reply, roster);
      }
    }

    /** The prompt pass is over; the handler now waits for the number of the prompt's tokens. */
    method FinishPrompt(id: RequestId, wallet: Wallet, reply: S.ShardReply)
      requires id in pipelines && pipelines[id].phase.PromptProcessing?
      modifies this`pipelines, this`counting
      ensures Slice(id) == S.FinishPrompt(old(Slice(id)), wallet, reply)
      ensures forall other | other != id :: Slice(other) == old(Slice(other))
    {
      var p := pipelines[id];
      if reply.nextTokenId.None? {
        pipelines := pipelines - {id};
        return;
      }
      var text := if p.phase.input.Prompt? then p.phase.input.hex else "";
      counting := counting[id := CountingOf(id)[wallet := S.Counting(text, reply.nextTokenId.value)]];
    }

    /** With the count the first round can begin; without it the request is dropped. */
    method ResumeCount(id: RequestId, wallet: Wallet, counts: map<string, nat>, roster: Roster)
      modifies this
      ensures Slice(id) == S.OnCounted(old(Slice(id)), NetOf(roster, old(lastShardWallet)), wallet, counts)
      ensures forall other | other != id :: Slice(other) == old(Slice(other))
    {
      hide NetOf, S.DispatchDraft;
      var waiting := CountingOf(id);
      if wallet !in waiting { return; }
      var c := waiting[wallet];
      counting := counting[id := waiting - {wallet}];
      if c.text !in counts {
        pipelines := pipelines - {id};
      } else if id in pipelines {
        pipelines := pipelines[id :=
          pipelines[id].(base := counts[c.text], expected0 := c.token, phase := S.AwaitingDraft)];
        DispatchDraft(id, roster);
      }
    }

    method FinishVerify(id: RequestId, reply: S.ShardReply, roster: Roster)
      requires id in pipelines && pipelines[id].phase.Verifying?
      modifies this
      ensures Slice(id) == S.FinishVerify(old(Slice(id)), NetOf(roster, old(lastShardWallet)), reply)
      ensures forall other | other != id :: Slice(other) == old(Slice(other))
    {
      hide NetOf, S.BeginRollback;
      var p := pipelines[id];
      if reply.nextTokenIds.None? {
        pipelines := pipelines - {id};
        return;
      }
      var draft := p.phase.draft;
      if |reply.nextTokenIds.value| != |draft| + Round.CarryLen(p.carry) { return; }
      var outcome := Round.GreedyVerifyRound(p.carry, p.expected0, draft, reply.nextTokenIds.value);
      var keepLen := Round.KvKeepLen(p.base, p.carry, outcome.acceptedCount);
      var finalizing := AsU32(p.base + outcome.acceptedCount + 1) >= p.maxTokens;
      p := p.(generated := p.generated + draft[..outcome.acceptedCount] + [outcome.settleToken]);
      pipelines := pipelines[id := p];
      BeginRollback(id, outcome, keepLen, |draft|, finalizing, roster);
    }

    method SendRollback(id: RequestId, shard: u32, keepLen: nat, finalizing: bool, roster: Roster)
      modifies this`sent
      ensures var net := NetOf(roster, lastShardWallet);
              SentOf(id) == old(SentOf(id)) + S.ShardRollback(shard, net, AsU32(keepLen), finalizing)
      ensures forall other | other != id :: SentOf(other) == old(SentOf(other))
    {
      hide NextAfter;
      var wallet := roster.PickNext(lastShardWallet);
      if wallet.Some? && wallet.value in roster.order {
        sent := sent[id := SentOf(id) + [S.KvRollback(wallet.value, shard, AsU32(keepLen), finalizing)]];
      }
    }

    /** Sends the truncate/finalize command of every shard, then the draft session's, and collects whom to wait for. */
    method SendRollbacks(id: RequestId, p: S.Pipeline, keepLen: nat, finalizing: bool, roster: Roster)
      returns (pending: set<u32>)
      modifies this`sent
      ensures pending == S.Sessions(p)
      ensures var net := NetOf(roster, lastShardWallet);
              Slice(id) == old(Slice(id)).(sent := old(Slice(id)).sent
                             + S.ShardRollbacks(p.shards, |p.shards|, net, AsU32(keepLen), finalizing)
                             + S.DraftRollback(p, net, AsU32(keepLen)))
      ensures forall other | other != id :: Slice(other) == old(Slice(other))
    {
      pending := SendShardRollbacks(id, p, keepLen, finalizing, roster);
      hide NextAfter, S.ShardRollbacks;
      if p.draftWallet.Some? && p.draftWallet.value in roster.order {
        Emit(id, S.KvRollback(p.draftWallet.value, S.DRAFT_SESSION, AsU32(keepLen), false));
      }
      pending := pending + {S.DRAFT_SESSION};
    }

    method SendShardRollbacks(id: RequestId, p: S.Pipeline, keepLen: nat, finalizing: bool, roster: Roster)
      returns (pending: set<u32>)
      modifies this`sent
      ensures pending == S.IndexSet(p.shards, |p.shards|)
      ensures var net := NetOf(roster, lastShardWallet);
              SentOf(id) == old(SentOf(id)) + S.ShardRollbacks(p.shards, |p.shards|, net, AsU32(keepLen), finalizing)
      ensures forall other | other != id :: SentOf(other) == old(SentOf(other))
    {
      hide NetOf, S.ShardRollback, S.ShardRollbacks, S.IndexSet, SentOf, AsU32;
      pending := {};
      ghost var net, before, keep := NetOf(roster, lastShardWallet), SentOf(id), AsU32(keepLen);
      NoRollbacksYet(p.shards, before, net, keep, finalizing);
      for i := 0 to |p.shards|
        invariant pending == S.IndexSet(p.shards, i)
        invariant SentOf(id) == before + S.ShardRollbacks(p.shards, i, net, keep, finalizing)
        invariant forall other | other != id :: SentOf(other) == old(SentOf(other))
      {
        RollbacksGrow(p.shards, i, before, net, keep, finalizing);
        SendRollback(id, p.shards[i], keepLen, finalizing, roster);
        pending := pending + {p.shards[i]};
      }
    }

    method BeginRollback(id: RequestId, outcome: Round.RoundOutcome, keepLen: nat, kThisRound: nat, finalizing: bool,
                         roster: Roster)
      requires id in pipelines
      modifies this
      ensures Slice(id) == S.BeginRollback(old(Slice(id)), NetOf(roster, old(lastShardWallet)), outcome, keepLen,
                                           kThisRound, finalizing)
      ensures forall other | other != id :: Slice(other) == old(Slice(other))
    {
      hide S.ShardRollbacks, S.DraftRollback;
      var p := pipelines[id];
      var pending := SendRollbacks(id, p, keepLen, finalizing, roster);
      var rb := S.Rollback(pending, outcome.acceptedCount, kThisRound, outcome.settleToken, keepLen, finalizing);
      pipelines := pipelines[id := p.(phase := S.AwaitingRollback(rb))];
    }

    method SubmitFinal(id: RequestId, shardIndex: u32, finalizing: bool, finalizedHash: Option<string>)
      modifies this`sent
      ensures Slice(id) == old(Slice(id)).(sent :=
                old(Slice(id)).sent + S.FinalSubmit(shardIndex, finalizing, finalizedHash))
      ensures forall other | other != id :: Slice(other) == old(Slice(other))
    {
      if shardIndex != S.DRAFT_SESSION && finalizing && finalizedHash.Some? {
        Emit(id, S.SubmitShard(shardIndex, finalizedHash.value));
      } else {
        assert Slice(id).sent == Slice(id).sent + [];
      }
    }

    method HandleKvRollbackAck(id: RequestId, shardIndex: u32, ok: bool, finalizedHash: Option<string>, roster: Roster)
      modifies this
      ensures Slice(id) == S.Step(old(Slice(id)), NetOf(roster, old(lastShardWallet)),
                                  S.RollbackAck(shardIndex, ok, finalizedHash))
      ensures forall other | other != id :: Slice(other) == old(Slice(other))
    {
      hide NetOf, S.DispatchDraft, S.Finalize;
      if id !in pipelines { return; }
      var p := pipelines[id];
      if !p.phase.AwaitingRollback? { return; }
      var rb := p.phase.rb;
      SubmitFinal(id, shardIndex, rb.finalizing, finalizedHash);
      hide S.FinalSubmit;
      rb := rb.(pending := rb.pending - {shardIndex});
      p := p.(phase := S.AwaitingRollback(rb));
      pipelines := pipelines[id := p];
      if rb.pending == {} {
        RoundComplete(id, roster);
      }
    }

    /** Every session answered: record the response, or set up the next round and ask for a draft. */
    method RoundComplete(id: RequestId, roster: Roster)
      requires id in pipelines && pipelines[id].phase.AwaitingRollback?
      modifies this
      ensures var p := old(pipelines[id]);
              Slice(id) == if p.phase.rb.finalizing then S.Finalize(old(Slice(id)))
                           else S.DispatchDraft(old(Slice(id)).(pipeline := Some(S.NextRound(p, p.phase.rb))),
                                                NetOf(roster, old(lastShardWallet)))
      ensures forall other | other != id :: Slice(other) == old(Slice(other))
    {
      hide NetOf, S.DispatchDraft, S.Finalize;
      var p := pipelines[id];
      var rb := p.phase.rb;
      if rb.finalizing {
        FinalizePipeline(id);
      } else {
        var k := Round.NextK(p.k, rb.acceptedCount, rb.kThisRound);
        pipelines := pipelines[id := p.(base := rb.keepLen, carry := Some(rb.settleToken), expected0 := rb.settleToken,
                                        k := k, phase := S.AwaitingDraft)];
        DispatchDraft(id, roster);
      }
    }

    method FinalizePipeline(id: RequestId)
      requires id in pipelines
      modifies this
      ensures Slice(id) == S.Finalize(old(Slice(id)))
      ensures forall other | other != id :: Slice(other) == old(Slice(other))
    {
      var p := pipelines[id];
      pipelines := pipelines - {id};
      var winner := SelectWinningWallet(p.contributions);
      if winner.None? { return; }
      Emit(id, S.Record(winner.value, p.generated));
    }

    method HandleDraftResult(id: RequestId, wallet: Wallet, tokens: seq<u32>, roster: Roster)
      modifies this
      ensures Slice(id) == S.Step(old(Slice(id)), NetOf(roster, old(lastShardWallet)), S.DraftResult(wallet, tokens))
      ensures forall other | other != id :: Slice(other) == old(Slice(other))
    {
      hide NetOf, S.DispatchShard;
      if id !in draftAssignments || draftAssignments[id] != wallet { return; }
      draftAssignments := draftAssignments - {id};
      if tokens == [] { return; }
      if id !in pipelines { return; }
      var p := pipelines[id];
      var batch: seq<u32> := [];
      if p.carry.Some? {
        batch := batch + [p.carry.value];
      }
      batch := batch + tokens;
      assert batch == Round.CarrySeq(p.carry) + tokens;
      pipelines := pipelines[id := p.(round := p.round + 1, phase := S.Verifying(0, S.TokenIds(batch), tokens))];
      DispatchShardStep(id, roster);
    }

    /** Redispatches every request for which nothing is in flight: first the stalled shard steps, then the drafts. */
    method RetryStalledTick(roster: Roster)
      modifies this
      ensures forall id :: Retried(old(Slice(id)), roster, Slice(id))
    {
      var lasts := RetryShardSteps(roster);
      label drafts:
      RetryDrafts(roster);
      forall id ensures Retried(old(Slice(id)), roster, Slice(id)) {
        TickInTwoPasses(old(Slice(id)), old@drafts(Slice(id)), Slice(id), roster, if id in lasts then lasts[id]
                        else None);
      }
    }

    method RetryShardSteps(roster: Roster) returns (ghost lasts: map<RequestId, Option<Wallet>>)
      modifies this
      ensures forall id ::
        Slice(id) == if old(Slice(id)).shardAssignment.None?
                     then S.DispatchShard(old(Slice(id)), NetOf(roster, if id in lasts then lasts[id] else None))
                     else old(Slice(id))
    {
      hide NextAfter;
      var stalled := set id | id in pipelines && (pipelines[id].phase.PromptProcessing?
                                                  || pipelines[id].phase.Verifying?) && id !in shardAssignments;
      lasts := map[];
      ghost var all := stalled;
      while stalled != {}
        invariant stalled <= all && lasts.Keys == all - stalled
        invariant forall id :: (Slice(id) ==
          if id in lasts then S.DispatchShard(old(Slice(id)), NetOf(roster, lasts[id])) else old(Slice(id)))
        decreases |stalled|
      {
        var id :| id in stalled;
        lasts := lasts[id := lastShardWallet];
        DispatchShardStep(id, roster);
        stalled := stalled - {id};
      }
    }

    method RetryDrafts(roster: Roster)
      modifies this
      ensures forall id :: (Slice(id) ==
        if old(Slice(id)).draftAssignment.None? then S.DispatchDraft(old(Slice(id)), NetOf(roster, None))
        else old(Slice(id)))
    {
      var waiting := set id | id in pipelines && pipelines[id].phase.AwaitingDraft? && id !in draftAssignments;
      ghost var all := waiting;
      ghost var last := lastShardWallet;
      while waiting != {}
        invariant waiting <= all && lastShardWallet == last
        invariant forall id :: (Slice(id) ==
          if id in all - waiting then S.DispatchDraft(old(Slice(id)), NetOf(roster, last)) else old(Slice(id)))
        decreases |waiting|
      {
        var id :| id in waiting;
        DispatchDraft(id, roster);
        waiting := waiting - {id};
      }
      hide S.DispatchDraft;
      forall id ensures S.DispatchDraft(old(Slice(id)), NetOf(roster, None)) ==
        S.DispatchDraft(old(Slice(id)), NetOf(roster, last)) {
        DraftIgnoresTurn(old(Slice(id)), roster, last);
      }
    }

    method OnDisconnect(wallet: Wallet)
      modifies this
      ensures forall id :: Slice(id) == S.OnDisconnect(old(Slice(id)), wallet)
    {
      DropHandlers(wallet);
      ReleaseWallet(wallet);
    }

    method DropHandlers(wallet: Wallet)
      modifies this`counting
      ensures forall id :: Slice(id) == old(Slice(id)).(counting := old(Slice(id)).counting - {wallet})
    {
      counting := map id | id in counting :: counting[id] - {wallet};
      assert forall id :: CountingOf(id) == old(CountingOf(id)) - {wallet};
    }

    method ReleaseAssignments(wallet: Wallet)
      modifies this`shardAssignments, this`draftAssignments
      ensures forall id :: Slice(id) == S.Unassigned(old(Slice(id)), wallet)
    {
      shardAssignments := map id | id in shardAssignments && shardAssignments[id].wallet != wallet ::
        shardAssignments[id];
      draftAssignments := map id | id in draftAssignments && draftAssignments[id] != wallet :: draftAssignments[id];
    }

    method ReleaseWallet(wallet: Wallet)
      modifies this`shardAssignments, this`draftAssignments, this`pipelines
      ensures forall id :: Slice(id) == S.Released(old(Slice(id)), wallet)
    {
      ReleaseAssignments(wallet);
      var lost := set id | id in pipelines && pipelines[id].draftWallet == Some(wallet);
      pipelines := pipelines - lost;
    }
  }
}
