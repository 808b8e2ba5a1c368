/** The shard engine: the maps it keeps for all requests, and the handlers that update them.

    Every handler is proved to do to its own request exactly what the session machine says, and to leave
    every other request alone. A handler is split wherever it waits. */
module ShardEngines {
  import opened Common
  import opened Attribution
  import opened Rosters
  import S = ShardSession

  function NetOf(roster: Roster, last: Option<Wallet>): S.Net {
    S.Net(roster.PickNext(last), roster.Connected())
  }

  /** A retry tick took one request from `before` to `after`, wherever the round-robin stood at that moment. */
  ghost predicate Retried(before: S.Session, roster: Roster, resolved: bool, after: S.Session) {
    exists last :: after == S.Step(before, NetOf(roster, last), S.RetryTick(resolved, false))
  }

  lemma NothingToDispatch(s: S.Session, net: S.Net)
    requires s.pipeline.None?
    ensures S.DispatchCurrent(s, net) == s
  {
  }

  lemma AssignOverwrites(s: S.Session, before: Option<S.Pipeline>, p: S.Pipeline, w: Wallet, step: Option<nat>)
    ensures S.Assign(s.(pipeline := before), p, w, step) == S.Assign(s, p, w, step)
  {
  }

  class ShardEngine {
    var pipelines: map<RequestId, S.Pipeline>
    var assignments: map<RequestId, S.Assignment>
    /** The suspended handlers of each request, by the wallet in whose session they run. */
    var handlers: map<RequestId, map<Wallet, S.Handler>>
    var lastAssigned: Option<Wallet>
    /** What has been submitted on chain, combined, and persisted for each request, in order. */
    var submits: map<RequestId, seq<S.Submit>>
    var trails: map<RequestId, seq<S.Applied>>
    var responses: map<RequestId, seq<S.Response>>

    function HandlersOf(id: RequestId): map<Wallet, S.Handler>
      reads this
    {
      if id in handlers then handlers[id] else map[]
    }

    /** The part of the engine that belongs to one request. */
    function Slice(id: RequestId): S.Session
      reads this
    {
      S.Session(if id in pipelines then Some(pipelines[id]) else None,
                if id in assignments then Some(assignments[id]) else None,
                HandlersOf(id),
                if id in submits then submits[id] else [],
                if id in trails then trails[id] else [],
                if id in responses then responses[id] else [])
    }

    constructor ()
      ensures forall id :: Slice(id) == S.Session(None, None, map[], [], [], [])
    {
      pipelines, assignments, handlers, lastAssigned := map[], map[], map[], None;
      submits, trails, responses := map[], map[], map[];
    }

    method StartPipeline(id: RequestId, shards: seq<S.Shard>, numLayers: nat, groups: map<(nat, nat), seq<nat>>,
                         maxTokens: u32, promptHex: string, roster: Roster)
      modifies this
      ensures Slice(id) == S.DispatchCurrent(
                old(Slice(id)).(pipeline := Some(S.Start(shards, numLayers, groups, maxTokens, promptHex))),
                  NetOf(roster, old(lastAssigned)))
      ensures forall other | other != id :: Slice(other) == old(Slice(other))
    {
      pipelines := pipelines[id := S.Pipeline(shards, numLayers, groups, maxTokens, 0, 0, S.Prompt(promptHex), [],
                                              map[], None, [])];
      DispatchCurrent(id, roster);
    }

    /** Sends the current step: to the pinned wallet of a walk in progress, otherwise to the next miner in turn. */
    method DispatchCurrent(id: RequestId, roster: Roster)
      modifies this
      ensures Slice(id) == S.DispatchCurrent(old(Slice(id)), NetOf(roster, old(lastAssigned)))
      ensures forall other | other != id :: Slice(other) == old(Slice(other))
    {
      hide S.DispatchCurrent;
      if id !in pipelines {
        NothingToDispatch(Slice(id), NetOf(roster, lastAssigned));
      } else if pipelines[id].walk.Some? {
        DispatchPinned(id, roster);
      } else {
        DispatchNext(id, roster);
      }
    }

    /** A walk whose wallet is gone cannot be continued by anybody else, and its request is dropped. */
    method DispatchPinned(id: RequestId, roster: Roster)
      requires id in pipelines && pipelines[id].walk.Some?
      modifies this
      ensures Slice(id) == S.DispatchCurrent(old(Slice(id)), NetOf(roster, old(lastAssigned)))
      ensures forall other | other != id :: Slice(other) == old(Slice(other))
    {
      hide S.Assign;
      var walk := pipelines[id].walk.value;
      if walk.wallet !in roster.order {
        pipelines := pipelines - {id};
        assignments := assignments - {id};
      } else {
        Assign(id, walk.wallet, Some(walk.layer));
      }
    }

    /** The first step of a shard with experts pins the wallet it goes to. */
    method DispatchNext(id: RequestId, roster: Roster)
      requires id in pipelines && pipelines[id].walk.None?
      modifies this
      ensures Slice(id) == S.DispatchCurrent(old(Slice(id)), NetOf(roster, old(lastAssigned)))
      ensures forall other | other != id :: Slice(other) == old(Slice(other))
    {
      hide S.Assign, NextAfter;
      var next := roster.PickNext(lastAssigned);
      if next.None? { return; }
      lastAssigned := next;
      var p := pipelines[id];
      var step := if p.ExpertGroup().Some? then Some(p.Current().layerStart) else None;
      if step.Some? {
        pipelines := pipelines[id := p.(walk := Some(S.Walk(step.value, next.value)))];
      }
      if next.value in roster.order {
        AssignOverwrites(old(Slice(id)), Some(pipelines[id]), pipelines[id], next.value, step);
        Assign(id, next.value, step);
      }
    }

    method Assign(id: RequestId, wallet: Wallet, step: Option<nat>)
      requires id in pipelines
      modifies this`assignments, this`pipelines
      ensures Slice(id) == S.Assign(old(Slice(id)), old(pipelines[id]), wallet, step)
      ensures forall other | other != id :: Slice(other) == old(Slice(other))
    {
      var p := pipelines[id];
      var shard := p.Current();
      assignments := assignments[id := S.Assignment(wallet, shard.index, p.tokenIndex, step)];
      pipelines := pipelines[id := p.(dispatchLog :=
        p.dispatchLog + [S.Dispatch(shard.index, shard.layerStart, shard.layerEnd, step, wallet, p.tokenIndex)])];
    }

    method Suspend(id: RequestId, wallet: Wallet, h: S.Handler)
      modifies this`handlers
      ensures Slice(id) == old(Slice(id)).(handlers := old(Slice(id)).handlers[wallet := h])
      ensures forall other | other != id :: Slice(other) == old(Slice(other))
    {
      handlers := handlers[id := HandlersOf(id)[wallet := h]];
    }

    method Resume(id: RequestId, wallet: Wallet)
      modifies this`handlers
      ensures Slice(id) == S.Resumed(old(Slice(id)), wallet)
      ensures forall other | other != id :: Slice(other) == old(Slice(other))
    {
      handlers := handlers[id := HandlersOf(id) - {wallet}];
    }

    /** Accepts the reply of the assigned miner for exactly the assigned step; then the model's source is looked up. */
    method HandleShardResult(id: RequestId, wallet: Wallet, reply: S.Reply) returns (accepted: bool)
      modifies this
      ensures accepted <==> S.Accepts(old(Slice(id)), wallet, reply)
      ensures Slice(id) == S.OnShardResult(old(Slice(id)), wallet, reply)
      ensures lastAssigned == old(lastAssigned)
      ensures forall other | other != id :: Slice(other) == old(Slice(other))
    {
      if id !in assignments { return false; }
      var a := assignments[id];
      if a != S.Assignment(wallet, reply.shardIndex, reply.tokenIndex, reply.step) { return false; }
      accepted := true;
      assignments := assignments - {id};
      if id in pipelines {
        Suspend(id, wallet, S.Looking(reply));
      }
    }

    /** With the source at hand the reply is credited and routed. */
    method ResumeLookup(id: RequestId, wallet: Wallet, resolved: bool, roster: Roster)
      modifies this
      ensures Slice(id) == S.OnSourceFound(old(Slice(id)), NetOf(roster, old(lastAssigned)), wallet, resolved)
      ensures forall other | other != id :: Slice(other) == old(Slice(other))
    {
      hide S.Route;
      var waiting := HandlersOf(id);
      if wallet !in waiting || !waiting[wallet].Looking? { return; }
      Resume(id, wallet);
      if id !in pipelines || !resolved { return; }
      var p := pipelines[id];
      pipelines := pipelines[id := p.(contributions := Bump(p.contributions, wallet))];
      Route(id, wallet, waiting[wallet].reply, roster);
    }

    /** Interior layers are fanned out at once; anything else first waits for its submission on the last token. */
    method Route(id: RequestId, wallet: Wallet, reply: S.Reply, roster: Roster)
      requires id in pipelines
      modifies this
      ensures Slice(id) == S.Route(old(Slice(id)), NetOf(roster, old(lastAssigned)), wallet, reply)
      ensures forall other | other != id :: Slice(other) == old(Slice(other))
    {
      hide S.Settle, S.BeginFanout;
      var p := pipelines[id];
      if reply.step.Some? && p.StaysOnShard(reply.step.value) {
        if p.ExpertGroup().None? {
          pipelines := pipelines - {id};
        } else {
          BeginFanout(id, wallet, reply, true, reply.step.value);
        }
      } else if p.IsLastToken() {
        Suspend(id, wallet, S.Submitting(reply));
      } else {
        Settle(id, wallet, reply, roster);
      }
    }

    /** With the submission made the reply is settled; without it the request stays where it is. */
    method ResumeSubmit(id: RequestId, wallet: Wallet, submitted: bool, roster: Roster)
      modifies this
      ensures Slice(id) == S.OnSubmitDone(old(Slice(id)), NetOf(roster, old(lastAssigned)), wallet, submitted)
      ensures forall other | other != id :: Slice(other) == old(Slice(other))
    {
      hide S.Settle;
      var waiting := HandlersOf(id);
      if wallet !in waiting || !waiting[wallet].Submitting? { return; }
      Resume(id, wallet);
      if !submitted { return; }
      RecordSubmit(id, waiting[wallet].reply);
      if id in pipelines {
        Settle(id, wallet, waiting[wallet].reply, roster);
      }
    }

    method RecordSubmit(id: RequestId, reply: S.Reply)
      modifies this`submits
      ensures Slice(id) == old(Slice(id)).(submits := old(Slice(id)).submits
                                                    + [S.Submit(reply.shardIndex, reply.tokenIndex, reply.outputHash)])
      ensures forall other | other != id :: Slice(other) == old(Slice(other))
    {
      submits := submits[id := (if id in submits then submits[id] else [])
        + [S.Submit(reply.shardIndex, reply.tokenIndex, reply.outputHash)]];
    }

    /** Decodes, fans out the shard's last layer, or moves on to the next shard. */
    method Settle(id: RequestId, wallet: Wallet, reply: S.Reply, roster: Roster)
      requires id in pipelines
      modifies this
      ensures Slice(id) == S.Settle(old(Slice(id)), NetOf(roster, old(lastAssigned)), wallet, reply)
      ensures forall other | other != id :: Slice(other) == old(Slice(other))
    {
      hide S.Decode, S.Handoff, S.BeginFanout;
      var p := pipelines[id];
      if p.pos + 1 == |p.shards| {
        CommitToken(id, reply, roster);
      } else if p.ExpertGroup().Some? {
        var last := if p.Current().layerEnd == 0 then 0 else p.Current().layerEnd - 1;
        BeginFanout(id, wallet, reply, false, if reply.step.Some? then reply.step.value else last);
      } else {
        AdvanceShard(id, reply.output.tensor, roster);
      }
    }

    method AdvanceShard(id: RequestId, t: S.Tensor, roster: Roster)
      requires id in pipelines
      modifies this
      ensures Slice(id) == S.Handoff(old(Slice(id)), NetOf(roster, old(lastAssigned)), t)
      ensures forall other | other != id :: Slice(other) == old(Slice(other))
    {
      var p := pipelines[id];
      pipelines := pipelines[id := p.(pos := p.pos + 1, input := S.Hidden(t), walk := None)];
      DispatchCurrent(id, roster);
    }

    /** The last shard's reply ends the token step, and on the last token the request. */
    method CommitToken(id: RequestId, reply: S.Reply, roster: Roster)
      requires id in pipelines
      modifies this
      ensures Slice(id) == S.Decode(old(Slice(id)), NetOf(roster, old(lastAssigned)), reply)
      ensures forall other | other != id :: Slice(other) == old(Slice(other))
    {
      hide S.DispatchCurrent, S.Finalize;
      var p := pipelines[id];
      if reply.output.nextToken.None? {
        pipelines := pipelines - {id};
        return;
      }
      var token := reply.output.nextToken.value;
      var last := p.IsLastToken();
      p := p.(generated := p.generated + [token]);
      pipelines := pipelines[id := p];
      if last {
        FinalizePipeline(id);
        return;
      }
      StartNextToken(id, token, roster);
    }

    /** Back to the first shard, fed the token just generated. */
    method StartNextToken(id: RequestId, token: u32, roster: Roster)
      requires id in pipelines
      modifies this
      ensures var p := old(pipelines[id]);
              Slice(id) == S.DispatchCurrent(
                old(Slice(id)).(pipeline := Some(p.(pos := 0, tokenIndex := p.tokenIndex + 1,
                                                    input := S.NextToken(token), walk := None))),
                NetOf(roster, old(lastAssigned)))
      ensures forall other | other != id :: Slice(other) == old(Slice(other))
    {
      var p := pipelines[id];
      pipelines := pipelines[id := p.(pos := 0, tokenIndex := p.tokenIndex + 1, input := S.NextToken(token),
                                      walk := None)];
      DispatchCurrent(id, roster);
    }

    method FinalizePipeline(id: RequestId)
      requires id in pipelines
      modifies this
      ensures Slice(id) == S.Finalize(old(Slice(id)))
      ensures lastAssigned == old(lastAssigned)
      ensures forall other | other != id :: Slice(other) == old(Slice(other))
    {
      var p := pipelines[id];
      pipelines := pipelines - {id};
      var winner := SelectWinningWallet(p.contributions);
      if winner.None? { return; }
      responses := responses[id := (if id in responses then responses[id] else [])
        + [S.Response(winner.value, p.generated)]];
    }

    /** Every layer must list an expert, and every listed expert must be registered for the shard's range. */
    method CheckSelections(router: seq<seq<S.Choice>>, registered: seq<nat>) returns (ok: bool)
      ensures ok <==> !S.Malformed(router) && !S.Unregistered(router, registered)
    {
      if router == [] { return false; }
      for i := 0 to |router|
        invariant forall k | 0 <= k < i :: router[k] != []
      {
        if router[i] == [] { return false; }
      }
      for i := 0 to |router|
        invariant forall k, j | 0 <= k < i && 0 <= j < |router[k]| :: router[k][j].expertId in registered
      {
        for j := 0 to |router[i]|
          invariant forall l | 0 <= l < j :: router[i][l].expertId in registered
        {
          if router[i][j].expertId !in registered { return false; }
        }
      }
      ok := true;
    }

    /** Validates the router's choice; then the experts' memory is estimated. */
    method BeginFanout(id: RequestId, wallet: Wallet, reply: S.Reply, interior: bool, layer: nat)
      requires id in pipelines && pipelines[id].ExpertGroup().Some?
      modifies this
      ensures Slice(id) == S.BeginFanout(old(Slice(id)), wallet, reply, interior, layer)
      ensures lastAssigned == old(lastAssigned)
      ensures forall other | other != id :: Slice(other) == old(Slice(other))
    {
      var p := pipelines[id];
      if reply.output.router.None? { return; }
      var router := reply.output.router.value;
      var ok := CheckSelections(router, p.ExpertGroup().value);
      if !ok || !S.IsF32Hex(reply.output.tensor.dataHex) {
        pipelines := pipelines - {id};
        return;
      }
      var shard := p.Current();
      Suspend(id, wallet, S.Sizing(S.Fanout(interior, layer, shard.layerStart, shard.layerEnd, reply.shardIndex,
                                            p.tokenIndex, reply.output.tensor, router[|router| - 1])));
    }

    /** Marks the request busy and dispatches the experts. */
    method StartFanout(id: RequestId, wallet: Wallet)
      modifies this
      ensures Slice(id) == S.OnSized(old(Slice(id)), wallet)
      ensures lastAssigned == old(lastAssigned)
      ensures forall other | other != id :: Slice(other) == old(Slice(other))
    {
      var waiting := HandlersOf(id);
      if wallet !in waiting || !waiting[wallet].Sizing? { return; }
      var f := waiting[wallet].fanout;
      Suspend(id, wallet, S.Joining(f));
      if id in pipelines && pipelines[id].walk.Some? {
        assignments := assignments[id :=
          S.Assignment(pipelines[id].walk.value.wallet, f.shardIndex, f.tokenIndex, Some(f.layer))];
      }
    }

    /** Resumes the handler when the fan-out ended: with the combined output, or without one. */
    method FinishFanout(id: RequestId, wallet: Wallet, combined: Option<S.Tensor>, roster: Roster)
      modifies this
      ensures Slice(id) == S.OnFanoutDone(old(Slice(id)), NetOf(roster, old(lastAssigned)), wallet, combined)
      ensures forall other | other != id :: Slice(other) == old(Slice(other))
    {
      hide S.ApplyJoin;
      var waiting := HandlersOf(id);
      if wallet !in waiting || !waiting[wallet].Joining? { return; }
      var f := waiting[wallet].fanout;
      Resume(id, wallet);
      if combined.None? || f.layer < f.layerStart || f.layer >= f.layerEnd {
        assignments := assignments - {id};
      } else if id in pipelines {
        ApplyCombined(id, wallet, f, combined.value, roster);
      }
    }

    method ApplyCombined(id: RequestId, wallet: Wallet, f: S.Fanout, t: S.Tensor, roster: Roster)
      requires id in pipelines
      modifies this
      ensures Slice(id) == S.ApplyJoin(old(Slice(id)), NetOf(roster, old(lastAssigned)), wallet, f, t)
      ensures forall other | other != id :: Slice(other) == old(Slice(other))
    {
      hide S.DispatchCurrent;
      var p := pipelines[id];
      trails := trails[id := (if id in trails then trails[id] else [])
        + [S.Applied(p.tokenIndex, p.pos, f.layer, wallet)]];
      if f.interior {
        ResumeWalk(id, f.layer + 1, t, roster);
      } else {
        AdvanceShard(id, t, roster);
      }
    }

    /** Feeds a layer's combined output back to the shard for the next layer of its walk. */
    method ResumeWalk(id: RequestId, layer: nat, t: S.Tensor, roster: Roster)
      requires id in pipelines
      modifies this
      ensures var p := old(pipelines[id]);
              var walk := if p.walk.Some? then Some(S.Walk(layer, p.walk.value.wallet)) else None;
              Slice(id) == S.DispatchCurrent(old(Slice(id)).(pipeline := Some(p.(input := S.Hidden(t), walk := walk))),
                                             NetOf(roster, old(lastAssigned)))
      ensures forall other | other != id :: Slice(other) == old(Slice(other))
    {
      var p := pipelines[id].(input := S.Hidden(t));
      if p.walk.Some? {
        p := p.(walk := Some(S.Walk(layer, p.walk.value.wallet)));
      }
      pipelines := pipelines[id := p];
      DispatchCurrent(id, roster);
    }

    /** Redispatches every request with a pipeline and no assignment whose model source still resolves. */
    method RetryStalledPipelines(roster: Roster, resolvable: set<RequestId>)
      modifies this
      ensures forall id :: Retried(old(Slice(id)), roster, id in resolvable, Slice(id))
    {
      var stalled := set id | id in pipelines && id !in assignments;
      ghost var all := stalled;
      ghost var lasts: map<RequestId, Option<Wallet>> := map[];
      while stalled != {}
        invariant stalled <= all && lasts.Keys == all - stalled
        invariant forall id :: (Slice(id) ==
          if id in lasts && id in resolvable then S.DispatchCurrent(old(Slice(id)), NetOf(roster, lasts[id]))
          else old(Slice(id)))
        decreases |stalled|
      {
        var id :| id in stalled;
        lasts := lasts[id := lastAssigned];
        if id in resolvable {
          DispatchCurrent(id, roster);
        }
        stalled := stalled - {id};
      }
      forall id ensures Retried(old(Slice(id)), roster, id in resolvable, Slice(id)) {
        var last := if id in lasts then lasts[id] else None;
        assert Slice(id) == S.Step(old(Slice(id)), NetOf(roster, last), S.RetryTick(id in resolvable, false));
      }
    }

    /** The same for one request that was found stalled earlier: its source has been looked up meanwhile, and whatever
        happened to it since is not looked at again. */
    method Redispatch(id: RequestId, resolved: bool, roster: Roster)
      modifies this
      ensures Slice(id) == S.OnRetryTick(old(Slice(id)), NetOf(roster, old(lastAssigned)), resolved, true)
      ensures forall other | other != id :: Slice(other) == old(Slice(other))
    {
      if resolved && id in pipelines {
        DispatchCurrent(id, roster);
      }
    }

    /** Ends a wallet's session: its suspended handlers are dropped and its assignments released. */
    method OnDisconnect(wallet: Wallet)
      modifies this
      ensures forall id :: Slice(id) == S.OnDisconnect(old(Slice(id)), wallet)
    {
      handlers := map id | id in handlers :: handlers[id] - {wallet};
      assignments := map id | id in assignments && assignments[id].wallet != wallet :: assignments[id];
    }
  }
}
