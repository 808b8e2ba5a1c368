/** From the engine to the runs of a single request: whatever calls the engine receives, for whatever requests, the
    part of it that belongs to one request went through a run of the session machine. */
module ShardEngineRuns {
  import opened Common
  import opened Rosters
  import opened ShardEngines
  import S = ShardSession
  import D = ShardDecoding
  import R = ShardRuns

  datatype Call =
    | Start(id: RequestId, shards: seq<S.Shard>, numLayers: nat, groups: map<(nat, nat), seq<nat>>, maxTokens: u32,
            promptHex: string, roster: Roster)
    | Result(id: RequestId, wallet: Wallet, reply: S.Reply)
    | Found(id: RequestId, wallet: Wallet, resolved: bool, roster: Roster)
    | Submitted(id: RequestId, wallet: Wallet, submitted: bool, roster: Roster)
    | Sized(id: RequestId, wallet: Wallet)
    | Joined(id: RequestId, wallet: Wallet, combined: Option<S.Tensor>, roster: Roster)
    | LateTick(id: RequestId, resolved: bool, roster: Roster)
    | Tick(roster: Roster, resolvable: set<RequestId>)
    | Leave(wallet: Wallet)

  /** What the registry answered when the request was started, and at each event it has seen since. */
  datatype Log = Log(net: S.Net, run: seq<R.Stimulus>)

  const EMPTY := S.Session(None, None, map[], [], [], [])

  /** What a call is to one request. */
  function EventFor(id: RequestId, c: Call): Option<S.Event> {
    match c
    case Start(_, _, _, _, _, _, _) => None
    case Result(at, wallet, reply) => if at == id then Some(S.ShardResult(wallet, reply)) else None
    case Found(at, wallet, resolved, _) => if at == id then Some(S.SourceFound(wallet, resolved)) else None
    case Submitted(at, wallet, submitted, _) => if at == id then Some(S.SubmitDone(wallet, submitted)) else None
    case Sized(at, wallet) => if at == id then Some(S.Sized(wallet)) else None
    case Joined(at, wallet, combined, _) => if at == id then Some(S.FanoutDone(wallet, combined)) else None
    case LateTick(at, resolved, _) => if at == id then Some(S.RetryTick(resolved, true)) else None
    case Tick(_, resolvable) => Some(S.RetryTick(id in resolvable, false))
    case Leave(wallet) => Some(S.Disconnect(wallet))
  }

  predicate Starts(id: RequestId, c: Call) {
    c.Start? && c.id == id
  }

  /** The calls that start the request. */
  function StartsOf(id: RequestId, calls: seq<Call>): seq<Call> {
    if calls == [] then []
    else
      var last := calls[|calls| - 1];
      StartsOf(id, calls[..|calls| - 1]) + if Starts(id, last) then [last] else []
  }

  /** What the request sees after it was started. */
  function EventsSince(id: RequestId, calls: seq<Call>): seq<S.Event> {
    if calls == [] || StartsOf(id, calls[..|calls| - 1]) == [] then []
    else
      var e := EventFor(id, calls[|calls| - 1]);
      EventsSince(id, calls[..|calls| - 1]) + if e.Some? then [e.value] else []
  }

  function EventsOf(run: seq<R.Stimulus>): seq<S.Event> {
    seq(|run|, i requires 0 <= i < |run| => run[i].event)
  }

  function Begun(c: Call, net: S.Net): S.Session
    requires c.Start?
  {
    S.DispatchCurrent(
      EMPTY.(pipeline := Some(S.Start(c.shards, c.numLayers, c.groups, c.maxTokens, c.promptHex))), net)
  }

  ghost function Reached(c: Call, log: Log): S.Session
    requires c.Start?
  {
    R.Follow(R.History(Begun(c, log.net), R.Tally([], 0, 0, [])), log.run).s
  }

  /** Where one request stands after the calls: untouched before it is started, then wherever a run of the session
      machine on the events it saw leads. Says nothing of a request id that was used twice. */
  ghost predicate Follows(id: RequestId, calls: seq<Call>, logs: map<RequestId, Log>, s: S.Session) {
    var starts := StartsOf(id, calls);
    && (starts == [] ==> id !in logs && s == EMPTY)
    && (|starts| == 1 ==> starts[0].Start? && id in logs && EventsOf(logs[id].run) == EventsSince(id, calls)
                          && s == Reached(starts[0], logs[id]))
  }

  lemma {:induction false} FollowGrows(h: R.History, run: seq<R.Stimulus>, x: R.Stimulus)
    ensures R.Follow(h, run + [x]).s == S.Step(R.Follow(h, run).s, x.net, x.event)
    decreases |run|
  {
    if run == [] {
      assert [] + [x] == [x] && [x][1..] == [];
    } else {
      var s2 := S.Step(h.s, run[0].net, run[0].event);
      FollowGrows(R.History(s2, R.Count(h.tally, h.s, run[0].event, s2)), run[1..], x);
      assert (run + [x])[1..] == run[1..] + [x];
    }
  }

  function Longer(log: Log, net: S.Net, e: S.Event): Log {
    log.(run := log.run + [R.Stimulus(net, e)])
  }

  /** A request that has not been started takes no notice of anything. */
  lemma NothingHappensToNothing(net: S.Net, e: S.Event)
    ensures S.Step(EMPTY, net, e) == EMPTY
  {
  }

  lemma StartFollows(id: RequestId, calls: seq<Call>, c: Call, logs: map<RequestId, Log>, s: S.Session,
                     logs2: map<RequestId, Log>, net: S.Net)
    requires Follows(id, calls, logs, s) && Starts(id, c) && logs2 == logs[id := Log(net, [])]
    ensures Follows(id, calls + [c], logs2,
                    S.DispatchCurrent(s.(pipeline := Some(S.Start(c.shards, c.numLayers, c.groups, c.maxTokens,
                                                                  c.promptHex))), net))
  {
    assert (calls + [c])[..|calls|] == calls;
  }

  lemma EventFollows(id: RequestId, calls: seq<Call>, c: Call, logs: map<RequestId, Log>, s: S.Session,
                     logs2: map<RequestId, Log>, net: S.Net)
    requires Follows(id, calls, logs, s) && EventFor(id, c).Some?
    requires id in logs2 <==> id in logs
    requires id in logs ==> logs2[id] == Longer(logs[id], net, EventFor(id, c).value)
    ensures Follows(id, calls + [c], logs2, S.Step(s, net, EventFor(id, c).value))
  {
    hide S.Step;
    assert (calls + [c])[..|calls|] == calls;
    var e := EventFor(id, c).value;
    NothingHappensToNothing(net, e);
    if |StartsOf(id, calls)| == 1 {
      var start := StartsOf(id, calls)[0];
      FollowGrows(R.History(Begun(start, logs[id].net), R.Tally([], 0, 0, [])), logs[id].run, R.Stimulus(net, e));
      assert EventsOf(logs[id].run + [R.Stimulus(net, e)]) == EventsOf(logs[id].run) + [e];
    }
  }

  lemma OthersFollow(id: RequestId, calls: seq<Call>, c: Call, logs: map<RequestId, Log>, s: S.Session,
                     logs2: map<RequestId, Log>)
    requires Follows(id, calls, logs, s) && EventFor(id, c).None? && !Starts(id, c)
    requires id in logs2 <==> id in logs
    requires id in logs ==> logs2[id] == logs[id]
    ensures Follows(id, calls + [c], logs2, s)
  {
    assert (calls + [c])[..|calls|] == calls;
  }

  lemma DisconnectIgnoresNet(s: S.Session, net: S.Net, wallet: Wallet)
    ensures S.Step(s, net, S.Disconnect(wallet)) == S.OnDisconnect(s, wallet)
  {
  }

  /** What the registry answered when a tick reached the request. */
  ghost function NetAt(before: S.Session, roster: Roster, resolved: bool, after: S.Session): (net: S.Net)
    requires Retried(before, roster, resolved, after)
    ensures after == S.Step(before, net, S.RetryTick(resolved, false))
  {
    var last :| after == S.Step(before, NetOf(roster, last), S.RetryTick(resolved, false));
    NetOf(roster, last)
  }

  function OneSaw(id: RequestId, logs: map<RequestId, Log>, net: S.Net, e: S.Event): map<RequestId, Log> {
    if id in logs then logs[id := Longer(logs[id], net, e)] else logs
  }

  /** The calls that concern one request that may have been started. */
  method ServeOne(engine: ShardEngine, c: Call, ghost calls: seq<Call>, ghost logs: map<RequestId, Log>)
    returns (ghost logs2: map<RequestId, Log>)
    requires !c.Start? && !c.Tick? && !c.Leave?
    requires forall id :: Follows(id, calls, logs, engine.Slice(id))
    modifies engine
    ensures forall id :: Follows(id, calls + [c], logs2, engine.Slice(id))
  {
    hide Follows, NetOf, S.OnShardResult, S.OnSourceFound, S.OnSubmitDone, S.OnSized, S.OnFanoutDone, S.OnRetryTick;
    ghost var net := if c.Result? || c.Sized? then S.Net(None, {}) else NetOf(c.roster, engine.lastAssigned);
    match c {
      case Result(id, wallet, reply) => var _ := engine.HandleShardResult(id, wallet, reply);
      case Found(id, wallet, resolved, roster) => engine.ResumeLookup(id, wallet, resolved, roster);
      case Submitted(id, wallet, submitted, roster) => engine.ResumeSubmit(id, wallet, submitted, roster);
      case Sized(id, wallet) => engine.StartFanout(id, wallet);
      case Joined(id, wallet, combined, roster) => engine.FinishFanout(id, wallet, combined, roster);
      case LateTick(id, resolved, roster) => engine.Redispatch(id, resolved, roster);
    }
    assert engine.Slice(c.id) == S.Step(old(engine.Slice(c.id)), net, EventFor(c.id, c).value);
    hide S.Step;
    logs2 := OneSaw(c.id, logs, net, EventFor(c.id, c).value);
    forall at ensures Follows(at, calls + [c], logs2, engine.Slice(at)) {
      if at == c.id { EventFollows(at, calls, c, logs, old(engine.Slice(at)), logs2, net); }
      else { OthersFollow(at, calls, c, logs, old(engine.Slice(at)), logs2); }
    }
  }

  method Serve(engine: ShardEngine, c: Call, ghost calls: seq<Call>, ghost logs: map<RequestId, Log>)
    returns (ghost logs2: map<RequestId, Log>)
    requires forall id :: Follows(id, calls, logs, engine.Slice(id))
    modifies engine
    ensures forall id :: Follows(id, calls + [c], logs2, engine.Slice(id))
  {
    hide Follows, S.Step, S.DispatchCurrent, NetOf;
    match c
    case Start(id, shards, numLayers, groups, maxTokens, promptHex, roster) =>
      ghost var net := NetOf(roster, engine.lastAssigned);
      engine.StartPipeline(id, shards, numLayers, groups, maxTokens, promptHex, roster);
      logs2 := logs[id := Log(net, [])];
      forall at ensures Follows(at, calls + [c], logs2, engine.Slice(at)) {
        if at == id { StartFollows(at, calls, c, logs, old(engine.Slice(at)), logs2, net); }
        else { OthersFollow(at, calls, c, logs, old(engine.Slice(at)), logs2); }
      }
    case Tick(roster, resolvable) =>
      engine.RetryStalledPipelines(roster, resolvable);
      logs2 := map id | id in logs ::
        Longer(logs[id], NetAt(old(engine.Slice(id)), roster, id in resolvable, engine.Slice(id)),
               S.RetryTick(id in resolvable, false));
      forall at ensures Follows(at, calls + [c], logs2, engine.Slice(at)) {
        var net := NetAt(old(engine.Slice(at)), roster, at in resolvable, engine.Slice(at));
        EventFollows(at, calls, c, logs, old(engine.Slice(at)), logs2, net);
      }
    case Leave(wallet) =>
      engine.OnDisconnect(wallet);
      ghost var net := S.Net(None, {});
      logs2 := map id | id in logs :: Longer(logs[id], net, S.Disconnect(wallet));
      forall at ensures Follows(at, calls + [c], logs2, engine.Slice(at)) {
        DisconnectIgnoresNet(old(engine.Slice(at)), net, wallet);
        EventFollows(at, calls, c, logs, old(engine.Slice(at)), logs2, net);
      }
    case _ =>
      logs2 := ServeOne(engine, c, calls, logs);
  }

  /** Serves any calls in any order. Whatever else the engine was doing meanwhile, a request that was started once
      has gone through a run of the session machine on exactly the events it saw. */
  method ServeAll(calls: seq<Call>) returns (engine: ShardEngine, ghost logs: map<RequestId, Log>)
    ensures fresh(engine)
    ensures forall id :: Follows(id, calls, logs, engine.Slice(id))
  {
    engine := new ShardEngine();
    logs := map[];
    for i := 0 to |calls|
      invariant fresh(engine)
      invariant forall id :: Follows(id, calls[..i], logs, engine.Slice(id))
    {
      logs := Serve(engine, calls[i], calls[..i], logs);
      assert calls[..i + 1] == calls[..i] + [calls[i]];
    }
    assert calls[..|calls|] == calls;
  }

  /** The call starts the request of this model. */
  predicate StartsModel(c: Call, m: D.Model) {
    c.Start? && c.shards == m.shards && c.numLayers == m.numLayers && c.groups == m.groups && c.maxTokens == m.maxTokens
    && c.promptHex == m.promptHex
  }

  /** So what is proved of every honest and orderly run holds of the engine's own requests: whatever the interleaving
      with other requests, the response recorded for this one is the sequential evaluation. */
  lemma ServedRequestsRefineNestedLoop(id: RequestId, calls: seq<Call>, logs: map<RequestId, Log>, s: S.Session,
                                       c: Call, m: D.Model)
    requires Follows(id, calls, logs, s) && StartsOf(id, calls) == [c] && StartsModel(c, m)
    requires D.WellFormed(m) && R.Regular(m, R.Begin(m, logs[id].net), logs[id].run)
    ensures |s.responses| <= 1
    ensures s.responses != [] ==> s.pipeline.None? && D.Generate(m, m.Goal()) == Some(s.responses[0].tokens)
  {
    R.PipelineRefinesNestedLoop(m, logs[id].net, logs[id].run);
  }
}
