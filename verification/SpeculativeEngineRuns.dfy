/** From the engine to the runs of a single request: whatever calls the engine receives, for whatever requests, the
    part of it that belongs to one request went through a run of the session machine. */
module SpeculativeEngineRuns {
  import opened Common
  import opened Rosters
  import opened SpeculativeEngines
  import Graphs = ModelGraphs
  import Shards = ShardSession
  import Round = SpeculativeRound
  import S = SpeculativeSession
  import D = SpeculativeDecoding

  datatype Call =
    | Start(id: RequestId, hasDraftSource: bool, shards: seq<Shards.Shard>, maxTokens: u32, promptHex: string,
            roster: Roster)
    | Result(id: RequestId, wallet: Wallet, reply: S.ShardReply, roster: Roster)
    | Counted(id: RequestId, wallet: Wallet, counts: map<string, nat>, roster: Roster)
    | Draft(id: RequestId, wallet: Wallet, tokens: seq<u32>, roster: Roster)
    | Ack(id: RequestId, shardIndex: u32, ok: bool, finalizedHash: Option<string>, roster: Roster)
    | Tick(roster: Roster)
    | Leave(wallet: Wallet)

  /** What the registry answered when the request was started, and at each event it has seen since. */
  datatype Log = Log(net: S.Net, run: seq<D.Stimulus>)

  const EMPTY := S.Session(None, None, None, map[], [])

  /** What a call is to one request. */
  function EventFor(id: RequestId, c: Call): Option<S.Event> {
    match c
    case Start(_, _, _, _, _, _) => None
    case Result(at, wallet, reply, _) => if at == id then Some(S.ShardResult(wallet, reply)) else None
    case Counted(at, wallet, counts, _) => if at == id then Some(S.Counted(wallet, counts)) else None
    case Draft(at, wallet, tokens, _) => if at == id then Some(S.DraftResult(wallet, tokens)) else None
    case Ack(at, shardIndex, ok, hash, _) => if at == id then Some(S.RollbackAck(shardIndex, ok, hash)) else None
    case Tick(_) => Some(S.RetryTick)
    case Leave(wallet) => Some(S.Disconnect(wallet))
  }

  /** A request is started only for a model with a draft source. */
  predicate Starts(id: RequestId, c: Call) {
    c.Start? && c.id == id && c.hasDraftSource
  }

  /** The calls that start the request. */
  function StartsOf(id: RequestId, calls: seq<Call>): seq<Call> {
    if calls == [] then []
    else
      var last := calls[|calls| - 1];
      StartsOf(id, calls[..|calls| - 1]) + if Starts(id, last) then [last] else []
  }

  /** What the request sees after it was started. */
  function EventsSince(id: RequestId, calls: seq<Call>): seq<S.Event> {
    if calls == [] || StartsOf(id, calls[..|calls| - 1]) == [] then []
    else
      var e := EventFor(id, calls[|calls| - 1]);
      EventsSince(id, calls[..|calls| - 1]) + if e.Some? then [e.value] else []
  }

  function EventsOf(run: seq<D.Stimulus>): seq<S.Event> {
    seq(|run|, i requires 0 <= i < |run| => run[i].event)
  }

  function Begun(c: Call, net: S.Net): S.Session
    requires c.Start?
  {
    S.DispatchShard(Opening(c.shards, c.maxTokens, c.promptHex), net)
  }

  ghost function Replay(s: S.Session, run: seq<D.Stimulus>): S.Session {
    if run == [] then s
    else
      var last := run[|run| - 1];
      S.Step(Replay(s, run[..|run| - 1]), last.net, last.event)
  }

  /** Where one request stands after the calls: untouched before it is started, then wherever a run of the session
      machine on the events it saw leads. Says nothing of a request id that was used twice. */
  ghost predicate Follows(id: RequestId, calls: seq<Call>, logs: map<RequestId, Log>, s: S.Session) {
    var starts := StartsOf(id, calls);
    && (starts == [] ==> id !in logs && s == EMPTY)
    && (|starts| == 1 ==> starts[0].Start? && id in logs && EventsOf(logs[id].run) == EventsSince(id, calls)
                          && s == Replay(Begun(starts[0], logs[id].net), logs[id].run))
  }

  /** Replaying a request's session alone or next to its caches is the same. */
  lemma {:induction false} RunReplays(c: D.Setup, w: D.World, run: seq<D.Stimulus>)
    ensures D.Run(c, w, run).s == Replay(w.s, run)
    decreases |run|
  {
    if run != [] {
      var w1 := D.WorldStep(c, w, run[0].net, run[0].event);
      RunReplays(c, w1, run[1..]);
      ReplayFirst(w.s, run);
    }
  }

  lemma {:induction false} ReplayFirst(s: S.Session, run: seq<D.Stimulus>)
    requires run != []
    ensures Replay(s, run) == Replay(S.Step(s, run[0].net, run[0].event), run[1..])
    decreases |run|
  {
    hide S.Step;
    if |run| > 1 {
      var init := run[..|run| - 1];
      ReplayFirst(s, init);
      assert init[1..] == run[1..][..|run| - 2];
    } else {
      assert run[..0] == [] && run[1..] == [];
    }
  }

  function Longer(log: Log, net: S.Net, e: S.Event): Log {
    log.(run := log.run + [D.Stimulus(net, e)])
  }

  /** A request that has not been started takes no notice of anything. */
  lemma NothingHappensToNothing(net: S.Net, e: S.Event)
    ensures S.Step(EMPTY, net, e) == EMPTY
  {
  }

  lemma StartFollows(id: RequestId, calls: seq<Call>, c: Call, logs: map<RequestId, Log>, s: S.Session,
                     logs2: map<RequestId, Log>, net: S.Net)
    requires Follows(id, calls, logs, s) && Starts(id, c) && logs2 == logs[id := Log(net, [])]
    ensures Follows(id, calls + [c], logs2,
                    S.DispatchShard(s.(pipeline := Opening(c.shards, c.maxTokens, c.promptHex).pipeline), net))
  {
    assert (calls + [c])[..|calls|] == calls;
  }

  lemma EventFollows(id: RequestId, calls: seq<Call>, c: Call, logs: map<RequestId, Log>, s: S.Session,
                     logs2: map<RequestId, Log>, net: S.Net)
    requires Follows(id, calls, logs, s) && EventFor(id, c).Some?
    requires id in logs2 <==> id in logs
    requires id in logs ==> logs2[id] == Longer(logs[id], net, EventFor(id, c).value)
    ensures Follows(id, calls + [c], logs2, S.Step(s, net, EventFor(id, c).value))
  {
    hide S.Step;
    assert (calls + [c])[..|calls|] == calls;
    var e := EventFor(id, c).value;
    NothingHappensToNothing(net, e);
    if |StartsOf(id, calls)| == 1 {
      var run := logs[id].run + [D.Stimulus(net, e)];
      assert run[..|run| - 1] == logs[id].run;
      assert EventsOf(run) == EventsOf(logs[id].run) + [e];
    }
  }

  lemma OthersFollow(id: RequestId, calls: seq<Call>, c: Call, logs: map<RequestId, Log>, s: S.Session,
                     logs2: map<RequestId, Log>)
    requires Follows(id, calls, logs, s) && EventFor(id, c).None? && !Starts(id, c)
    requires id in logs2 <==> id in logs
    requires id in logs ==> logs2[id] == logs[id]
    ensures Follows(id, calls + [c], logs2, s)
  {
    assert (calls + [c])[..|calls|] == calls;
  }

  lemma DisconnectIgnoresNet(s: S.Session, net: S.Net, wallet: Wallet)
    ensures S.Step(s, net, S.Disconnect(wallet)) == S.OnDisconnect(s, wallet)
  {
  }

  /** What the registry answered when a tick reached the request. */
  ghost function NetAt(before: S.Session, roster: Roster, after: S.Session): (net: S.Net)
    requires Retried(before, roster, after)
    ensures after == S.Step(before, net, S.RetryTick)
  {
    var last :| after == S.Step(before, NetOf(roster, last), S.RetryTick);
    NetOf(roster, last)
  }

  function OneSaw(id: RequestId, logs: map<RequestId, Log>, net: S.Net, e: S.Event): map<RequestId, Log> {
    if id in logs then logs[id := Longer(logs[id], net, e)] else logs
  }

  /** The calls that concern one request. */
  method ServeOne(engine: SpeculativeEngine, c: Call, ghost calls: seq<Call>, ghost logs: map<RequestId, Log>)
    returns (ghost logs2: map<RequestId, Log>)
    requires c.Result? || c.Counted? || c.Draft? || c.Ack?
    requires forall id :: Follows(id, calls, logs, engine.Slice(id))
    modifies engine
    ensures forall id :: Follows(id, calls + [c], logs2, engine.Slice(id))
  {
    hide Follows, NetOf, S.OnShardResult, S.OnCounted, S.OnDraftResult, S.OnRollbackAck;
    ghost var net := NetOf(c.roster, engine.lastShardWallet);
    match c {
      case Result(id, wallet, reply, roster) =>
        var _ := engine.HandleShardResult(id, wallet, reply, roster);
      case Counted(id, wallet, counts, roster) =>
        engine.ResumeCount(id, wallet, counts, roster);
      case Draft(id, wallet, tokens, roster) =>
        engine.HandleDraftResult(id, wallet, tokens, roster);
      case Ack(id, shardIndex, ok, hash, roster) =>
        engine.HandleKvRollbackAck(id, shardIndex, ok, hash, roster);
    }
    assert engine.Slice(c.id) == S.Step(old(engine.Slice(c.id)), net, EventFor(c.id, c).value);
    hide S.Step;
    logs2 := OneSaw(c.id, logs, net, EventFor(c.id, c).value);
    forall at ensures Follows(at, calls + [c], logs2, engine.Slice(at)) {
      if at == c.id { EventFollows(at, calls, c, logs, old(engine.Slice(at)), logs2, net); }
      else { OthersFollow(at, calls, c, logs, old(engine.Slice(at)), logs2); }
    }
  }

  method Serve(engine: SpeculativeEngine, c: Call, ghost calls: seq<Call>, ghost logs: map<RequestId, Log>)
    returns (ghost logs2: map<RequestId, Log>)
    requires forall id :: Follows(id, calls, logs, engine.Slice(id))
    modifies engine
    ensures forall id :: Follows(id, calls + [c], logs2, engine.Slice(id))
  {
    hide Follows, S.Step, S.DispatchShard, NetOf, Opening;
    match c
    case Start(id, hasDraftSource, shards, maxTokens, promptHex, roster) =>
      ghost var net := NetOf(roster, engine.lastShardWallet);
      engine.StartPipeline(id, hasDraftSource, shards, maxTokens, promptHex, roster);
      logs2 := if hasDraftSource then logs[id := Log(net, [])] else logs;
      forall at ensures Follows(at, calls + [c], logs2, engine.Slice(at)) {
        if Starts(at, c) { StartFollows(at, calls, c, logs, old(engine.Slice(at)), logs2, net); }
        else { OthersFollow(at, calls, c, logs, old(engine.Slice(at)), logs2); }
      }
    case Tick(roster) =>
      engine.RetryStalledTick(roster);
      logs2 := map id | id in logs ::
        Longer(logs[id], NetAt(old(engine.Slice(id)), roster, engine.Slice(id)), S.RetryTick);
      forall at ensures Follows(at, calls + [c], logs2, engine.Slice(at)) {
        var net := NetAt(old(engine.Slice(at)), roster, engine.Slice(at));
        EventFollows(at, calls, c, logs, old(engine.Slice(at)), logs2, net);
      }
    case Leave(wallet) =>
      engine.OnDisconnect(wallet);
      ghost var net := S.Net(None, None, {});
      logs2 := map id | id in logs :: Longer(logs[id], net, S.Disconnect(wallet));
      forall at ensures Follows(at, calls + [c], logs2, engine.Slice(at)) {
        DisconnectIgnoresNet(old(engine.Slice(at)), net, wallet);
        EventFollows(at, calls, c, logs, old(engine.Slice(at)), logs2, net);
      }
    case _ =>
      logs2 := ServeOne(engine, c, calls, logs);
  }

  /** Serves any calls in any order. Whatever else the engine was doing meanwhile, a request that was started once
      has gone through a run of the session machine on exactly the events it saw. */
  method ServeAll(calls: seq<Call>) returns (engine: SpeculativeEngine, ghost logs: map<RequestId, Log>)
    ensures fresh(engine)
    ensures forall id :: Follows(id, calls, logs, engine.Slice(id))
  {
    engine := new SpeculativeEngine();
    logs := map[];
    for i := 0 to |calls|
      invariant fresh(engine)
      invariant forall id :: Follows(id, calls[..i], logs, engine.Slice(id))
    {
      logs := Serve(engine, calls[i], calls[..i], logs);
      assert calls[..i + 1] == calls[..i] + [calls[i]];
    }
    assert calls[..|calls|] == calls;
  }

  /** The call starts the request of this setup. */
  predicate StartsSetup(c: Call, setup: D.Setup) {
    c.Start? && IndicesOf(Graphs.ByIndex(c.shards)) == setup.shards && c.maxTokens == setup.maxTokens
    && c.promptHex == setup.promptHex
  }

  /** So what is proved of every honest and orderly run holds of the engine's own requests: whatever the interleaving
      with other requests, this one is where the run of its session next to its shards' caches leads, and records
      nothing but the target's own decode. */
  lemma ServedRequestsKeepMeaning(id: RequestId, calls: seq<Call>, logs: map<RequestId, Log>, s: S.Session, c: Call,
                                  setup: D.Setup)
    requires Follows(id, calls, logs, s) && StartsOf(id, calls) == [c] && StartsSetup(c, setup)
    requires D.WellFormed(setup) && D.Seed(setup) == |setup.prompt|
    requires D.RegularRun(setup, D.Init(setup, logs[id].net), logs[id].run)
    ensures s == D.Run(setup, D.Init(setup, logs[id].net), logs[id].run).s
    ensures forall line | line in s.sent && line.Record? ::
              line.tokens == Round.Greedy(setup.next, setup.prompt, |line.tokens|)
  {
    RunReplays(setup, D.Init(setup, logs[id].net), logs[id].run);
    D.SpeculationPreservesMeaning(setup, logs[id].net, logs[id].run);
  }
}
