/** The state of one request relayed shard by shard, and what every event does to it.

    A reply is handled in stages, one between every two waits of its handler: for the model's source, for the on-chain
    submission, for the memory estimate and for the expert fan-out. Ticks, disconnects and other replies can fall into
    each wait. `submits`, `trail` and `responses` record, in order, the submissions that were reported successful, the
    expert outputs that were combined, and what was finally persisted. */
module ShardSession {
  import opened Common
  import opened Attribution
  import opened Bytes

  datatype Shard = Shard(index: u32, layerStart: nat, layerEnd: nat)

  datatype Tensor = Tensor(shape: seq<nat>, dataHex: string)

  datatype Input = Prompt(hex: string) | NextToken(id: u32) | Hidden(tensor: Tensor)

  datatype Choice = Choice(expertId: nat, weight: real)

  /** What a miner reports for one step; `router` lists the chosen experts, one entry per layer. */
  datatype Output = Output(tensor: Tensor, nextToken: Option<u32>, router: Option<seq<seq<Choice>>>)

  datatype Reply = Reply(shardIndex: u32, tokenIndex: nat, step: Option<nat>, outputHash: string, output: Output)

  /** A layer-by-layer walk: the layer in progress and the wallet that holds its open session. */
  datatype Walk = Walk(layer: nat, wallet: Wallet)

  datatype Dispatch = Dispatch(shardIndex: u32, layerStart: nat, layerEnd: nat, step: Option<nat>, wallet: Wallet,
                               tokenIndex: nat)

  datatype Pipeline = Pipeline(
    shards: seq<Shard>, numLayers: nat, expertGroups: map<(nat, nat), seq<nat>>, maxTokens: u32,
    pos: nat, tokenIndex: nat, input: Input, generated: seq<u32>, contributions: map<Wallet, nat>,
    walk: Option<Walk>, dispatchLog: seq<Dispatch>)
  {
    function Current(): Shard {
      if pos < |shards| then shards[pos] else Shard(0, 0, 0)
    }

    /** The experts registered for the current shard's layer range, if any. */
    function ExpertGroup(): Option<seq<nat>> {
      var key := (Current().layerStart, Current().layerEnd);
      if pos < |shards| && key in expertGroups && expertGroups[key] != [] then Some(expertGroups[key]) else None
    }

    function IsLastToken(): bool {
      tokenIndex + 1 >= maxTokens
    }

    /** An interior layer, or the last layer of the model: the combined output goes back to the same shard. */
    function StaysOnShard(layer: nat): bool {
      var end := Current().layerEnd;
      end == 0 || layer + 1 < end || (layer + 1 == end && end == numLayers)
    }
  }

  datatype Assignment = Assignment(wallet: Wallet, shardIndex: u32, tokenIndex: nat, step: Option<nat>)

  /** A fan-out, with what its handler remembers of the request while it waits. */
  datatype Fanout = Fanout(interior: bool, layer: nat, layerStart: nat, layerEnd: nat, shardIndex: u32, tokenIndex: nat,
                           tensor: Tensor, experts: seq<Choice>)

  /** What a suspended handler waits for. It runs inside the session of the wallet that replied. */
  datatype Handler = Looking(reply: Reply) | Submitting(reply: Reply) | Sizing(fanout: Fanout) | Joining(fanout: Fanout)

  datatype Submit = Submit(shardIndex: u32, tokenIndex: nat, hash: string)

  datatype Applied = Applied(tokenIndex: nat, pos: nat, layer: nat, wallet: Wallet)

  datatype Response = Response(wallet: Wallet, tokens: seq<u32>)

  datatype Session = Session(
    pipeline: Option<Pipeline>, assignment: Option<Assignment>, handlers: map<Wallet, Handler>,
    submits: seq<Submit>, trail: seq<Applied>, responses: seq<Response>)

  datatype Net = Net(nextMiner: Option<Wallet>, connected: set<Wallet>)

  /** `late` marks a tick that looked for stalled requests before, and dispatches only now. */
  datatype Event =
    | ShardResult(wallet: Wallet, reply: Reply)
    | SourceFound(wallet: Wallet, resolved: bool)
    | SubmitDone(wallet: Wallet, submitted: bool)
    | Sized(wallet: Wallet)
    | FanoutDone(wallet: Wallet, combined: Option<Tensor>)
    | RetryTick(resolved: bool, late: bool)
    | Disconnect(wallet: Wallet)

  function Start(shards: seq<Shard>, numLayers: nat, groups: map<(nat, nat), seq<nat>>, maxTokens: u32,
                 promptHex: string): Pipeline {
    Pipeline(shards, numLayers, groups, maxTokens, 0, 0, Prompt(promptHex), [], map[], None, [])
  }

  // ---- Dispatch ------------------------------------------------------------------------------------

  function Assign(s: Session, p: Pipeline, wallet: Wallet, step: Option<nat>): Session {
    var sh := p.Current();
    s.(assignment := Some(Assignment(wallet, sh.index, p.tokenIndex, step)),
       pipeline := Some(p.(dispatchLog := p.dispatchLog
                           + [Dispatch(sh.index, sh.layerStart, sh.layerEnd, step, wallet, p.tokenIndex)])))
  }

  /** A walk in progress resumes on its pinned wallet or not at all; anything else goes to the next miner. */
  function DispatchCurrent(s: Session, net: Net): Session {
    if s.pipeline.None? then s else
      var p := s.pipeline.value;
      if p.walk.Some? then
        if p.walk.value.wallet !in net.connected then s.(pipeline := None, assignment := None)
        else Assign(s, p, p.walk.value.wallet, Some(p.walk.value.layer))
      else if net.nextMiner.None? then s
      else
        var w := net.nextMiner.value;
        var start := p.Current().layerStart;
        var p1 := if p.ExpertGroup().Some? then p.(walk := Some(Walk(start, w))) else p;
        if w !in net.connected then s.(pipeline := Some(p1))
        else Assign(s, p1, w, if p.ExpertGroup().Some? then Some(start) else None)
  }

  // ---- Shard results ---------------------------------------------------------------------------------

  predicate Accepts(s: Session, w: Wallet, r: Reply) {
    s.assignment == Some(Assignment(w, r.shardIndex, r.tokenIndex, r.step))
  }

  /** The reply uses up the assignment; its handler then waits for the model's source. */
  function OnShardResult(s: Session, w: Wallet, r: Reply): Session {
    if !Accepts(s, w, r) then s
    else
      var s1 := s.(assignment := None);
      if s1.pipeline.None? then s1 else s1.(handlers := s1.handlers[w := Looking(r)])
  }

  function Resumed(s: Session, w: Wallet): Session {
    s.(handlers := s.handlers - {w})
  }

  /** From here on the reply counts for its wallet. */
  ghost function OnSourceFound(s: Session, net: Net, w: Wallet, resolved: bool): Session {
    if w !in s.handlers || !s.handlers[w].Looking? then s
    else
      var s1 := Resumed(s, w);
      if s1.pipeline.None? || !resolved then s1
      else
        var p := s1.pipeline.value.(contributions := Bump(s1.pipeline.value.contributions, w));
        Route(s1.(pipeline := Some(p)), net, w, s.handlers[w].reply)
  }

  /** Interior layers are fanned out at once; anything else is first submitted if it belongs to the last token. */
  ghost function Route(s: Session, net: Net, w: Wallet, r: Reply): Session
    requires s.pipeline.Some?
  {
    var p := s.pipeline.value;
    if r.step.Some? && p.StaysOnShard(r.step.value) then
      if p.ExpertGroup().None? then s.(pipeline := None)
      else BeginFanout(s, w, r, true, r.step.value)
    else if p.IsLastToken() then s.(handlers := s.handlers[w := Submitting(r)])
    else Settle(s, net, w, r)
  }

  ghost function OnSubmitDone(s: Session, net: Net, w: Wallet, submitted: bool): Session {
    if w !in s.handlers || !s.handlers[w].Submitting? then s
    else
      var s1, r := Resumed(s, w), s.handlers[w].reply;
      if !submitted then s1
      else
        var s2 := s1.(submits := s1.submits + [Submit(r.shardIndex, r.tokenIndex, r.outputHash)]);
        if s2.pipeline.None? then s2 else Settle(s2, net, w, r)
  }

  /** The last shard's reply decodes the token; another shard's starts its last fan-out or goes to the next shard. */
  ghost function Settle(s: Session, net: Net, w: Wallet, r: Reply): Session
    requires s.pipeline.Some?
  {
    var p := s.pipeline.value;
    if p.pos + 1 == |p.shards| then Decode(s, net, r)
    else if p.ExpertGroup().Some? then BeginFanout(s, w, r, false, BoundaryLayer(p, r))
    else Handoff(s, net, r.output.tensor)
  }

  function BoundaryLayer(p: Pipeline, r: Reply): nat {
    if r.step.Some? then r.step.value else if p.Current().layerEnd == 0 then 0 else p.Current().layerEnd - 1
  }

  /** Feeds the next shard of the same token. */
  function Handoff(s: Session, net: Net, t: Tensor): Session
    requires s.pipeline.Some?
  {
    var p := s.pipeline.value;
    DispatchCurrent(s.(pipeline := Some(p.(pos := p.pos + 1, input := Hidden(t), walk := None))), net)
  }

  ghost function Decode(s: Session, net: Net, r: Reply): Session
    requires s.pipeline.Some?
  {
    var p := s.pipeline.value;
    if r.output.nextToken.None? then s.(pipeline := None) else
      var token := r.output.nextToken.value;
      var p1 := p.(generated := p.generated + [token]);
      if p.IsLastToken() then Finalize(s.(pipeline := Some(p1)))
      else DispatchCurrent(s.(pipeline := Some(p1.(pos := 0, tokenIndex := p.tokenIndex + 1, input := NextToken(token),
                                                   walk := None))), net)
  }

  ghost function Finalize(s: Session): Session
    requires s.pipeline.Some?
  {
    var winner := Winner(s.pipeline.value.contributions);
    s.(pipeline := None,
       responses := if winner.None? then s.responses
         else s.responses + [Response(winner.value, s.pipeline.value.generated)])
  }

  // ---- Expert fan-out -----------------------------------------------------------------------------------

  predicate Malformed(router: seq<seq<Choice>>) {
    router == [] || exists i | 0 <= i < |router| :: router[i] == []
  }

  predicate Unregistered(router: seq<seq<Choice>>, registered: seq<nat>) {
    exists i, j | 0 <= i < |router| && 0 <= j < |router[i]| :: router[i][j].expertId !in registered
  }

  /** Whether the text is the hexadecimal image of a vector of 4-byte floats. */
  predicate IsF32Hex(h: string) {
    HexDecode(h).Some? && |HexDecode(h).value| % 4 == 0
  }

  /** Validates the router's choice; the handler then waits for the memory estimate. */
  function BeginFanout(s: Session, w: Wallet, r: Reply, interior: bool, layer: nat): Session
    requires s.pipeline.Some? && s.pipeline.value.ExpertGroup().Some?
  {
    var p := s.pipeline.value;
    if r.output.router.None? then s
    else if Malformed(r.output.router.value) || Unregistered(r.output.router.value, p.ExpertGroup().value)
            || !IsF32Hex(r.output.tensor.dataHex) then s.(pipeline := None)
    else
      var router, shard := r.output.router.value, p.Current();
      var f := Fanout(interior, layer, shard.layerStart, shard.layerEnd, r.shardIndex, p.tokenIndex, r.output.tensor,
                      router[|router| - 1]);
      s.(handlers := s.handlers[w := Sizing(f)])
  }

  /** The experts are dispatched. While the handler waits for them, a placeholder assignment marks the request busy. */
  function OnSized(s: Session, w: Wallet): Session {
    if w !in s.handlers || !s.handlers[w].Sizing? then s
    else
      var f := s.handlers[w].fanout;
      var s1 := s.(handlers := s.handlers[w := Joining(f)]);
      if s.pipeline.None? || s.pipeline.value.walk.None? then s1
      else
        var pinned := s.pipeline.value.walk.value.wallet;
        s1.(assignment := Some(Assignment(pinned, f.shardIndex, f.tokenIndex, Some(f.layer))))
  }

  /** The join refuses a layer outside the shard's own range whatever the experts answered. */
  function Joined(f: Fanout, combined: Option<Tensor>): Option<Tensor> {
    if f.layerStart <= f.layer < f.layerEnd then combined else None
  }

  /** The combined output feeds the next shard, or the next layer of the same walk. */
  function ApplyJoin(s: Session, net: Net, w: Wallet, f: Fanout, t: Tensor): Session
    requires s.pipeline.Some?
  {
    var p := s.pipeline.value;
    var s2 := s.(trail := s.trail + [Applied(p.tokenIndex, p.pos, f.layer, w)]);
    if !f.interior then Handoff(s2, net, t)
    else
      var walk := if p.walk.Some? then Some(Walk(f.layer + 1, p.walk.value.wallet)) else None;
      DispatchCurrent(s2.(pipeline := Some(p.(input := Hidden(t), walk := walk))), net)
  }

  /** Without a combined output the marker goes, so that a tick can dispatch the step again. */
  function OnFanoutDone(s: Session, net: Net, w: Wallet, combined: Option<Tensor>): Session {
    if w !in s.handlers || !s.handlers[w].Joining? then s
    else
      var s1, f := Resumed(s, w), s.handlers[w].fanout;
      var joined := Joined(f, combined);
      if joined.None? then s1.(assignment := None)
      else if s1.pipeline.None? then s1
      else ApplyJoin(s1, net, w, f, joined.value)
  }

  // ---- Ticks and disconnects ------------------------------------------------------------------------------

  function OnRetryTick(s: Session, net: Net, resolved: bool, late: bool): Session {
    if s.pipeline.Some? && (s.assignment.None? || late) && resolved then DispatchCurrent(s, net) else s
  }

  /** Ending a wallet's session drops the handler running inside it, then releases its assignment. */
  function OnDisconnect(s: Session, w: Wallet): Session {
    var s1 := Resumed(s, w);
    if s1.assignment.Some? && s1.assignment.value.wallet == w then s1.(assignment := None) else s1
  }

  ghost function Step(s: Session, net: Net, e: Event): Session {
    match e
    case ShardResult(w, r) => OnShardResult(s, w, r)
    case SourceFound(w, resolved) => OnSourceFound(s, net, w, resolved)
    case SubmitDone(w, submitted) => OnSubmitDone(s, net, w, submitted)
    case Sized(w) => OnSized(s, w)
    case FanoutDone(w, combined) => OnFanoutDone(s, net, w, combined)
    case RetryTick(resolved, late) => OnRetryTick(s, net, resolved, late)
    case Disconnect(w) => OnDisconnect(s, w)
  }
}
