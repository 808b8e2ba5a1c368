/** The event-driven shard pipeline computes what the plain nested loop computes:
    for each token, for each shard, for each layer of an expert range. */
module ShardDecoding {
  import opened Common
  import opened Attribution
  import opened Bytes
  import opened ShardSession

  /** The model behind a request. `compute(pos, token, step, input)` is what the shard at `pos` answers;
      `combine` is the weighted sum of the selected experts at one layer. */
  datatype Model = Model(
    shards: seq<Shard>, numLayers: nat, groups: map<(nat, nat), seq<nat>>, maxTokens: u32, promptHex: string,
    compute: (nat, nat, Option<nat>, Input) -> Output, combine: (nat, nat, nat, Tensor, seq<Choice>) -> Tensor)
  {
    predicate HasGroup(pos: nat)
      requires pos < |shards|
    {
      var key := (shards[pos].layerStart, shards[pos].layerEnd);
      key in groups && groups[key] != []
    }

    function Goal(): nat {
      if maxTokens == 0 then 1 else maxTokens
    }

    predicate EndsModel(pos: nat)
      requires pos < |shards|
    {
      shards[pos].layerEnd == numLayers
    }

    /** The step of an expert shard that ends it: the boundary layer, or one past it when it ends the model. */
    function LastStep(pos: nat): nat
      requires pos < |shards| && shards[pos].layerStart < shards[pos].layerEnd
    {
      if EndsModel(pos) then shards[pos].layerEnd else shards[pos].layerEnd - 1
    }

    /** One past the last layer whose experts are combined before the shard is left. */
    function WalkEnd(pos: nat): nat
      requires pos < |shards| && shards[pos].layerStart < shards[pos].layerEnd
    {
      if pos + 1 == |shards| then LastStep(pos) else shards[pos].layerEnd
    }
  }

  /** Expert ranges are non-empty, and among them only the last shard may end at the model's last layer. */
  ghost predicate WellFormed(m: Model) {
    && |m.shards| > 0
    && (forall i, j | 0 <= i < j < |m.shards| :: m.shards[i].index != m.shards[j].index)
    && forall i | 0 <= i < |m.shards| && m.HasGroup(i) ::
         && m.shards[i].layerStart < m.shards[i].layerEnd
         && (i + 1 < |m.shards| ==> !m.EndsModel(i))
  }

  // ---- The reference: sequential evaluation --------------------------------------------------------------

  /** The combined expert output of one layer. */
  function EvalLayer(m: Model, t: nat, pos: nat, layer: nat, x: Input): Option<Input> {
    var o := m.compute(pos, t, Some(layer), x);
    if o.router.None? || o.router.value == [] then None
    else Some(Hidden(m.combine(pos, t, layer, o.tensor, o.router.value[|o.router.value| - 1])))
  }

  /** Layers `from` to `to` of one expert range. */
  function EvalLayers(m: Model, t: nat, pos: nat, from: nat, to: nat, x: Input): Option<Input>
    decreases to - from
  {
    if from >= to then Some(x)
    else
      var y := EvalLayer(m, t, pos, from, x);
      if y.None? then None else EvalLayers(m, t, pos, from + 1, to, y.value)
  }

  /** The shards from `pos` on, entering the current one at `layer`; the last one decodes the token. */
  function EvalShards(m: Model, t: nat, pos: nat, layer: nat, x: Input): Option<u32>
    requires WellFormed(m) && pos < |m.shards|
    decreases |m.shards| - pos
  {
    var last := pos + 1 == |m.shards|;
    if !m.HasGroup(pos) then
      var o := m.compute(pos, t, None, x);
      if last then o.nextToken else EvalShards(m, t, pos + 1, m.shards[pos + 1].layerStart, Hidden(o.tensor))
    else
      var y := EvalLayers(m, t, pos, layer, m.WalkEnd(pos), x);
      if y.None? then None
      else if last then m.compute(pos, t, Some(m.LastStep(pos)), y.value).nextToken
      else EvalShards(m, t, pos + 1, m.shards[pos + 1].layerStart, y.value)
  }

  function TokenInput(m: Model, generated: seq<u32>): Input {
    if generated == [] then Prompt(m.promptHex) else NextToken(generated[|generated| - 1])
  }

  function EvalToken(m: Model, generated: seq<u32>): Option<u32>
    requires WellFormed(m)
  {
    EvalShards(m, |generated|, 0, m.shards[0].layerStart, TokenInput(m, generated))
  }

  /** The first `n` tokens, one after the other. */
  function Generate(m: Model, n: nat): (r: Option<seq<u32>>)
    requires WellFormed(m)
    ensures r.Some? ==> |r.value| == n
  {
    if n == 0 then Some([])
    else
      var g := Generate(m, n - 1);
      if g.None? then None
      else
        var token := EvalToken(m, g.value);
        if token.None? then None else Some(g.value + [token.value])
  }

  // ---- The environment -----------------------------------------------------------------------------------

  /** The layer in progress: where the walk stands, or where it will start. */
  function Layer(p: Pipeline): nat {
    if p.walk.Some? then p.walk.value.layer else p.Current().layerStart
  }

  function StepOf(p: Pipeline): Option<nat> {
    if p.ExpertGroup().Some? then Some(Layer(p)) else None
  }

  predicate Reachable(net: Net) {
    net.nextMiner.Some? && net.nextMiner.value in net.connected
  }

  /** Replies to the current step and successful joins are the model's own results; everything else is arbitrary. */
  ghost predicate Honest(m: Model, s: Session, e: Event) {
    s.pipeline.Some? ==>
      var p := s.pipeline.value;
      && (e.ShardResult? && Accepts(s, e.wallet, e.reply) && Current(p, s.assignment.value) ==>
            e.reply.output == m.compute(p.pos, p.tokenIndex, e.reply.step, p.input))
      && (e.FanoutDone? && e.combined.Some? && e.wallet in s.handlers && s.handlers[e.wallet].Joining? ==>
            var f := s.handlers[e.wallet].fanout;
            e.combined.value == m.combine(p.pos, p.tokenIndex, f.layer, f.tensor, f.experts))
  }

  /** An accepted reply answers the step the request is at, and no earlier reply is still being handled. The engine
      could check this where it accepts the reply; it does not. */
  predicate Orderly(s: Session, e: Event) {
    e.ShardResult? && Accepts(s, e.wallet, e.reply) && s.pipeline.Some? ==>
      s.handlers == map[] && Current(s.pipeline.value, s.assignment.value)
  }

  // ---- The invariant ---------------------------------------------------------------------------------------

  ghost predicate Shaped(m: Model, p: Pipeline)
    requires WellFormed(m)
  {
    && p.shards == m.shards && p.numLayers == m.numLayers && p.expertGroups == m.groups && p.maxTokens == m.maxTokens
    && p.pos < |p.shards|
    && p.tokenIndex < m.Goal() && |p.generated| == p.tokenIndex
    && (p.walk.Some? ==> m.HasGroup(p.pos) && p.Current().layerStart <= p.walk.value.layer <= m.LastStep(p.pos))
  }

  /** What remains to be computed yields the token that evaluating it from the start yields. */
  ghost predicate OnTrack(m: Model, p: Pipeline)
    requires WellFormed(m) && Shaped(m, p)
  {
    && Generate(m, p.tokenIndex) == Some(p.generated)
    && EvalShards(m, p.tokenIndex, p.pos, Layer(p), p.input) == EvalToken(m, p.generated)
    && (p.pos == 0 && Layer(p) == p.Current().layerStart ==> p.input == TokenInput(m, p.generated))
    && (p.pos > 0 || Layer(p) > p.Current().layerStart ==> p.input.Hidden?)
  }

  /** An assignment names exactly the current shard, token and step, and a walk's pinned wallet. */
  predicate Current(p: Pipeline, a: Assignment) {
    && a.shardIndex == p.Current().index && a.tokenIndex == p.tokenIndex && a.step == StepOf(p)
    && (p.ExpertGroup().Some? ==> p.walk.Some? && a.wallet == p.walk.value.wallet)
  }

  /** The assignment names an earlier step, and nothing has overwritten it since. */
  ghost predicate LeftBehind(m: Model, p: Pipeline, a: Assignment) {
    || a.tokenIndex < p.tokenIndex
    || (a.tokenIndex == p.tokenIndex && exists i :: 0 <= i < p.pos <= |m.shards| && a.shardIndex == m.shards[i].index)
  }

  /** The reply answers the step the request is at. */
  ghost predicate Answers(m: Model, p: Pipeline, w: Wallet, r: Reply) {
    && r.shardIndex == p.Current().index && r.tokenIndex == p.tokenIndex && r.step == StepOf(p)
    && (p.ExpertGroup().Some? ==> p.walk.Some? && w == p.walk.value.wallet)
    && r.output == m.compute(p.pos, p.tokenIndex, r.step, p.input)
  }

  /** The fan-out belongs to the step the request is at. */
  ghost predicate Suspended(m: Model, p: Pipeline, w: Wallet, f: Fanout) {
    && p.ExpertGroup().Some? && p.walk.Some? && f.layer == p.walk.value.layer && w == p.walk.value.wallet
    && p.Current().layerStart <= f.layer < p.Current().layerEnd
    && f.layerStart == p.Current().layerStart && f.layerEnd == p.Current().layerEnd
    && f.shardIndex == p.Current().index && f.tokenIndex == p.tokenIndex
    && (f.interior <==> p.StaysOnShard(f.layer))
    && (p.pos + 1 == |p.shards| ==> f.interior)
    && var o := m.compute(p.pos, p.tokenIndex, Some(f.layer), p.input);
       o.router.Some? && o.router.value != [] && f.tensor == o.tensor
         && f.experts == o.router.value[|o.router.value| - 1]
  }

  /** A suspended handler works on the step the request is at; during the join that step is marked busy. */
  ghost predicate Working(m: Model, s: Session, p: Pipeline, w: Wallet, h: Handler) {
    match h
    case Looking(r) => Answers(m, p, w, r)
    case Submitting(r) =>
      && Answers(m, p, w, r) && p.IsLastToken() && (r.step.Some? ==> !p.StaysOnShard(r.step.value))
      && w in p.contributions
    case Sizing(f) => Suspended(m, p, w, f)
    case Joining(f) => Suspended(m, p, w, f) && s.assignment.Some? && Current(p, s.assignment.value)
  }

  ghost predicate PipelineInv(m: Model, s: Session, p: Pipeline)
    requires WellFormed(m)
  {
    && Shaped(m, p) && OnTrack(m, p)
    && (s.assignment.Some? ==> Current(p, s.assignment.value) || LeftBehind(m, p, s.assignment.value))
    && forall w | w in s.handlers :: Working(m, s, p, w, s.handlers[w])
  }

  ghost predicate OneHandler(s: Session) {
    forall v, w | v in s.handlers && w in s.handlers :: v == w
  }

  ghost predicate Inv(m: Model, s: Session)
    requires WellFormed(m)
  {
    && OneHandler(s)
    && (s.pipeline.Some? ==> PipelineInv(m, s, s.pipeline.value))
    && (forall r | r in s.responses :: Generate(m, m.Goal()) == Some(r.tokens))
  }

  // ---- Preservation --------------------------------------------------------------------------------------------

  /** What a dispatch may do: drop the request, or name the current step and perhaps begin its walk. */
  ghost predicate Redispatched(s: Session, s2: Session)
    requires s.pipeline.Some?
  {
    && s2 == s.(pipeline := s2.pipeline, assignment := s2.assignment)
    && (s2.pipeline.Some? ==>
          var p, q := s.pipeline.value, s2.pipeline.value;
          && q == p.(walk := q.walk, dispatchLog := q.dispatchLog)
          && (p.walk.Some? ==> q.walk == p.walk)
          && (p.walk.None? && q.walk.Some? ==> q.ExpertGroup().Some? && q.walk.value.layer == p.Current().layerStart)
          && (s2.assignment == s.assignment || (s2.assignment.Some? && Current(q, s2.assignment.value))))
  }

  lemma DispatchNames(m: Model, s: Session, net: Net)
    requires WellFormed(m) && s.pipeline.Some? && Shaped(m, s.pipeline.value)
    ensures Redispatched(s, DispatchCurrent(s, net))
  {
    assert m.HasGroup(s.pipeline.value.pos) <==> s.pipeline.value.ExpertGroup().Some?;
  }

  /** A dispatch names the current step again, whatever handler is suspended. */
  lemma DispatchKeeps(m: Model, s: Session, net: Net)
    requires WellFormed(m) && Inv(m, s)
    ensures Inv(m, DispatchCurrent(s, net))
  {
    hide EvalShards, EvalToken, Generate, DispatchCurrent;
    var s2 := DispatchCurrent(s, net);
    if s.pipeline.Some? {
      DispatchNames(m, s, net);
      if s2.pipeline.Some? {
        var p, q := s.pipeline.value, s2.pipeline.value;
        assert Shaped(m, q) && OnTrack(m, q);
        assert s.assignment.Some? && Current(p, s.assignment.value) ==> Current(q, s.assignment.value);
        forall w | w in s2.handlers ensures Working(m, s2, q, w, s2.handlers[w]) {
          assert Working(m, s, p, w, s.handlers[w]);
        }
      }
    } else {
      DispatchOfNothing(s, net);
    }
  }

  lemma DispatchOfNothing(s: Session, net: Net)
    requires s.pipeline.None?
    ensures DispatchCurrent(s, net) == s
  {
  }

  /** Once the only handler is done, nobody is suspended. */
  lemma ResumedIsIdle(s: Session, w: Wallet)
    requires OneHandler(s) && w in s.handlers
    ensures Resumed(s, w).handlers == map[]
  {
    forall v ensures v !in Resumed(s, w).handlers {
      if v in s.handlers { assert v == w; }
    }
  }

  /** An assignment that is there when the request moves on to another shard is left behind. */
  lemma Overtaken(m: Model, p: Pipeline, q: Pipeline, a: Assignment)
    requires WellFormed(m) && p.shards == m.shards && p.pos < |m.shards| && q.pos <= |m.shards|
    requires Current(p, a) || LeftBehind(m, p, a)
    requires q.tokenIndex > p.tokenIndex || (q.tokenIndex == p.tokenIndex && q.pos > p.pos)
    ensures LeftBehind(m, q, a)
  {
    if a.tokenIndex == q.tokenIndex {
      if Current(p, a) {
        assert 0 <= p.pos < q.pos && a.shardIndex == m.shards[p.pos].index;
      } else {
        var i :| 0 <= i < p.pos <= |m.shards| && a.shardIndex == m.shards[i].index;
        assert 0 <= i < q.pos;
      }
    }
  }

  /** Moving on within a token: the next shard continues from this shard's output. */
  lemma HandoffKeeps(m: Model, s: Session, net: Net, t: Tensor)
    requires WellFormed(m) && Inv(m, s) && s.pipeline.Some? && s.handlers == map[]
    requires var p := s.pipeline.value;
             && p.pos + 1 < |p.shards|
             && EvalShards(m, p.tokenIndex, p.pos + 1, p.shards[p.pos + 1].layerStart, Hidden(t)) ==
                EvalToken(m, p.generated)
    ensures Inv(m, Handoff(s, net, t))
  {
    hide EvalToken, Generate, DispatchCurrent;
    var p := s.pipeline.value;
    var p1 := p.(pos := p.pos + 1, input := Hidden(t), walk := None);
    var s1 := s.(pipeline := Some(p1));
    assert OnTrack(m, p1);
    if s.assignment.Some? { Overtaken(m, p, p1, s.assignment.value); }
    assert PipelineInv(m, s1, p1);
    DispatchKeeps(m, s1, net);
  }

  lemma DenseKeeps(m: Model, s: Session, net: Net, r: Reply)
    requires WellFormed(m) && Inv(m, s) && s.pipeline.Some? && s.handlers == map[]
    requires var p := s.pipeline.value;
             && p.ExpertGroup().None? && p.pos + 1 < |p.shards|
             && r.output == m.compute(p.pos, p.tokenIndex, None, p.input)
    ensures Inv(m, Handoff(s, net, r.output.tensor))
  {
    HandoffKeeps(m, s, net, r.output.tensor);
  }

  /** The last shard's reply carries the token that evaluating the whole chain yields. */
  lemma TokenDecoded(m: Model, p: Pipeline)
    requires WellFormed(m) && Shaped(m, p) && OnTrack(m, p) && p.pos + 1 == |p.shards|
    requires p.ExpertGroup().Some? ==> Layer(p) == m.LastStep(p.pos)
    ensures m.compute(p.pos, p.tokenIndex, StepOf(p), p.input).nextToken == EvalToken(m, p.generated)
  {
    assert m.HasGroup(p.pos) <==> p.ExpertGroup().Some?;
    if m.HasGroup(p.pos) {
      assert EvalLayers(m, p.tokenIndex, p.pos, Layer(p), m.LastStep(p.pos), p.input) == Some(p.input);
    }
  }

  lemma NextTokenKeeps(m: Model, s: Session, net: Net, token: u32)
    requires WellFormed(m) && Inv(m, s) && s.pipeline.Some? && s.handlers == map[]
    requires EvalToken(m, s.pipeline.value.generated) == Some(token) && !s.pipeline.value.IsLastToken()
    ensures var p := s.pipeline.value;
            Inv(m, DispatchCurrent(s.(pipeline := Some(p.(generated := p.generated + [token], pos := 0,
              tokenIndex := p.tokenIndex + 1, input := NextToken(token), walk := None))), net))
  {
    var p := s.pipeline.value;
    var p2 := p.(generated := p.generated + [token], pos := 0, tokenIndex := p.tokenIndex + 1,
                 input := NextToken(token), walk := None);
    assert Generate(m, p2.tokenIndex) == Some(p2.generated);
    if s.assignment.Some? { Overtaken(m, p, p2, s.assignment.value); }
    assert PipelineInv(m, s.(pipeline := Some(p2)), p2);
    DispatchKeeps(m, s.(pipeline := Some(p2)), net);
  }

  lemma FinalizeKeeps(m: Model, s: Session, token: u32)
    requires WellFormed(m) && Inv(m, s) && s.pipeline.Some?
    requires EvalToken(m, s.pipeline.value.generated) == Some(token) && s.pipeline.value.IsLastToken()
    ensures Inv(m, Finalize(s.(pipeline := Some(s.pipeline.value.(generated := s.pipeline.value.generated + [token])))))
  {
    var p := s.pipeline.value;
    assert Generate(m, p.tokenIndex + 1) == Some(p.generated + [token]);
    assert p.tokenIndex + 1 == m.Goal();
  }

  lemma DecodeKeeps(m: Model, s: Session, net: Net, r: Reply)
    requires WellFormed(m) && Inv(m, s) && s.pipeline.Some? && s.handlers == map[]
    requires r.output.nextToken == EvalToken(m, s.pipeline.value.generated)
    ensures Inv(m, Decode(s, net, r))
  {
    if r.output.nextToken.Some? {
      if s.pipeline.value.IsLastToken() {
        FinalizeKeeps(m, s, r.output.nextToken.value);
      } else {
        NextTokenKeeps(m, s, net, r.output.nextToken.value);
      }
    }
  }

  lemma FanoutKeeps(m: Model, s: Session, w: Wallet, r: Reply, interior: bool, layer: nat)
    requires WellFormed(m) && Inv(m, s) && s.pipeline.Some? && s.handlers == map[]
    requires var p := s.pipeline.value;
             && Answers(m, p, w, r) && p.ExpertGroup().Some? && r.step == Some(layer)
             && p.Current().layerStart <= layer < p.Current().layerEnd
             && (interior <==> p.StaysOnShard(layer)) && (p.pos + 1 == |p.shards| ==> interior)
    ensures Inv(m, BeginFanout(s, w, r, interior, layer))
  {
    hide EvalShards, EvalToken, Generate;
  }

  lemma AcceptKeeps(m: Model, s: Session, e: Event)
    requires WellFormed(m) && Inv(m, s) && Honest(m, s, e) && Orderly(s, e) && e.ShardResult?
    ensures Inv(m, OnShardResult(s, e.wallet, e.reply))
  {
    hide EvalShards, EvalToken, Generate;
    if Accepts(s, e.wallet, e.reply) && s.pipeline.Some? {
      assert Answers(m, s.pipeline.value, e.wallet, e.reply);
    }
  }

  lemma FoundKeeps(m: Model, s: Session, net: Net, w: Wallet, resolved: bool)
    requires WellFormed(m) && Inv(m, s)
    ensures Inv(m, OnSourceFound(s, net, w, resolved))
  {
    hide EvalShards, EvalToken, Generate, Route;
    if w in s.handlers && s.handlers[w].Looking? {
      ResumedIsIdle(s, w);
      if s.pipeline.Some? && resolved {
        assert Working(m, s, s.pipeline.value, w, s.handlers[w]);
        var p := s.pipeline.value.(contributions := Bump(s.pipeline.value.contributions, w));
        var s1 := Resumed(s, w).(pipeline := Some(p));
        assert PipelineInv(m, s1, p);
        RouteKeeps(m, s1, net, w, s.handlers[w].reply);
      }
    }
  }

  lemma RouteKeeps(m: Model, s: Session, net: Net, w: Wallet, r: Reply)
    requires WellFormed(m) && Inv(m, s) && s.pipeline.Some? && s.handlers == map[]
    requires Answers(m, s.pipeline.value, w, r) && w in s.pipeline.value.contributions
    ensures Inv(m, Route(s, net, w, r))
  {
    hide EvalShards, EvalToken, Generate, Settle, BeginFanout;
    var p := s.pipeline.value;
    assert m.HasGroup(p.pos) <==> p.ExpertGroup().Some?;
    if r.step.Some? && p.StaysOnShard(r.step.value) {
      FanoutKeeps(m, s, w, r, true, r.step.value);
    } else if !p.IsLastToken() {
      SettleKeeps(m, s, net, w, r);
    }
  }

  lemma SettleKeeps(m: Model, s: Session, net: Net, w: Wallet, r: Reply)
    requires WellFormed(m) && Inv(m, s) && s.pipeline.Some? && s.handlers == map[]
    requires Answers(m, s.pipeline.value, w, r) && (r.step.Some? ==> !s.pipeline.value.StaysOnShard(r.step.value))
    ensures Inv(m, Settle(s, net, w, r))
  {
    var p := s.pipeline.value;
    assert m.HasGroup(p.pos) <==> p.ExpertGroup().Some?;
    if p.pos + 1 == |p.shards| { TokenDecoded(m, p); DecodeKeeps(m, s, net, r); }
    else if p.ExpertGroup().Some? { FanoutKeeps(m, s, w, r, false, r.step.value); }
    else { DenseKeeps(m, s, net, r); }
  }

  lemma SubmitDoneKeeps(m: Model, s: Session, net: Net, w: Wallet, submitted: bool)
    requires WellFormed(m) && Inv(m, s)
    ensures Inv(m, OnSubmitDone(s, net, w, submitted))
  {
    hide EvalShards, EvalToken, Generate, Settle;
    if w in s.handlers && s.handlers[w].Submitting? {
      ResumedIsIdle(s, w);
      var r := s.handlers[w].reply;
      if s.pipeline.Some? && submitted {
        assert Working(m, s, s.pipeline.value, w, s.handlers[w]);
        var s1 := Resumed(s, w).(submits := s.submits + [Submit(r.shardIndex, r.tokenIndex, r.outputHash)]);
        assert PipelineInv(m, s1, s.pipeline.value);
        SettleKeeps(m, s1, net, w, r);
      }
    }
  }

  lemma SizedKeeps(m: Model, s: Session, w: Wallet)
    requires WellFormed(m) && Inv(m, s)
    ensures Inv(m, OnSized(s, w))
  {
    hide EvalShards, EvalToken, Generate;
    if w in s.handlers && s.handlers[w].Sizing? && s.pipeline.Some? {
      assert Working(m, s, s.pipeline.value, w, s.handlers[w]);
    }
  }

  /** Joining an interior layer leaves the rest of the walk; joining the last one leaves the next shard. */
  lemma LayerJoined(m: Model, p: Pipeline, t: Tensor)
    requires WellFormed(m) && Shaped(m, p) && OnTrack(m, p) && m.HasGroup(p.pos)
    requires p.Current().layerStart <= Layer(p) < p.Current().layerEnd
    requires EvalLayer(m, p.tokenIndex, p.pos, Layer(p), p.input) == Some(Hidden(t))
    ensures p.pos + 1 < |p.shards| && Layer(p) + 1 == p.Current().layerEnd ==>
              EvalShards(m, p.tokenIndex, p.pos + 1, p.shards[p.pos + 1].layerStart, Hidden(t)) ==
                EvalToken(m, p.generated)
    ensures (p.pos + 1 == |p.shards| || Layer(p) + 1 < p.Current().layerEnd) && Layer(p) < m.WalkEnd(p.pos) ==>
              EvalShards(m, p.tokenIndex, p.pos, Layer(p) + 1, Hidden(t)) == EvalToken(m, p.generated)
  {
    if Layer(p) < m.WalkEnd(p.pos) {
      assert EvalLayers(m, p.tokenIndex, p.pos, Layer(p), m.WalkEnd(p.pos), p.input)
          == EvalLayers(m, p.tokenIndex, p.pos, Layer(p) + 1, m.WalkEnd(p.pos), Hidden(t));
    }
  }

  lemma InteriorJoinKeeps(m: Model, s: Session, net: Net, w: Wallet, t: Tensor)
    requires WellFormed(m) && Inv(m, s) && s.pipeline.Some?
    requires w in s.handlers && s.handlers[w].Joining? && s.handlers[w].fanout.interior
    requires var p := s.pipeline.value; EvalLayer(m, p.tokenIndex, p.pos, Layer(p), p.input) == Some(Hidden(t))
    ensures Inv(m, OnFanoutDone(s, net, w, Some(t)))
  {
    var p, f := s.pipeline.value, s.handlers[w].fanout;
    assert Working(m, s, p, w, s.handlers[w]);
    ResumedIsIdle(s, w);
    assert m.HasGroup(p.pos);
    LayerJoined(m, p, t);
    hide EvalShards, EvalToken, EvalLayer, Generate, DispatchCurrent;
    var p1 := p.(input := Hidden(t), walk := Some(Walk(f.layer + 1, w)));
    var s1 := Resumed(s, w).(trail := s.trail + [Applied(p.tokenIndex, p.pos, f.layer, w)],
                             pipeline := Some(p1), assignment := None);
    assert PipelineInv(m, s1, p1);
    DispatchKeeps(m, s1, net);
  }

  lemma BoundaryJoinKeeps(m: Model, s: Session, net: Net, w: Wallet, t: Tensor)
    requires WellFormed(m) && Inv(m, s) && s.pipeline.Some?
    requires w in s.handlers && s.handlers[w].Joining? && !s.handlers[w].fanout.interior
    requires var p := s.pipeline.value; EvalLayer(m, p.tokenIndex, p.pos, Layer(p), p.input) == Some(Hidden(t))
    ensures Inv(m, OnFanoutDone(s, net, w, Some(t)))
  {
    var p, f := s.pipeline.value, s.handlers[w].fanout;
    assert Working(m, s, p, w, s.handlers[w]);
    ResumedIsIdle(s, w);
    assert m.HasGroup(p.pos);
    LayerJoined(m, p, t);
    var s1 := Resumed(s, w).(trail := s.trail + [Applied(p.tokenIndex, p.pos, f.layer, w)]);
    assert PipelineInv(m, s1, p);
    HandoffKeeps(m, s1, net, t);
  }

  lemma FanoutDoneKeeps(m: Model, s: Session, net: Net, e: Event)
    requires WellFormed(m) && Inv(m, s) && Honest(m, s, e) && e.FanoutDone?
    ensures Inv(m, OnFanoutDone(s, net, e.wallet, e.combined))
  {
    var w := e.wallet;
    if w in s.handlers && s.handlers[w].Joining? {
      ResumedIsIdle(s, w);
      if s.pipeline.Some? {
        assert Working(m, s, s.pipeline.value, w, s.handlers[w]);
        if e.combined.Some? {
          if s.handlers[w].fanout.interior {
            InteriorJoinKeeps(m, s, net, w, e.combined.value);
          } else {
            BoundaryJoinKeeps(m, s, net, w, e.combined.value);
          }
        }
      }
    }
  }

  lemma DisconnectKeeps(m: Model, s: Session, w: Wallet)
    requires WellFormed(m) && Inv(m, s)
    ensures Inv(m, OnDisconnect(s, w))
  {
    hide EvalShards, EvalToken, Generate;
    var s2 := OnDisconnect(s, w);
    if s.pipeline.Some? {
      forall v | v in s2.handlers ensures Working(m, s2, s.pipeline.value, v, s2.handlers[v]) {
        assert Working(m, s, s.pipeline.value, v, s.handlers[v]);
      }
    }
  }

  lemma StepKeeps(m: Model, s: Session, net: Net, e: Event)
    requires WellFormed(m) && Inv(m, s) && Honest(m, s, e) && Orderly(s, e)
    ensures Inv(m, Step(s, net, e))
  {
    hide Inv;
    match e
    case ShardResult(_, _) => AcceptKeeps(m, s, e);
    case SourceFound(w, resolved) => FoundKeeps(m, s, net, w, resolved);
    case SubmitDone(w, submitted) => SubmitDoneKeeps(m, s, net, w, submitted);
    case Sized(w) => SizedKeeps(m, s, w);
    case FanoutDone(_, _) => FanoutDoneKeeps(m, s, net, e);
    case RetryTick(_, _) => DispatchKeeps(m, s, net);
    case Disconnect(w) => DisconnectKeeps(m, s, w);
  }
}
