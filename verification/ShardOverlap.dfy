/** What goes wrong when a reply is accepted out of order.

    While a handler waits, its request has no assignment, so a tick dispatches the same step to a second miner. If that
    miner's reply is accepted as well, be it during the wait or afterwards, the request moves on twice. */
module ShardOverlap {
  import opened Common
  import opened Attribution
  import opened ShardSession
  import opened ShardDecoding
  import opened ShardProgress
  import opened ShardRuns

  /** Two replies whose submissions are awaited at once move any request two plain shards on: the second shard is never
      asked, the third is fed what the first one computed, and both submissions are for the step answered. */
  lemma OverlapSkipsAShard(s: Session, v: Wallet, w: Wallet, net: Net, net2: Net)
    requires s.pipeline.Some? && v in s.handlers && w in s.handlers && v != w
    requires s.handlers[v].Submitting? && s.handlers[w].Submitting?
    requires var p := s.pipeline.value;
             && p.pos + 2 < |p.shards| && p.ExpertGroup().None? && p.(pos := p.pos + 1).ExpertGroup().None?
    ensures var p, s2 := s.pipeline.value, Step(Step(s, net, SubmitDone(v, true)), net2, SubmitDone(w, true));
            var a, b := s.handlers[v].reply, s.handlers[w].reply;
            && s2.pipeline.Some? && s2.pipeline.value.pos == p.pos + 2
            && s2.pipeline.value.input == Hidden(b.output.tensor)
            && s2.submits == s.submits + [Submit(a.shardIndex, a.tokenIndex, a.outputHash),
                                          Submit(b.shardIndex, b.tokenIndex, b.outputHash)]
  {
    MovesOn(s, v, net);
    hide Step;
    MovesOn(Step(s, net, SubmitDone(v, true)), w, net2);
  }

  lemma MovesOn(s: Session, w: Wallet, net: Net)
    requires s.pipeline.Some? && w in s.handlers && s.handlers[w].Submitting?
    requires s.pipeline.value.pos + 1 < |s.pipeline.value.shards| && s.pipeline.value.ExpertGroup().None?
    ensures var p, s2, r := s.pipeline.value, Step(s, net, SubmitDone(w, true)), s.handlers[w].reply;
            && s2.handlers == s.handlers - {w} && s2.pipeline.Some?
            && s2.submits == s.submits + [Submit(r.shardIndex, r.tokenIndex, r.outputHash)]
            && s2.pipeline.value.pos == p.pos + 1 && s2.pipeline.value.input == Hidden(r.output.tensor)
            && s2.pipeline.value.shards == p.shards && s2.pipeline.value.expertGroups == p.expertGroups
  {
  }

  // ---- A request of three plain shards and one token ----------------------------------------------------------------

  const ONE := Tensor([], "1")
  const TWO := Tensor([], "2")

  function Answer(pos: nat, x: Input): Output {
    if pos == 0 then Output(ONE, None, None)
    else if pos == 1 then Output(TWO, None, None)
    else Output(TWO, Some(if x == Hidden(TWO) then 1 else 0), None)
  }

  function ThreeShards(): Model {
    Model([Shard(0, 0, 1), Shard(1, 1, 2), Shard(2, 2, 3)], 3, map[], 1, "",
          (pos: nat, token: nat, step: Option<nat>, x: Input) => Answer(pos, x),
          (pos: nat, token: nat, layer: nat, t: Tensor, experts: seq<Choice>) => t)
  }

  function To(w: Wallet): Net {
    Net(Some(w), {"a", "b", "c"})
  }

  function Nobody(): Net {
    Net(None, {"a", "b", "c"})
  }

  const FIRST := Reply(0, 0, None, "h", Answer(0, Prompt("")))
  const THIRD := Reply(2, 0, None, "h", Answer(2, Hidden(ONE)))

  lemma RightTokenIsOne()
    ensures WellFormed(ThreeShards()) && !ThreeShards().HasGroup(0) && Generate(ThreeShards(), 1) == Some([1])
  {
    var m := ThreeShards();
    assert forall i | 0 <= i < 3 :: !m.HasGroup(i);
    assert EvalShards(m, 0, 2, 2, Hidden(TWO)) == Some(1);
    assert EvalShards(m, 0, 1, 1, Hidden(ONE)) == Some(1);
    assert EvalShards(m, 0, 0, 0, Prompt("")) == Some(1);
    hide EvalShards;
    assert Generate(m, 0) == Some([]);
    assert EvalToken(m, []) == Some(1);
    assert [] + [1] == [1];
  }

  predicate OfThreeShards(p: Pipeline) {
    && p.shards == ThreeShards().shards && p.numLayers == 3 && p.expertGroups == map[] && p.maxTokens == 1
    && p.tokenIndex == 0 && p.generated == [] && p.walk.None?
  }

  /** Where the request is, who has it, and who is handling a reply. */
  predicate Stands(s: Session, pos: nat, input: Input, assignment: Option<Assignment>, handlers: map<Wallet, Handler>,
                   submits: seq<Submit>)
  {
    && s.pipeline.Some? && s.responses == [] && s.assignment == assignment && s.handlers == handlers
    && s.submits == submits
    && OfThreeShards(s.pipeline.value) && s.pipeline.value.pos == pos && s.pipeline.value.input == input
  }

  function AssignedTo(w: Wallet, shard: u32): Option<Assignment> {
    Some(Assignment(w, shard, 0, None))
  }

  function Twice(): seq<Submit> {
    [Submit(0, 0, "h"), Submit(0, 0, "h")]
  }

  // ---- The two ways to accept a reply out of order -----------------------------------------------------------------

  /** An honest run leads from the start of the request, handed to "a", to `s`. */
  ghost predicate Reached(run: seq<Stimulus>, s: Session) {
    HonestRun(ThreeShards(), Begin(ThreeShards(), To("a")), run) && After(ThreeShards(), To("a"), run).s == s
  }

  lemma ReachNext(run: seq<Stimulus>, s: Session, net: Net, e: Event) returns (longer: seq<Stimulus>, s2: Session)
    requires Reached(run, s) && Honest(ThreeShards(), s, e)
    ensures s2 == Step(s, net, e) && Reached(longer, s2)
  {
    hide Step, Honest, Begin;
    RunGrows(ThreeShards(), History(Begin(ThreeShards(), To("a")), Tally([], 0, 0, [])), run, Stimulus(net, e));
    longer, s2 := run + [Stimulus(net, e)], Step(s, net, e);
  }

  /** "a" has answered, its submission is awaited, and a tick has handed the same step to "b". */
  lemma HandedOutTwice() returns (run: seq<Stimulus>, s: Session)
    ensures Reached(run, s)
    ensures Stands(s, 0, Prompt(""), AssignedTo("b", 0), map["a" := Submitting(FIRST)], [])
  {
    var s0 := Begin(ThreeShards(), To("a"));
    assert Reached([], s0);
    assert Stands(s0, 0, Prompt(""), AssignedTo("a", 0), map[], []);
    var s1, s2: Session;
    run, s1 := ReachNext([], s0, To("a"), ShardResult("a", FIRST));
    assert Stands(s1, 0, Prompt(""), None, map["a" := Looking(FIRST)], []);
    run, s2 := ReachNext(run, s1, To("a"), SourceFound("a", true));
    assert Stands(s2, 0, Prompt(""), None, map["a" := Submitting(FIRST)], []);
    run, s := ReachNext(run, s2, To("b"), RetryTick(true, false));
  }

  /** "b" answers while the submission for "a" is still awaited. */
  lemma BothAreSubmitting() returns (run: seq<Stimulus>, s: Session)
    ensures Reached(run, s)
    ensures Stands(s, 0, Prompt(""), None, map["a" := Submitting(FIRST), "b" := Submitting(FIRST)], [])
  {
    hide Reached;
    var s1, s2: Session;
    run, s1 := HandedOutTwice();
    run, s2 := ReachNext(run, s1, To("c"), ShardResult("b", FIRST));
    assert Stands(s2, 0, Prompt(""), None, map["a" := Submitting(FIRST), "b" := Looking(FIRST)], []);
    run, s := ReachNext(run, s2, To("c"), SourceFound("b", true));
    assert Stands(s, 0, Prompt(""), None, map["a" := Submitting(FIRST), "b" := Submitting(FIRST)], []);
  }

  lemma AnsweredDuringTheWait() returns (run: seq<Stimulus>, s: Session)
    ensures Reached(run, s) && Stands(s, 2, Hidden(ONE), AssignedTo("c", 2), map[], Twice())
  {
    hide Reached;
    var s1, s2: Session;
    run, s1 := BothAreSubmitting();
    run, s2 := ReachNext(run, s1, To("c"), SubmitDone("a", true));
    assert Stands(s2, 1, Hidden(ONE), AssignedTo("c", 1), map["b" := Submitting(FIRST)], [Submit(0, 0, "h")]);
    run, s := ReachNext(run, s2, To("c"), SubmitDone("b", true));
    assert Stands(s, 2, Hidden(ONE), AssignedTo("c", 2), map[], Twice());
  }

  /** Or nobody can be picked for the second shard when the submission ends, "b" keeps its assignment, and answers. */
  lemma AnsweredAfterTheWait() returns (run: seq<Stimulus>, s: Session)
    ensures Reached(run, s) && Stands(s, 2, Hidden(ONE), AssignedTo("c", 2), map[], Twice())
  {
    hide Reached;
    var s1, s2, s3, s4: Session;
    run, s1 := HandedOutTwice();
    run, s2 := ReachNext(run, s1, Nobody(), SubmitDone("a", true));
    assert Stands(s2, 1, Hidden(ONE), AssignedTo("b", 0), map[], [Submit(0, 0, "h")]);
    assert !Current(s2.pipeline.value, s2.assignment.value);
    run, s3 := ReachNext(run, s2, To("c"), ShardResult("b", FIRST));
    run, s4 := ReachNext(run, s3, To("c"), SourceFound("b", true));
    assert Stands(s4, 1, Hidden(ONE), None, map["b" := Submitting(FIRST)], [Submit(0, 0, "h")]);
    run, s := ReachNext(run, s4, To("c"), SubmitDone("b", true));
    assert Stands(s, 2, Hidden(ONE), AssignedTo("c", 2), map[], Twice());
  }

  /** Either way the third shard decodes from the first shard's output. */
  lemma WrongTokenIsRecorded(run: seq<Stimulus>, s: Session) returns (longer: seq<Stimulus>, s2: Session)
    requires Reached(run, s) && Stands(s, 2, Hidden(ONE), AssignedTo("c", 2), map[], Twice())
    ensures Reached(longer, s2)
    ensures |s2.responses| == 1 && s2.responses[0].tokens == [0] && s2.submits == Twice() + [Submit(2, 0, "h")]
  {
    hide Reached;
    var s3, s4: Session;
    longer, s3 := ReachNext(run, s, To("c"), ShardResult("c", THIRD));
    assert Stands(s3, 2, Hidden(ONE), None, map["c" := Looking(THIRD)], Twice());
    longer, s4 := ReachNext(longer, s3, To("c"), SourceFound("c", true));
    assert Stands(s4, 2, Hidden(ONE), None, map["c" := Submitting(THIRD)], Twice());
    assert "c" in s4.pipeline.value.contributions;
    longer, s2 := ReachNext(longer, s4, To("c"), SubmitDone("c", true));
  }

  /** The run is honest but not orderly, and finishes with a wrong token, its first plain shard submitted twice and its
      second one never. */
  ghost predicate GoesWrong(run: seq<Stimulus>)
    requires WellFormed(ThreeShards())
  {
    var m, s := ThreeShards(), After(ThreeShards(), To("a"), run).s;
    && HonestRun(m, Begin(m, To("a")), run) && !OrderlyRun(Begin(m, To("a")), run)
    && |s.responses| == 1 && Generate(m, m.Goal()) != Some(s.responses[0].tokens)
    && TimesSubmitted(s.submits, 0) == 2 && TimesSubmitted(s.submits, 1) == 0
  }

  lemma WrongIsOutOfOrder(run: seq<Stimulus>, s: Session)
    requires Reached(run, s) && |s.responses| == 1 && s.responses[0].tokens == [0]
    requires s.submits == Twice() + [Submit(2, 0, "h")]
    ensures WellFormed(ThreeShards()) && GoesWrong(run)
  {
    RightTokenIsOne();
    hide Generate, HonestRun, OrderlyRun, Follow;
    CountedSubmits();
    if OrderlyRun(Begin(ThreeShards(), To("a")), run) {
      PipelineRefinesNestedLoop(ThreeShards(), To("a"), run);
    }
  }

  lemma CountedSubmits()
    ensures var subs := Twice() + [Submit(2, 0, "h")]; TimesSubmitted(subs, 0) == 2 && TimesSubmitted(subs, 1) == 0
  {
    var subs := Twice() + [Submit(2, 0, "h")];
    assert subs[..2] == Twice() && Twice()[..1] == [Submit(0, 0, "h")];
    assert TimesSubmitted(Twice()[..1], 0) == 1 && TimesSubmitted(Twice()[..1], 1) == 0;
    assert TimesSubmitted(Twice(), 0) == 2 && TimesSubmitted(Twice(), 1) == 0;
  }

  /** The results about orderly runs fail outside them: when a second reply is accepted while a submission is
      awaited. */
  lemma SecondReplyDuringTheWait() returns (run: seq<Stimulus>)
    ensures WellFormed(ThreeShards()) && GoesWrong(run)
  {
    var s, s2: Session;
    run, s := AnsweredDuringTheWait();
    run, s2 := WrongTokenIsRecorded(run, s);
    WrongIsOutOfOrder(run, s2);
  }

  /** And when it is accepted afterwards for a step the request has left. */
  lemma ReplyToALeftStep() returns (run: seq<Stimulus>)
    ensures WellFormed(ThreeShards()) && GoesWrong(run)
  {
    var s, s2: Session;
    run, s := AnsweredAfterTheWait();
    run, s2 := WrongTokenIsRecorded(run, s);
    WrongIsOutOfOrder(run, s2);
  }
}
