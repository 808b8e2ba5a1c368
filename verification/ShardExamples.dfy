/** Honest and orderly runs of a small graph: one submits a shard twice, one leaves a marker behind. */
module ShardExamples {
  import opened Common
  import opened Attribution
  import opened Bytes
  import opened ShardSession
  import opened ShardDecoding
  import opened ShardProgress
  import opened ShardRuns

  const BLANK := Tensor([], "")
  const ROUTED := Output(BLANK, None, Some([[Choice(7, 1.0)]]))
  const DECODED := Output(BLANK, Some(0), None)
  const FIRST := Reply(0, 0, Some(0), "h", ROUTED)
  const SECOND := Reply(1, 0, None, "h", DECODED)
  const LAST_JOIN := Fanout(false, 0, 0, 1, 0, 0, BLANK, [Choice(7, 1.0)])

  /** A shard with one expert layer, then a plain shard that ends the model; one token. */
  function TwoShards(): Model {
    Model([Shard(0, 0, 1), Shard(1, 1, 2)], 2, map[(0, 1) := [7]], 1, "",
          (pos: nat, token: nat, step: Option<nat>, x: Input) => if pos == 0 then ROUTED else DECODED,
          (pos: nat, token: nat, layer: nat, t: Tensor, experts: seq<Choice>) => t)
  }

  function Miner(): Net {
    Net(Some("m"), {"m"})
  }

  function Nobody(): Net {
    Net(None, {"m"})
  }

  lemma TwoShardsWellFormed()
    ensures WellFormed(TwoShards()) && TwoShards().HasGroup(0) && !TwoShards().HasGroup(1)
  {
    var m := TwoShards();
    assert (0, 1) in m.groups && (1, 2) !in m.groups;
  }

  predicate OfTwoShards(p: Pipeline) {
    && p.shards == TwoShards().shards && p.numLayers == 2 && p.expertGroups == TwoShards().groups && p.maxTokens == 1
    && p.tokenIndex == 0 && p.generated == []
  }

  /** The request is at the first shard's only step. */
  predicate AtFirst(s: Session, busy: bool, handlers: map<Wallet, Handler>) {
    && s.pipeline.Some? && s.responses == [] && s.handlers == handlers
    && var p := s.pipeline.value;
    && OfTwoShards(p) && p.pos == 0 && p.input == Prompt("") && p.walk == Some(Walk(0, "m"))
    && s.assignment == if busy then Some(Assignment("m", 0, 0, Some(0))) else None
  }

  /** The request is at the second shard. */
  predicate AtSecond(s: Session, assignment: Option<Assignment>, handlers: map<Wallet, Handler>) {
    && s.pipeline.Some? && s.responses == [] && s.handlers == handlers && s.assignment == assignment
    && var p := s.pipeline.value;
    && OfTwoShards(p) && p.pos == 1 && p.input == Hidden(BLANK) && p.walk.None?
    && (handlers != map[] ==> p.contributions != map[])
  }

  lemma BeginsAtFirst()
    ensures AtFirst(Begin(TwoShards(), Miner()), true, map[]) && Begin(TwoShards(), Miner()).submits == []
  {
    TwoShardsWellFormed();
  }

  // ---- One event after the other ----------------------------------------------------------------------------------

  /** What an event does in these runs, and that it is allowed. */
  ghost predicate Takes(s: Session, net: Net, e: Event, s2: Session) {
    Honest(TwoShards(), s, e) && Orderly(s, e) && Step(s, net, e) == s2
  }

  lemma FirstAnswered(s: Session) returns (s2: Session)
    requires AtFirst(s, true, map[])
    ensures Takes(s, Miner(), ShardResult("m", FIRST), s2)
    ensures AtFirst(s2, false, map["m" := Looking(FIRST)]) && s2.submits == s.submits
  {
    TwoShardsWellFormed();
    s2 := Step(s, Miner(), ShardResult("m", FIRST));
    assert s.pipeline.value.ExpertGroup() == Some([7]);
  }

  lemma FirstFound(s: Session) returns (s2: Session)
    requires AtFirst(s, false, map["m" := Looking(FIRST)])
    ensures Takes(s, Miner(), SourceFound("m", true), s2)
    ensures AtFirst(s2, false, map["m" := Submitting(FIRST)]) && s2.submits == s.submits
  {
    s2 := Step(s, Miner(), SourceFound("m", true));
    assert s2.handlers == map["m" := Submitting(FIRST)];
  }

  /** The answer of the first shard is submitted before its last fan-out. */
  lemma FirstSubmitted(s: Session) returns (s2: Session)
    requires AtFirst(s, false, map["m" := Submitting(FIRST)])
    ensures Takes(s, Miner(), SubmitDone("m", true), s2)
    ensures AtFirst(s2, false, map["m" := Sizing(LAST_JOIN)]) && s2.submits == s.submits + [Submit(0, 0, "h")]
  {
    TwoShardsWellFormed();
    s2 := Step(s, Miner(), SubmitDone("m", true));
    assert s.pipeline.value.ExpertGroup() == Some([7]);
    assert [[Choice(7, 1.0)]][0] == [Choice(7, 1.0)];
    assert IsF32Hex("");
    assert !Unregistered([[Choice(7, 1.0)]], [7]);
    assert s2.handlers == map["m" := Sizing(LAST_JOIN)];
  }

  lemma FirstSized(s: Session) returns (s2: Session)
    requires AtFirst(s, false, map["m" := Sizing(LAST_JOIN)])
    ensures Takes(s, Miner(), Sized("m"), s2)
    ensures AtFirst(s2, true, map["m" := Joining(LAST_JOIN)]) && s2.submits == s.submits
  {
    s2 := Step(s, Miner(), Sized("m"));
  }

  lemma JoinFails(s: Session) returns (s2: Session)
    requires AtFirst(s, true, map["m" := Joining(LAST_JOIN)])
    ensures Takes(s, Miner(), FanoutDone("m", None), s2)
    ensures AtFirst(s2, false, map[]) && s2.submits == s.submits
  {
    s2 := Step(s, Miner(), FanoutDone("m", None));
    assert s2.handlers == map[];
  }

  lemma FirstAgain(s: Session) returns (s2: Session)
    requires AtFirst(s, false, map[])
    ensures Takes(s, Miner(), RetryTick(true, false), s2)
    ensures AtFirst(s2, true, map[]) && s2.submits == s.submits
  {
    s2 := Step(s, Miner(), RetryTick(true, false));
  }

  /** The join succeeds and hands over to the second shard, or to nobody. */
  lemma JoinHandsOver(s: Session, net: Net) returns (s2: Session)
    requires AtFirst(s, true, map["m" := Joining(LAST_JOIN)]) && net in {Miner(), Nobody()}
    ensures Takes(s, net, FanoutDone("m", Some(BLANK)), s2) && s2.submits == s.submits
    ensures var a := if net == Miner() then Assignment("m", 1, 0, None) else Assignment("m", 0, 0, Some(0));
            AtSecond(s2, Some(a), map[])
  {
    TwoShardsWellFormed();
    s2 := Step(s, net, FanoutDone("m", Some(BLANK)));
    assert s2.handlers == map[];
  }

  lemma SecondAnswered(s: Session) returns (s2: Session)
    requires AtSecond(s, Some(Assignment("m", 1, 0, None)), map[])
    ensures Takes(s, Miner(), ShardResult("m", SECOND), s2)
    ensures s2 == s.(assignment := None, handlers := map["m" := Looking(SECOND)])
  {
    TwoShardsWellFormed();
    s2 := Step(s, Miner(), ShardResult("m", SECOND));
  }

  lemma SecondFound(s: Session) returns (s2: Session)
    requires AtSecond(s.(assignment := None, handlers := map[]), None, map[])
    requires s.assignment.None? && s.handlers == map["m" := Looking(SECOND)]
    ensures Takes(s, Miner(), SourceFound("m", true), s2)
    ensures AtSecond(s2, None, map["m" := Submitting(SECOND)]) && s2.submits == s.submits
  {
    TwoShardsWellFormed();
    s2 := Step(s, Miner(), SourceFound("m", true));
    assert "m" in s2.pipeline.value.contributions;
    assert s2.handlers == map["m" := Submitting(SECOND)];
  }

  lemma SecondFinishes(s: Session) returns (s2: Session)
    requires AtSecond(s, None, map["m" := Submitting(SECOND)])
    ensures Takes(s, Miner(), SubmitDone("m", true), s2)
    ensures s2.responses != [] && s2.submits == s.submits + [Submit(1, 0, "h")]
  {
    TwoShardsWellFormed();
    s2 := Step(s, Miner(), SubmitDone("m", true));
  }

  // ---- Whole runs -------------------------------------------------------------------------------------------------

  /** An honest and orderly run leads from the start of the request to `s`. */
  ghost predicate Reached(run: seq<Stimulus>, s: Session)
    requires WellFormed(TwoShards())
  {
    Regular(TwoShards(), Begin(TwoShards(), Miner()), run) && After(TwoShards(), Miner(), run).s == s
  }

  lemma ReachNext(run: seq<Stimulus>, s: Session, net: Net, e: Event, s2: Session) returns (longer: seq<Stimulus>)
    requires WellFormed(TwoShards()) && Reached(run, s) && Takes(s, net, e, s2)
    ensures Reached(longer, s2)
  {
    hide Step, Honest, Orderly, Begin;
    RunGrows(TwoShards(), History(Begin(TwoShards(), Miner()), Tally([], 0, 0, [])), run, Stimulus(net, e));
    longer := run + [Stimulus(net, e)];
  }

  /** From the assigned first shard to its last fan-out, which a submission precedes. */
  lemma FirstShardJoins(run: seq<Stimulus>, s: Session) returns (longer: seq<Stimulus>, s2: Session)
    requires WellFormed(TwoShards()) && Reached(run, s) && AtFirst(s, true, map[])
    ensures Reached(longer, s2) && AtFirst(s2, true, map["m" := Joining(LAST_JOIN)])
    ensures s2.submits == s.submits + [Submit(0, 0, "h")]
  {
    hide Reached, Takes, AtFirst;
    s2 := FirstAnswered(s);
    longer := ReachNext(run, s, Miner(), ShardResult("m", FIRST), s2);
    var s3 := FirstFound(s2);
    longer := ReachNext(longer, s2, Miner(), SourceFound("m", true), s3);
    var s4 := FirstSubmitted(s3);
    longer := ReachNext(longer, s3, Miner(), SubmitDone("m", true), s4);
    s2 := FirstSized(s4);
    longer := ReachNext(longer, s4, Miner(), Sized("m"), s2);
  }

  lemma FirstShardJoining() returns (run: seq<Stimulus>, s: Session)
    ensures WellFormed(TwoShards()) && Reached(run, s) && AtFirst(s, true, map["m" := Joining(LAST_JOIN)])
    ensures s.submits == [Submit(0, 0, "h")]
  {
    TwoShardsWellFormed();
    BeginsAtFirst();
    assert Reached([], Begin(TwoShards(), Miner()));
    run, s := FirstShardJoins([], Begin(TwoShards(), Miner()));
  }

  lemma FinishedAfterTwo() returns (run: seq<Stimulus>, s: Session)
    ensures WellFormed(TwoShards()) && Reached(run, s) && s.responses != []
    ensures s.submits == [Submit(0, 0, "h"), Submit(0, 0, "h"), Submit(1, 0, "h")]
  {
    var s1: Session;
    run, s1 := FirstShardJoining();
    hide Reached, Takes, AtFirst;
    var s2 := JoinFails(s1);
    run := ReachNext(run, s1, Miner(), FanoutDone("m", None), s2);
    var s3 := FirstAgain(s2);
    run := ReachNext(run, s2, Miner(), RetryTick(true, false), s3);
    var s4: Session;
    run, s4 := FirstShardJoins(run, s3);
    var s5 := JoinHandsOver(s4, Miner());
    run := ReachNext(run, s4, Miner(), FanoutDone("m", Some(BLANK)), s5);
    run, s := SecondShardFinishes(run, s5);
  }

  lemma SecondShardFinishes(run: seq<Stimulus>, s: Session) returns (longer: seq<Stimulus>, s2: Session)
    requires WellFormed(TwoShards()) && Reached(run, s) && AtSecond(s, Some(Assignment("m", 1, 0, None)), map[])
    ensures Reached(longer, s2) && s2.responses != [] && s2.submits == s.submits + [Submit(1, 0, "h")]
  {
    hide Reached, Takes;
    s2 := SecondAnswered(s);
    longer := ReachNext(run, s, Miner(), ShardResult("m", SECOND), s2);
    var s3 := SecondFound(s2);
    longer := ReachNext(longer, s2, Miner(), SourceFound("m", true), s3);
    s2 := SecondFinishes(s3);
    longer := ReachNext(longer, s3, Miner(), SubmitDone("m", true), s2);
  }

  /** An honest and orderly run that finishes after submitting its first shard twice. */
  lemma SubmittedTwice() returns (run: seq<Stimulus>)
    ensures WellFormed(TwoShards()) && Regular(TwoShards(), Begin(TwoShards(), Miner()), run)
    ensures var h := After(TwoShards(), Miner(), run);
            && h.s.responses != [] && TimesSubmitted(h.s.submits, 0) == 2 && TimesInVain(h.tally.inVain, 0) == 1
  {
    var s: Session;
    run, s := FinishedAfterTwo();
    hide Regular, Follow, TimesSubmitted, TimesInVain;
    CountedTwice();
    SubmittedOnceIffNeverInVain(TwoShards(), Miner(), run, 0);
  }

  lemma CountedTwice()
    ensures TimesSubmitted([Submit(0, 0, "h"), Submit(0, 0, "h"), Submit(1, 0, "h")], 0) == 2
  {
    var subs := [Submit(0, 0, "h"), Submit(0, 0, "h"), Submit(1, 0, "h")];
    assert subs[..2][..1][..0] == [];
    assert TimesSubmitted(subs[..2][..1], 0) == 1;
  }

  /** An honest and orderly run after which the marker of the first shard is left behind. */
  lemma MarkerIsLeft() returns (run: seq<Stimulus>)
    ensures WellFormed(TwoShards()) && Regular(TwoShards(), Begin(TwoShards(), Miner()), run)
    ensures var s := After(TwoShards(), Miner(), run).s;
            && s.pipeline.Some? && s.assignment.Some? && s.handlers == map[]
            && LeftBehind(TwoShards(), s.pipeline.value, s.assignment.value)
  {
    TwoShardsWellFormed();
    var s: Session;
    run, s := FirstShardJoining();
    var s2 := JoinHandsOver(s, Nobody());
    hide Takes;
    run := ReachNext(run, s, Nobody(), FanoutDone("m", Some(BLANK)), s2);
    assert s2.assignment.value.shardIndex == TwoShards().shards[0].index;
  }
}
