/** How a request moves: every event leaves it where it is, advances it by exactly one step, or ends it. */
module ShardProgress {
  import opened Common
  import opened Attribution
  import opened ShardSession
  import opened ShardDecoding

  /** The step a request is at: token, shard position, and layer within the shard. */
  datatype Place = Place(token: nat, pos: nat, layer: nat)

  function At(p: Pipeline): Place {
    Place(p.tokenIndex, p.pos, Layer(p))
  }

  /** The step's output goes back to the same shard: an interior layer, or the last layer of the model. */
  ghost predicate Inner(m: Model, pl: Place)
    requires WellFormed(m) && pl.pos < |m.shards|
  {
    m.HasGroup(pl.pos) && (pl.layer + 1 < m.shards[pl.pos].layerEnd
                           || (pl.layer + 1 == m.shards[pl.pos].layerEnd && m.EndsModel(pl.pos)))
  }

  /** The step's experts are fanned out and combined. */
  ghost predicate Combines(m: Model, pl: Place)
    requires WellFormed(m) && pl.pos < |m.shards|
  {
    m.HasGroup(pl.pos) && pl.layer < m.WalkEnd(pl.pos)
  }

  /** The last layer of an expert shard that hands its output on to another shard. */
  ghost predicate AtBoundary(m: Model, pl: Place)
    requires WellFormed(m) && pl.pos < |m.shards|
  {
    m.HasGroup(pl.pos) && pl.pos + 1 < |m.shards| && !Inner(m, pl)
  }

  /** The step that follows in the nested loop. */
  ghost function Next(m: Model, pl: Place): Place
    requires WellFormed(m) && pl.pos < |m.shards|
  {
    if Inner(m, pl) then pl.(layer := pl.layer + 1)
    else if pl.pos + 1 < |m.shards| then Place(pl.token, pl.pos + 1, m.shards[pl.pos + 1].layerStart)
    else Place(pl.token + 1, 0, m.shards[0].layerStart)
  }

  // ---- What an event can do -----------------------------------------------------------------------------

  /** An accepted reply counts, and its attempt begins, when the model's source was found. */
  predicate Accepted(s: Session, e: Event) {
    && e.SourceFound? && e.resolved && e.wallet in s.handlers && s.handlers[e.wallet].Looking? && s.pipeline.Some?
  }

  predicate SubmitsNow(s: Session, e: Event) {
    e.SubmitDone? && e.submitted && e.wallet in s.handlers && s.handlers[e.wallet].Submitting?
  }

  predicate JoinsNow(s: Session, e: Event) {
    e.FanoutDone? && e.wallet in s.handlers && s.handlers[e.wallet].Joining?
  }

  /** An attempt is in flight: its handler waits for a submission or is in a fan-out. */
  predicate Attempting(s: Session) {
    exists w :: w in s.handlers && !s.handlers[w].Looking?
  }

  predicate Fanning(s: Session) {
    exists w :: w in s.handlers && (s.handlers[w].Sizing? || s.handlers[w].Joining?)
  }

  predicate OnLastToken(m: Model, pl: Place) {
    pl.token + 1 == m.Goal()
  }

  /** At most one dispatch was logged, and it names the step the request is at and a walk's pinned wallet. */
  ghost predicate Logged(m: Model, before: seq<Dispatch>, q: Pipeline) {
    || q.dispatchLog == before
    || (|q.dispatchLog| == |before| + 1 && q.dispatchLog[..|before|] == before
        && var d := q.dispatchLog[|before|];
           && d.shardIndex == q.Current().index && d.tokenIndex == q.tokenIndex && d.step == StepOf(q)
           && (d.step.Some? ==> q.walk.Some? && d.wallet == q.walk.value.wallet))
  }

  /** The walk keeps its wallet; a walk that has not begun may begin. */
  ghost predicate Pinned(before: Option<Walk>, q: Pipeline) {
    before.Some? ==> q.walk.Some? && q.walk.value.wallet == before.value.wallet
  }

  ghost predicate Submitted(s: Session, s2: Session, shardIndex: u32, token: nat) {
    && |s2.submits| == |s.submits| + 1 && s2.submits[..|s.submits|] == s.submits
    && s2.submits[|s.submits|].shardIndex == shardIndex && s2.submits[|s.submits|].tokenIndex == token
  }

  ghost predicate Credited(s: Session, e: Event, p: Pipeline, q: Pipeline) {
    q.contributions == if Accepted(s, e) then Bump(p.contributions, e.wallet) else p.contributions
  }

  /** No progress. The one visible effect besides dispatching is the submission that precedes a shard's last fan-out. */
  ghost predicate Stayed(m: Model, s: Session, e: Event, s2: Session)
    requires WellFormed(m)
  {
    && s.pipeline.Some? && s2.pipeline.Some?
    && var p, q := s.pipeline.value, s2.pipeline.value;
       && p.pos < |m.shards|
       && At(q) == At(p) && q.generated == p.generated && Pinned(p.walk, q) && Logged(m, p.dispatchLog, q)
       && Credited(s, e, p, q)
       && s2.trail == s.trail && s2.responses == s.responses
       && Continues(s, e, s2)
       && (if SubmitsNow(s, e)
           then AtBoundary(m, At(p)) && OnLastToken(m, At(p)) && Submitted(s, s2, m.shards[p.pos].index, p.tokenIndex)
           else s2.submits == s.submits && (!Inner(m, At(p)) && OnLastToken(m, At(p)) && Fanning(s2) ==> Fanning(s)))
  }

  /** How attempts begin and go on: with an accepted reply, and from the submission into the fan-out. */
  ghost predicate Continues(s: Session, e: Event, s2: Session) {
    && (Accepted(s, e) ==> !Attempting(s))
    && (Attempting(s2) ==> Attempting(s) || Accepted(s, e))
    && (SubmitsNow(s, e) ==> Attempting(s) && !Fanning(s))
    && (SubmitsNow(s, e) || Fanning(s) ==> (Attempting(s2) <==> Fanning(s2)))
  }

  /** Progress by exactly one step of the nested loop. */
  ghost predicate Advanced(m: Model, s: Session, e: Event, s2: Session)
    requires WellFormed(m)
  {
    && s.pipeline.Some? && s2.pipeline.Some? && s2.handlers == map[]
    && var p, q := s.pipeline.value, s2.pipeline.value;
       && p.pos < |m.shards|
       && At(q) == Next(m, At(p)) && q.tokenIndex < m.Goal() && Logged(m, p.dispatchLog, q) && Credited(s, e, p, q)
       && (Inner(m, At(p)) ==> Pinned(p.walk, q))
       && (Accepted(s, e) <==> !Attempting(s))
       && (Accepted(s, e) || SubmitsNow(s, e) || (JoinsNow(s, e) && e.combined.Some?))
       && (Combines(m, At(p)) <==> JoinsNow(s, e)) && (JoinsNow(s, e) <==> Fanning(s))
       && s2.responses == s.responses
       && s2.trail == s.trail + (if Combines(m, At(p)) then [Applied(p.tokenIndex, p.pos, Layer(p), e.wallet)] else [])
       && (Combines(m, At(p)) ==> p.walk.Some? && e.wallet == p.walk.value.wallet)
       && (if OnLastToken(m, At(p)) && !m.HasGroup(p.pos)
           then Submitted(s, s2, m.shards[p.pos].index, p.tokenIndex) else s2.submits == s.submits)
  }

  /** The last step of the last token: the response is recorded for the wallet that did most. */
  ghost predicate Finished(m: Model, s: Session, e: Event, s2: Session)
    requires WellFormed(m)
  {
    && s.pipeline.Some? && s2.pipeline.None? && s2.handlers == map[] && SubmitsNow(s, e) && !Fanning(s)
    && var p := s.pipeline.value;
       && p.pos + 1 == |m.shards| && OnLastToken(m, At(p)) && !Inner(m, At(p)) && !Combines(m, At(p))
       && s2.trail == s.trail
       && |s2.responses| == |s.responses| + 1 && s2.responses[..|s.responses|] == s.responses
       && IsWinner(p.contributions, s2.responses[|s.responses|].wallet)
       && Submitted(s, s2, m.shards[p.pos].index, p.tokenIndex)
  }

  /** The pipeline was dropped, perhaps right after a join, or was already gone. */
  ghost predicate Ended(s: Session, s2: Session) {
    && s2.pipeline.None? && s2.responses == s.responses
    && (s.pipeline.None? ==> s2.trail == s.trail)
    && (s.pipeline.None? && s.handlers == map[] ==> s2.submits == s.submits && s2.handlers == map[])
    && (s2.trail == s.trail
        || (s.pipeline.Some? && s.pipeline.value.walk.Some?
            && var p := s.pipeline.value;
               s2.trail == s.trail + [Applied(p.tokenIndex, p.pos, Layer(p), p.walk.value.wallet)]))
  }

  ghost predicate Moved(m: Model, s: Session, e: Event, s2: Session)
    requires WellFormed(m)
  {
    Stayed(m, s, e, s2) || Advanced(m, s, e, s2) || Finished(m, s, e, s2) || Ended(s, s2)
  }

  // ---- Every event is one of these moves ---------------------------------------------------------------------

  /** What a dispatch may change. */
  ghost predicate Dispatched(m: Model, s: Session, s2: Session)
    requires s.pipeline.Some?
  {
    && s2.trail == s.trail && s2.submits == s.submits && s2.responses == s.responses && s2.handlers == s.handlers
    && (s2.pipeline.None? ==> s.pipeline.value.walk.Some?)
    && (s2.pipeline.Some? ==>
          var p, q := s.pipeline.value, s2.pipeline.value;
          && q == p.(walk := q.walk, dispatchLog := q.dispatchLog)
          && (p.walk.Some? ==> q.walk == p.walk)
          && (p.walk.None? && q.walk.Some? ==> q.walk.value.layer == p.Current().layerStart)
          && Logged(m, p.dispatchLog, q))
  }

  lemma DispatchMoves(m: Model, s: Session, net: Net)
    requires s.pipeline.Some?
    requires s.pipeline.value.walk.Some? ==> s.pipeline.value.ExpertGroup().Some?
    ensures Dispatched(m, s, DispatchCurrent(s, net))
  {
  }

  lemma NoWalkNoDrop(s: Session, net: Net)
    requires s.pipeline.Some? && s.pipeline.value.walk.None?
    ensures DispatchCurrent(s, net).pipeline.Some?
  {
  }

  lemma FanningAttempts(s: Session)
    ensures Fanning(s) ==> Attempting(s)
  {
  }

  lemma SameHandlers(s: Session, s2: Session)
    requires s2.handlers == s.handlers
    ensures (Attempting(s2) <==> Attempting(s)) && (Fanning(s2) <==> Fanning(s))
  {
  }

  lemma TickMoves(m: Model, s: Session, net: Net, e: Event)
    requires WellFormed(m) && Inv(m, s) && e.RetryTick?
    ensures Moved(m, s, e, Step(s, net, e))
  {
    hide OnTrack, Working;
    var s2 := Step(s, net, e);
    assert s2 == s || s2 == DispatchCurrent(s, net);
    if s.pipeline.Some? {
      DispatchMoves(m, s, net);
      hide Step, DispatchCurrent, Attempting, Fanning;
      SameHandlers(s, s2);
      FanningAttempts(s);
      if s2.pipeline.Some? { assert Stayed(m, s, e, s2); } else { assert Ended(s, s2); }
    }
  }

  lemma DisconnectMoves(m: Model, s: Session, net: Net, e: Event)
    requires WellFormed(m) && Inv(m, s) && e.Disconnect?
    ensures Moved(m, s, e, Step(s, net, e))
  {
    var s2 := Step(s, net, e);
    if s.pipeline.Some? {
      FewerHandlers(s, e, s2);
      assert Stayed(m, s, e, s2);
    }
  }

  /** Where a handler went away, its attempt did. */
  lemma FewerHandlers(s: Session, e: Event, s2: Session)
    requires OneHandler(s) && !e.RetryTick?
    requires s2.handlers == s.handlers || s2.handlers == Resumed(s, e.wallet).handlers
    requires !Accepted(s, e) && !SubmitsNow(s, e)
    ensures Continues(s, e, s2) && (Fanning(s2) ==> Fanning(s))
  {
    if Fanning(s) {
      var w :| w in s.handlers && (s.handlers[w].Sizing? || s.handlers[w].Joining?);
      assert !s.handlers[w].Looking?;
      if Attempting(s2) { assert w in s2.handlers; }
    }
  }

  lemma AcceptMoves(m: Model, s: Session, net: Net, e: Event)
    requires WellFormed(m) && Inv(m, s) && Orderly(s, e) && e.ShardResult?
    ensures Moved(m, s, e, Step(s, net, e))
  {
    var s2 := Step(s, net, e);
    if s.pipeline.Some? {
      if Accepts(s, e.wallet, e.reply) {
        assert !Attempting(s) && !Attempting(s2) && !Fanning(s2);
      } else {
        FewerHandlers(s, e, s2);
      }
      assert Stayed(m, s, e, s2);
    }
  }

  lemma JoinMoves(m: Model, s: Session, net: Net, e: Event)
    requires WellFormed(m) && Inv(m, s) && JoinsNow(s, e) && e.combined.Some? && s.pipeline.Some?
    ensures Advanced(m, s, e, Step(s, net, e)) || Ended(s, Step(s, net, e))
  {
    hide OnTrack;
    var p, f, t := s.pipeline.value, s.handlers[e.wallet].fanout, e.combined.value;
    assert Working(m, s, p, e.wallet, s.handlers[e.wallet]);
    ResumedIsIdle(s, e.wallet);
    assert Attempting(s) && Fanning(s);
    assert m.HasGroup(p.pos) && (Inner(m, At(p)) <==> f.interior);
    var q := if f.interior then p.(input := Hidden(t), walk := Some(Walk(f.layer + 1, p.walk.value.wallet)))
             else p.(pos := p.pos + 1, input := Hidden(t), walk := None);
    var s3 := Resumed(s, e.wallet).(trail := s.trail + [Applied(p.tokenIndex, p.pos, f.layer, e.wallet)],
                                    pipeline := Some(q));
    assert Step(s, net, e) == DispatchCurrent(s3, net);
    assert At(q) == Next(m, At(p));
    hide DispatchCurrent, Inv;
    DispatchMoves(m, s3, net);
  }

  /** The join of a layer advances by one step; a failed one leaves everything where it was. */
  lemma FanoutMoves(m: Model, s: Session, net: Net, e: Event)
    requires WellFormed(m) && Inv(m, s) && e.FanoutDone?
    ensures Moved(m, s, e, Step(s, net, e))
  {
    var s2 := Step(s, net, e);
    if s.pipeline.Some? {
      if JoinsNow(s, e) {
        assert Working(m, s, s.pipeline.value, e.wallet, s.handlers[e.wallet]);
      }
      if JoinsNow(s, e) && e.combined.Some? {
        JoinMoves(m, s, net, e);
      } else {
        FewerHandlers(s, e, s2);
        assert Stayed(m, s, e, s2);
      }
    }
  }

  lemma SizedMoves(m: Model, s: Session, net: Net, e: Event)
    requires WellFormed(m) && Inv(m, s) && e.Sized?
    ensures Moved(m, s, e, Step(s, net, e))
  {
    hide OnTrack;
    var s2 := Step(s, net, e);
    if s.pipeline.Some? {
      if s2 != s {
        assert s.handlers[e.wallet].Sizing? && s2.handlers[e.wallet].Joining?;
        assert Fanning(s) && Fanning(s2) && Attempting(s) && Attempting(s2);
      } else if Fanning(s) {
        assert Attempting(s);
      }
      assert Stayed(m, s, e, s2);
    }
  }

  // ---- A reply is credited or submitted -----------------------------------------------------------------------

  /** The session once an accepted reply was credited, or once it was submitted. */
  ghost function Ready(s: Session, e: Event): Session
    requires (Accepted(s, e) || SubmitsNow(s, e)) && s.pipeline.Some?
  {
    var p, r := s.pipeline.value, s.handlers[e.wallet].reply;
    if Accepted(s, e) then Resumed(s, e.wallet).(pipeline := Some(p.(contributions := Bump(p.contributions, e.wallet))))
    else Resumed(s, e.wallet).(submits := s.submits + [Submit(r.shardIndex, r.tokenIndex, r.outputHash)])
  }

  /** The attempt of this event is the only one. */
  lemma OneAttempt(m: Model, s: Session, e: Event)
    requires WellFormed(m) && Inv(m, s) && s.pipeline.Some? && (Accepted(s, e) || SubmitsNow(s, e))
    ensures Ready(s, e).handlers == map[] && Answers(m, s.pipeline.value, e.wallet, s.handlers[e.wallet].reply)
    ensures (Accepted(s, e) <==> !Attempting(s)) && !Fanning(s)
    ensures SubmitsNow(s, e) ==>
              var r := s.handlers[e.wallet].reply;
              s.pipeline.value.IsLastToken() && (r.step.Some? ==> !s.pipeline.value.StaysOnShard(r.step.value))
  {
    ResumedIsIdle(s, e.wallet);
    assert Working(m, s, s.pipeline.value, e.wallet, s.handlers[e.wallet]);
    if SubmitsNow(s, e) { assert Attempting(s); }
  }

  lemma FoundMoves(m: Model, s: Session, net: Net, e: Event)
    requires WellFormed(m) && Inv(m, s) && e.SourceFound?
    ensures Moved(m, s, e, Step(s, net, e))
  {
    var s2 := Step(s, net, e);
    if s.pipeline.Some? {
      if Accepted(s, e) {
        OneAttempt(m, s, e);
        RouteMoves(m, s, net, e);
      } else {
        FewerHandlers(s, e, s2);
        assert Stayed(m, s, e, s2);
      }
    }
  }

  lemma RouteMoves(m: Model, s: Session, net: Net, e: Event)
    requires WellFormed(m) && Inv(m, s) && Accepted(s, e)
    ensures Moved(m, s, e, Step(s, net, e))
  {
    hide Settle, BeginFanout;
    OneAttempt(m, s, e);
    var p, r, s1, s2 := s.pipeline.value, s.handlers[e.wallet].reply, Ready(s, e), Step(s, net, e);
    assert s2 == Route(s1, net, e.wallet, r);
    assert Inner(m, At(p)) <==> r.step.Some? && p.StaysOnShard(r.step.value) by { InnerStays(m, s, e.wallet, r); }
    if Inner(m, At(p)) {
      GroupSettles(m, s, e, true);
    } else if p.IsLastToken() {
      assert s2.handlers == map[e.wallet := Submitting(r)];
      assert s2.handlers[e.wallet].Submitting? && !Fanning(s2);
      assert Stayed(m, s, e, s2);
    } else {
      SettleMoves(m, s, net, e);
    }
  }

  /** A step whose output goes back to its own shard is what the reply's step number says it is. */
  lemma InnerStays(m: Model, s: Session, w: Wallet, r: Reply)
    requires WellFormed(m) && Inv(m, s) && s.pipeline.Some? && Answers(m, s.pipeline.value, w, r)
    ensures var p := s.pipeline.value;
            && (m.HasGroup(p.pos) <==> p.ExpertGroup().Some?)
            && (Inner(m, At(p)) <==> r.step.Some? && p.StaysOnShard(r.step.value))
  {
    var p := s.pipeline.value;
    assert m.HasGroup(p.pos) <==> p.ExpertGroup().Some?;
  }

  lemma SubmitMoves(m: Model, s: Session, net: Net, e: Event)
    requires WellFormed(m) && Inv(m, s) && e.SubmitDone?
    ensures Moved(m, s, e, Step(s, net, e))
  {
    var s2 := Step(s, net, e);
    if s.pipeline.Some? {
      if SubmitsNow(s, e) {
        OneAttempt(m, s, e);
        InnerStays(m, s, e.wallet, s.handlers[e.wallet].reply);
        SettleMoves(m, s, net, e);
      } else {
        FewerHandlers(s, e, s2);
        assert Stayed(m, s, e, s2);
      }
    }
  }

  /** Experts to combine: the attempt goes on into the fan-out, fails, or ends the request. */
  lemma GroupSettles(m: Model, s: Session, e: Event, interior: bool)
    requires WellFormed(m) && Inv(m, s) && (Accepted(s, e) || SubmitsNow(s, e)) && s.pipeline.Some?
    requires var p := s.pipeline.value;
             && p.ExpertGroup().Some? && (interior <==> Inner(m, At(p))) && (interior || p.pos + 1 < |p.shards|)
             && (Accepted(s, e) ==> interior || !p.IsLastToken()) && (SubmitsNow(s, e) ==> !interior)
    ensures var p, r := s.pipeline.value, s.handlers[e.wallet].reply;
            Moved(m, s, e, BeginFanout(Ready(s, e), e.wallet, r, interior, Layer(p)))
  {
    hide OnTrack;
    OneAttempt(m, s, e);
    var p, r := s.pipeline.value, s.handlers[e.wallet].reply;
    InnerStays(m, s, e.wallet, r);
    hide Inv;
    var s2 := BeginFanout(Ready(s, e), e.wallet, r, interior, Layer(p));
    if s2.pipeline.Some? {
      if s2 != Ready(s, e) {
        assert s2.handlers[e.wallet].Sizing?;
        assert Attempting(s2) && Fanning(s2);
      }
      assert Stayed(m, s, e, s2);
    }
  }

  /** A step that hands on or decodes: the request advances or finishes, or its last fan-out begins. */
  lemma SettleMoves(m: Model, s: Session, net: Net, e: Event)
    requires WellFormed(m) && Inv(m, s) && (Accepted(s, e) || SubmitsNow(s, e)) && s.pipeline.Some?
    requires var p := s.pipeline.value; !Inner(m, At(p)) && (Accepted(s, e) <==> !p.IsLastToken())
    ensures Moved(m, s, e, Settle(Ready(s, e), net, e.wallet, s.handlers[e.wallet].reply))
  {
    OneAttempt(m, s, e);
    var p, r := s.pipeline.value, s.handlers[e.wallet].reply;
    InnerStays(m, s, e.wallet, r);
    if p.pos + 1 == |p.shards| {
      DecodeMoves(m, s, net, e);
    } else if p.ExpertGroup().Some? {
      assert BoundaryLayer(p, r) == Layer(p);
      GroupSettles(m, s, e, false);
    } else {
      HandoffMoves(m, s, net, e);
    }
  }

  lemma HandoffMoves(m: Model, s: Session, net: Net, e: Event)
    requires WellFormed(m) && Inv(m, s) && (Accepted(s, e) || SubmitsNow(s, e)) && s.pipeline.Some?
    requires var p := s.pipeline.value;
             (Accepted(s, e) <==> !p.IsLastToken()) && !m.HasGroup(p.pos) && p.pos + 1 < |p.shards|
    ensures Advanced(m, s, e, Handoff(Ready(s, e), net, s.handlers[e.wallet].reply.output.tensor))
  {
    hide OnTrack;
    OneAttempt(m, s, e);
    var t := s.handlers[e.wallet].reply.output.tensor;
    var p1 := Ready(s, e).pipeline.value;
    var s2 := Ready(s, e).(pipeline := Some(p1.(pos := p1.pos + 1, input := Hidden(t), walk := None)));
    DispatchMoves(m, s2, net);
    assert Handoff(Ready(s, e), net, t) == DispatchCurrent(s2, net);
    NoWalkNoDrop(s2, net);
    hide Inv, DispatchCurrent, Handoff, Attempting, Fanning;
    assert Advanced(m, s, e, DispatchCurrent(s2, net));
  }

  lemma DecodeMoves(m: Model, s: Session, net: Net, e: Event)
    requires WellFormed(m) && Inv(m, s) && (Accepted(s, e) || SubmitsNow(s, e)) && s.pipeline.Some?
    requires var p := s.pipeline.value;
             (Accepted(s, e) <==> !p.IsLastToken()) && p.pos + 1 == |p.shards| && !Inner(m, At(p))
    ensures Moved(m, s, e, Decode(Ready(s, e), net, s.handlers[e.wallet].reply))
    ensures s.handlers[e.wallet].reply.output.nextToken.Some? ==>
              var s2 := Decode(Ready(s, e), net, s.handlers[e.wallet].reply);
              Advanced(m, s, e, s2) || Finished(m, s, e, s2)
  {
    hide OnTrack;
    OneAttempt(m, s, e);
    var p, r, s1 := s.pipeline.value, s.handlers[e.wallet].reply, Ready(s, e);
    InnerStays(m, s, e.wallet, r);
    assert !Combines(m, At(p)) && !JoinsNow(s, e);
    if r.output.nextToken.Some? {
      var token := r.output.nextToken.value;
      if p.IsLastToken() {
        assert Working(m, s, p, e.wallet, s.handlers[e.wallet]);
        assert Finished(m, s, e, Decode(s1, net, r));
      } else {
        var p1 := s1.pipeline.value.(generated := p.generated + [token], pos := 0, tokenIndex := p.tokenIndex + 1,
                                     input := NextToken(token), walk := None);
        DispatchMoves(m, s1.(pipeline := Some(p1)), net);
        assert Decode(s1, net, r) == DispatchCurrent(s1.(pipeline := Some(p1)), net);
        hide DispatchCurrent;
        assert Advanced(m, s, e, Decode(s1, net, r));
      }
    }
  }

  /** Every honest and orderly event stays, advances by one step, finishes, or ends the request; and a reply whose
      output goes back to its own shard never reaches the chain. */
  lemma StepMoves(m: Model, s: Session, net: Net, e: Event)
    requires WellFormed(m) && Inv(m, s) && Honest(m, s, e) && Orderly(s, e)
    ensures Moved(m, s, e, Step(s, net, e))
    ensures s.pipeline.Some? && Inner(m, At(s.pipeline.value)) ==> Step(s, net, e).submits == s.submits
  {
    InnerStepsSubmitNothing(m, s, net, e);
    hide Inv, Moved, Step;
    match e
    case ShardResult(_, _) => AcceptMoves(m, s, net, e);
    case SourceFound(_, _) => FoundMoves(m, s, net, e);
    case SubmitDone(_, _) => SubmitMoves(m, s, net, e);
    case Sized(_) => SizedMoves(m, s, net, e);
    case FanoutDone(_, _) => FanoutMoves(m, s, net, e);
    case RetryTick(_, _) => TickMoves(m, s, net, e);
    case Disconnect(_) => DisconnectMoves(m, s, net, e);
  }

  lemma InnerStepsSubmitNothing(m: Model, s: Session, net: Net, e: Event)
    requires WellFormed(m) && Inv(m, s)
    ensures s.pipeline.Some? && Inner(m, At(s.pipeline.value)) ==> Step(s, net, e).submits == s.submits
  {
    hide OnTrack;
    if s.pipeline.Some? && Inner(m, At(s.pipeline.value)) && SubmitsNow(s, e) {
      OneAttempt(m, s, e);
      InnerStays(m, s, e.wallet, s.handlers[e.wallet].reply);
    }
  }

  /** An answer nothing is wrong with: a usable router choice where experts are combined, a token where one is
      decoded. */
  predicate WellAnswered(p: Pipeline, combines: bool, o: Output) {
    if combines then
      && p.ExpertGroup().Some? && o.router.Some? && !Malformed(o.router.value)
      && !Unregistered(o.router.value, p.ExpertGroup().value) && IsF32Hex(o.tensor.dataHex)
    else p.pos + 1 == |p.shards| ==> o.nextToken.Some?
  }

  /** No good answer is wasted once its source was found and, on the last token, its submission succeeded: it is
      submitted where it has to be, goes into the fan-out where experts are combined, and anywhere else advances the
      request or finishes it. */
  lemma GoodAnswerMovesOn(m: Model, s: Session, net: Net, e: Event)
    requires WellFormed(m) && Inv(m, s) && s.pipeline.Some? && (Accepted(s, e) || SubmitsNow(s, e))
    requires WellAnswered(s.pipeline.value, Combines(m, At(s.pipeline.value)), s.handlers[e.wallet].reply.output)
    ensures var pl, r, s2 := At(s.pipeline.value), s.handlers[e.wallet].reply, Step(s, net, e);
            if OnLastToken(m, pl) && !Inner(m, pl) && Accepted(s, e) then s2.handlers == map[e.wallet := Submitting(r)]
            else if Combines(m, pl) then
              && e.wallet in s2.handlers && s2.handlers[e.wallet].Sizing?
              && s2.handlers[e.wallet].fanout.tensor == r.output.tensor
            else Advanced(m, s, e, s2) || Finished(m, s, e, s2)
  {
    hide OnTrack;
    OneAttempt(m, s, e);
    var p, r := s.pipeline.value, s.handlers[e.wallet].reply;
    InnerStays(m, s, e.wallet, r);
    if !Inner(m, At(p)) && (Accepted(s, e) <==> !p.IsLastToken()) {
      assert Step(s, net, e) == Settle(Ready(s, e), net, e.wallet, r);
      hide Inv, Step;
      if p.pos + 1 == |p.shards| { DecodeMoves(m, s, net, e); }
      else if p.ExpertGroup().None? { HandoffMoves(m, s, net, e); }
    }
  }
}
