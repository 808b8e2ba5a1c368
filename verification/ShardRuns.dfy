/** What holds over whole runs of a request, whatever replies, stale lines, ticks, disconnects, failed submissions
    and failed fan-outs interleave: the order of the work, its accounting, and the on-chain submissions. */
module ShardRuns {
  import opened Common
  import opened Attribution
  import opened ShardSession
  import opened ShardDecoding
  import opened ShardProgress

  datatype Stimulus = Stimulus(net: Net, event: Event)

  /** Bookkeeping over a run: the wallet of every accepted reply, the steps made, the attempts that came to nothing,
      and for those that had already submitted the position of their shard. */
  datatype Tally = Tally(accepted: seq<Wallet>, advanced: nat, failed: nat, inVain: seq<nat>)

  datatype History = History(s: Session, tally: Tally)

  predicate Progressed(s: Session, s2: Session) {
    s.pipeline.Some? && if s2.pipeline.Some? then At(s2.pipeline.value) != At(s.pipeline.value)
      else s2.responses != s.responses
  }

  /** An attempt is an accepted reply and what its handler does after it; it fails when it ends and the request has
      not moved on. */
  predicate Failed(s: Session, e: Event, s2: Session) {
    (Accepted(s, e) || Attempting(s)) && !Attempting(s2) && !Progressed(s, s2)
  }

  /** The attempt was one at a shard's last fan-out, on the last token, and its submission had been made: the
      router's choice was missing or unusable, the join failed, or the session of its primary ended. */
  predicate SubmittedInVain(s: Session, e: Event, s2: Session) {
    && Failed(s, e, s2) && s.pipeline.Some? && s.pipeline.value.IsLastToken()
    && var p := s.pipeline.value;
       || (SubmitsNow(s, e) && p.ExpertGroup().Some? && p.pos + 1 < |p.shards|)
       || exists w | w in s.handlers && (s.handlers[w].Sizing? || s.handlers[w].Joining?) ::
            !s.handlers[w].fanout.interior
  }

  ghost function Count(t: Tally, s: Session, e: Event, s2: Session): Tally {
    Tally(if Accepted(s, e) then t.accepted + [e.wallet] else t.accepted,
          if Progressed(s, s2) then t.advanced + 1 else t.advanced,
          if Failed(s, e, s2) then t.failed + 1 else t.failed,
          if SubmittedInVain(s, e, s2) then t.inVain + [s.pipeline.value.pos] else t.inVain)
  }

  ghost function Follow(h: History, run: seq<Stimulus>): History
    decreases |run|
  {
    if run == [] then h
    else
      var s2 := Step(h.s, run[0].net, run[0].event);
      Follow(History(s2, Count(h.tally, h.s, run[0].event, s2)), run[1..])
  }

  ghost predicate HonestRun(m: Model, s: Session, run: seq<Stimulus>)
    decreases |run|
  {
    run != [] ==> Honest(m, s, run[0].event) && HonestRun(m, Step(s, run[0].net, run[0].event), run[1..])
  }

  /** No reply was accepted for another step than the current one, or while an earlier one was being handled. */
  ghost predicate OrderlyRun(s: Session, run: seq<Stimulus>)
    decreases |run|
  {
    run != [] ==> Orderly(s, run[0].event) && OrderlyRun(Step(s, run[0].net, run[0].event), run[1..])
  }

  ghost predicate Regular(m: Model, s: Session, run: seq<Stimulus>) {
    HonestRun(m, s, run) && OrderlyRun(s, run)
  }

  function Fresh(m: Model): Session {
    Session(Some(Start(m.shards, m.numLayers, m.groups, m.maxTokens, m.promptHex)), None, map[], [], [], [])
  }

  /** The request right after it was started and dispatched for the first time. */
  function Begin(m: Model, net: Net): Session {
    DispatchCurrent(Fresh(m), net)
  }

  ghost function After(m: Model, net: Net, run: seq<Stimulus>): History {
    Follow(History(Begin(m, net), Tally([], 0, 0, [])), run)
  }

  // ---- The nested loop ------------------------------------------------------------------------------------------

  ghost predicate Valid(m: Model, pl: Place)
    requires WellFormed(m)
  {
    && pl.pos < |m.shards|
    && if m.HasGroup(pl.pos) then m.shards[pl.pos].layerStart <= pl.layer <= m.LastStep(pl.pos)
       else pl.layer == m.shards[pl.pos].layerStart
  }

  /** Replies one shard takes per token: one if plain, one per layer if it has experts, and one more to decode
      when it ends the model. */
  function ShardSteps(m: Model, pos: nat): nat
    requires WellFormed(m) && pos < |m.shards|
  {
    if !m.HasGroup(pos) then 1
    else m.shards[pos].layerEnd - m.shards[pos].layerStart + if m.EndsModel(pos) then 1 else 0
  }

  function StepsBefore(m: Model, pos: nat): nat
    requires WellFormed(m) && pos <= |m.shards|
  {
    if pos == 0 then 0 else StepsBefore(m, pos - 1) + ShardSteps(m, pos - 1)
  }

  function TokenSteps(m: Model): nat
    requires WellFormed(m)
  {
    StepsBefore(m, |m.shards|)
  }

  /** How many steps of the nested loop precede a place. */
  function Done(m: Model, pl: Place): int
    requires WellFormed(m) && pl.pos < |m.shards|
  {
    pl.token * TokenSteps(m) + StepsBefore(m, pl.pos) + if m.HasGroup(pl.pos)
      then pl.layer - m.shards[pl.pos].layerStart else 0
  }

  lemma NextIsOneStep(m: Model, pl: Place)
    requires WellFormed(m) && Valid(m, pl)
    ensures Valid(m, Next(m, pl)) && Done(m, Next(m, pl)) == Done(m, pl) + 1
  {
    if !Inner(m, pl) && pl.pos + 1 == |m.shards| {
      assert (pl.token + 1) * TokenSteps(m) == pl.token * TokenSteps(m) + TokenSteps(m);
    }
  }

  /** The expert layers of one shard up to `layer`, those of all earlier shards, and those of all earlier tokens. */
  function LayersBefore(t: nat, pos: nat, start: nat, layer: nat): seq<Place>
    decreases layer
  {
    if layer <= start then [] else LayersBefore(t, pos, start, layer - 1) + [Place(t, pos, layer - 1)]
  }

  function ShardsBefore(m: Model, t: nat, pos: nat): seq<Place>
    requires WellFormed(m) && pos <= |m.shards|
    decreases pos
  {
    if pos == 0 then []
    else ShardsBefore(m, t, pos - 1)
         + if m.HasGroup(pos - 1) then LayersBefore(t, pos - 1, m.shards[pos - 1].layerStart, m.WalkEnd(pos - 1))
           else []
  }

  function TokensBefore(m: Model, t: nat): seq<Place>
    requires WellFormed(m)
  {
    if t == 0 then [] else TokensBefore(m, t - 1) + ShardsBefore(m, t - 1, |m.shards|)
  }

  /** The expert layers the nested loop has combined when it reaches a place. */
  function Visits(m: Model, pl: Place): seq<Place>
    requires WellFormed(m) && pl.pos < |m.shards|
  {
    TokensBefore(m, pl.token) + ShardsBefore(m, pl.token, pl.pos)
    + if m.HasGroup(pl.pos) then LayersBefore(pl.token, pl.pos, m.shards[pl.pos].layerStart, pl.layer) else []
  }

  lemma NextVisits(m: Model, pl: Place)
    requires WellFormed(m) && Valid(m, pl)
    ensures Visits(m, Next(m, pl)) == if Combines(m, pl) then Visits(m, pl) + [pl] else Visits(m, pl)
  {
    if Inner(m, pl) {
      NextLayerVisits(m, pl);
    } else {
      EnteringAfresh(m, pl);
      LeavingVisits(m, pl);
    }
  }

  lemma NextLayerVisits(m: Model, pl: Place)
    requires WellFormed(m) && Valid(m, pl) && Inner(m, pl)
    ensures Combines(m, pl) && Visits(m, Next(m, pl)) == Visits(m, pl) + [pl]
  {
    hide TokensBefore, ShardsBefore;
  }

  lemma LeavingVisits(m: Model, pl: Place)
    requires WellFormed(m) && Valid(m, pl) && !Inner(m, pl)
    ensures TokensBefore(m, pl.token) + ShardsBefore(m, pl.token, pl.pos + 1)
         == if Combines(m, pl) then Visits(m, pl) + [pl] else Visits(m, pl)
  {
    hide TokensBefore;
    if m.HasGroup(pl.pos) && Combines(m, pl) {
      var start := m.shards[pl.pos].layerStart;
      assert LayersBefore(pl.token, pl.pos, start, pl.layer + 1) == LayersBefore(pl.token, pl.pos, start, pl.layer)
             + [pl];
    }
  }

  lemma EnteringAfresh(m: Model, pl: Place)
    requires WellFormed(m) && Valid(m, pl) && !Inner(m, pl)
    ensures Visits(m, Next(m, pl)) == TokensBefore(m, pl.token) + ShardsBefore(m, pl.token, pl.pos + 1)
  {
  }

  function Places(trail: seq<Applied>): seq<Place> {
    seq(|trail|, i requires 0 <= i < |trail| => Place(trail[i].tokenIndex, trail[i].pos, trail[i].layer))
  }

  // ---- Order of the work, and pinning -----------------------------------------------------------------------------

  ghost predicate OneWalletPerShard(trail: seq<Applied>) {
    forall i, j | 0 <= i < j < |trail| && trail[i].tokenIndex == trail[j].tokenIndex && trail[i].pos == trail[j].pos ::
      trail[i].wallet == trail[j].wallet
  }

  ghost predicate NotBeyond(token: nat, pos: nat, pl: Place) {
    token < pl.token || (token == pl.token && pos <= pl.pos)
  }

  ghost predicate TrailInv(m: Model, s: Session)
    requires WellFormed(m)
  {
    && OneWalletPerShard(s.trail)
    && (s.pipeline.Some? ==> s.responses == [])
    && (s.pipeline.Some? ==>
          var p := s.pipeline.value;
          && p.pos < |m.shards| && Valid(m, At(p)) && Places(s.trail) == Visits(m, At(p))
          && (forall a | a in s.trail :: NotBeyond(a.tokenIndex, a.pos, At(p))
                && (a.tokenIndex == p.tokenIndex && a.pos == p.pos ==>
                    p.walk.Some? && a.wallet == p.walk.value.wallet)))
    && (s.responses != [] ==> s.pipeline.None? && Places(s.trail) == TokensBefore(m, m.Goal()))
  }

  lemma TrailStays(m: Model, s: Session, e: Event, s2: Session)
    requires WellFormed(m) && Stayed(m, s, e, s2) && TrailInv(m, s)
    ensures TrailInv(m, s2)
  {
  }

  lemma TrailAdvances(m: Model, s: Session, e: Event, s2: Session)
    requires WellFormed(m) && Advanced(m, s, e, s2) && TrailInv(m, s)
    ensures TrailInv(m, s2)
  {
    hide Logged, Credited, Submitted, Visits;
    var p, q := s.pipeline.value, s2.pipeline.value;
    NextIsOneStep(m, At(p));
    NextVisits(m, At(p));
    if Combines(m, At(p)) {
      assert Places(s2.trail) == Places(s.trail) + [At(p)];
    }
  }

  lemma TrailFinishes(m: Model, s: Session, e: Event, s2: Session)
    requires WellFormed(m) && Finished(m, s, e, s2) && TrailInv(m, s)
    ensures TrailInv(m, s2)
  {
    NextVisits(m, At(s.pipeline.value));
  }

  lemma TrailKeeps(m: Model, s: Session, e: Event, s2: Session)
    requires WellFormed(m) && Moved(m, s, e, s2) && TrailInv(m, s)
    ensures TrailInv(m, s2)
  {
    if Stayed(m, s, e, s2) { TrailStays(m, s, e, s2); }
    else if Advanced(m, s, e, s2) { TrailAdvances(m, s, e, s2); }
    else if Finished(m, s, e, s2) { TrailFinishes(m, s, e, s2); }
  }

  // ---- One wallet per walk ------------------------------------------------------------------------------------------

  /** All step-by-step dispatches of one shard within one token go to the same wallet. */
  ghost predicate OneWalletPerWalk(log: seq<Dispatch>) {
    forall i, j | 0 <= i < j < |log| && log[i].step.Some? && log[j].step.Some? ::
      log[i].tokenIndex == log[j].tokenIndex && log[i].shardIndex == log[j].shardIndex ==>
        log[i].wallet == log[j].wallet
  }

  ghost predicate LogInv(m: Model, p: Pipeline)
    requires WellFormed(m)
  {
    && p.shards == m.shards && p.pos < |m.shards|
    && OneWalletPerWalk(p.dispatchLog)
    && forall d | d in p.dispatchLog && d.step.Some? ::
         && d.tokenIndex <= p.tokenIndex
         && (d.tokenIndex == p.tokenIndex ==> exists i :: 0 <= i <= p.pos && d.shardIndex == m.shards[i].index)
         && (d.tokenIndex == p.tokenIndex && d.shardIndex == m.shards[p.pos].index ==>
             p.walk.Some? && d.wallet == p.walk.value.wallet)
  }

  /** The walk of a place not yet entered has no dispatches behind it. */
  lemma LogCarriesOver(m: Model, p: Pipeline, q: Pipeline)
    requires WellFormed(m) && LogInv(m, p) && q.shards == m.shards && q.pos < |m.shards|
    requires Logged(m, p.dispatchLog, q)
    requires (At(q) == At(p) && Pinned(p.walk, q))
             || (At(q) == Next(m, At(p)) && (Inner(m, At(p)) ==> Pinned(p.walk, q)))
    ensures LogInv(m, q)
  {
    forall d | d in p.dispatchLog && d.step.Some?
      ensures d.tokenIndex <= q.tokenIndex
      ensures d.tokenIndex == q.tokenIndex ==> exists i :: 0 <= i <= q.pos && d.shardIndex == m.shards[i].index
      ensures d.tokenIndex == q.tokenIndex && d.shardIndex == m.shards[q.pos].index ==>
              q.walk.Some? && d.wallet == q.walk.value.wallet
    {
      if d.tokenIndex == q.tokenIndex {
        var i :| 0 <= i <= p.pos && d.shardIndex == m.shards[i].index;
        assert 0 <= i <= q.pos;
      }
    }
  }

  // ---- Submissions --------------------------------------------------------------------------------------------------

  ghost predicate AllOf(m: Model, subs: seq<Submit>, pos: nat)
    requires pos < |m.shards|
  {
    forall x | x in subs :: x.shardIndex == m.shards[pos].index && x.tokenIndex + 1 == m.Goal()
  }

  /** A block of submissions for each of the first `n` shards, in order: exactly one from a plain shard and from the
      last shard, at least one from a shard whose fan-out may have been retried. */
  ghost predicate Covers(m: Model, subs: seq<Submit>, n: nat)
    requires WellFormed(m) && n <= |m.shards|
    decreases n
  {
    if n == 0 then subs == []
    else exists k :: 0 <= k < |subs| && Covers(m, subs[..k], n - 1) && AllOf(m, subs[k..], n - 1)
           && (k + 1 == |subs| || (m.HasGroup(n - 1) && n < |m.shards|))
  }

  /** The submissions made so far at a place: complete blocks, then those of failed attempts at the current shard. */
  ghost predicate SubmittedUpTo(m: Model, subs: seq<Submit>, pl: Place, joining: bool)
    requires WellFormed(m) && pl.pos < |m.shards|
  {
    if !OnLastToken(m, pl) then subs == []
    else exists k :: 0 <= k <= |subs| && Covers(m, subs[..k], pl.pos) && AllOf(m, subs[k..], pl.pos)
           && (k < |subs| ==> m.HasGroup(pl.pos) && pl.pos + 1 < |m.shards| && !Inner(m, pl))
           && (joining ==> k < |subs|)
  }

  /** The request is waiting for the last fan-out of a shard, which its submission precedes. */
  ghost predicate AtLastJoin(m: Model, s: Session, p: Pipeline)
    requires WellFormed(m) && p.pos < |m.shards|
  {
    Fanning(s) && !Inner(m, At(p)) && OnLastToken(m, At(p))
  }

  ghost predicate SubmitInv(m: Model, s: Session)
    requires WellFormed(m)
  {
    && (s.pipeline.Some? ==>
          var p := s.pipeline.value;
          && p.pos < |m.shards| && Valid(m, At(p)) && p.tokenIndex < m.Goal() && s.responses == []
          && SubmittedUpTo(m, s.submits, At(p), AtLastJoin(m, s, p)))
    && (s.responses != [] ==> s.pipeline.None? && s.handlers == map[] && Covers(m, s.submits, |m.shards|))
  }

  lemma SubmitStays(m: Model, s: Session, e: Event, s2: Session)
    requires WellFormed(m) && Stayed(m, s, e, s2) && SubmitInv(m, s)
    ensures SubmitInv(m, s2)
  {
    var pl := At(s.pipeline.value);
    if OnLastToken(m, pl) {
      var k :| 0 <= k <= |s.submits| && Covers(m, s.submits[..k], pl.pos) && AllOf(m, s.submits[k..], pl.pos)
        && (k < |s.submits| ==> m.HasGroup(pl.pos) && pl.pos + 1 < |m.shards| && !Inner(m, pl))
        && (AtLastJoin(m, s, s.pipeline.value) ==> k < |s.submits|);
      if s2.submits != s.submits {
        assert s2.submits[..k] == s.submits[..k];
        assert s2.submits[k..] == s.submits[k..] + [s2.submits[|s.submits|]];
      }
      assert SubmittedUpTo(m, s2.submits, pl, AtLastJoin(m, s2, s2.pipeline.value));
    }
  }

  lemma SubmitAdvances(m: Model, s: Session, e: Event, s2: Session)
    requires WellFormed(m) && Advanced(m, s, e, s2) && SubmitInv(m, s)
    ensures SubmitInv(m, s2)
  {
    var p, q := s.pipeline.value, s2.pipeline.value;
    var pl, pl2 := At(p), At(q);
    NextIsOneStep(m, pl);
    if OnLastToken(m, pl) {
      var k :| 0 <= k <= |s.submits| && Covers(m, s.submits[..k], pl.pos) && AllOf(m, s.submits[k..], pl.pos)
        && (k < |s.submits| ==> m.HasGroup(pl.pos) && pl.pos + 1 < |m.shards| && !Inner(m, pl))
        && (AtLastJoin(m, s, p) ==> k < |s.submits|);
      if Inner(m, pl) {
        assert k == |s.submits|;
        assert SubmittedUpTo(m, s2.submits, pl2, false);
      } else {
        assert s2.submits[..k] == s.submits[..k];
        assert Covers(m, s2.submits, pl.pos + 1);
        assert s2.submits[..|s2.submits|] == s2.submits;
        assert SubmittedUpTo(m, s2.submits, pl2, false);
      }
    } else if OnLastToken(m, pl2) {
      assert s2.submits[..0] == [];
      assert SubmittedUpTo(m, s2.submits, pl2, false);
    }
  }

  lemma SubmitFinishes(m: Model, s: Session, e: Event, s2: Session)
    requires WellFormed(m) && Finished(m, s, e, s2) && SubmitInv(m, s)
    ensures SubmitInv(m, s2)
  {
    var pl := At(s.pipeline.value);
    var k :| 0 <= k <= |s.submits| && Covers(m, s.submits[..k], pl.pos)
      && (k < |s.submits| ==> pl.pos + 1 < |m.shards|);
    assert s.submits[..k] == s.submits;
    assert s2.submits[..k] == s.submits;
    assert Covers(m, s2.submits, pl.pos + 1);
  }

  lemma SubmitKeeps(m: Model, s: Session, e: Event, s2: Session)
    requires WellFormed(m) && Moved(m, s, e, s2) && SubmitInv(m, s)
    ensures SubmitInv(m, s2)
  {
    if Stayed(m, s, e, s2) { SubmitStays(m, s, e, s2); }
    else if Advanced(m, s, e, s2) { SubmitAdvances(m, s, e, s2); }
    else if Finished(m, s, e, s2) { SubmitFinishes(m, s, e, s2); }
  }

  /** Without experts the blocks have length one: the submissions are the shards themselves, in order. */
  lemma {:induction false} PlainCover(m: Model, subs: seq<Submit>, n: nat)
    requires WellFormed(m) && n <= |m.shards| && Covers(m, subs, n)
    requires forall i | 0 <= i < |m.shards| :: !m.HasGroup(i)
    ensures |subs| == n && forall i | 0 <= i < n ::
            subs[i].shardIndex == m.shards[i].index && subs[i].tokenIndex + 1 == m.Goal()
  {
    if n > 0 {
      var k :| 0 <= k < |subs| && Covers(m, subs[..k], n - 1) && AllOf(m, subs[k..], n - 1) && k + 1 == |subs|;
      PlainCover(m, subs[..k], n - 1);
      assert subs[k..] == [subs[k]];
      assert subs[k] in subs[k..];
    }
  }

  // ---- Accounting ---------------------------------------------------------------------------------------------------

  function Credit(steps: map<Wallet, nat>, w: Wallet): nat {
    if w in steps then steps[w] else 0
  }

  ghost predicate Credits(steps: map<Wallet, nat>, accepted: seq<Wallet>) {
    forall w :: Credit(steps, w) == multiset(accepted)[w]
  }

  /** Most accepted replies; among equals the greatest address. */
  ghost predicate DidMost(accepted: seq<Wallet>, w: Wallet) {
    && w in accepted
    && forall v | v in accepted && v != w ::
         multiset(accepted)[v] < multiset(accepted)[w] || (multiset(accepted)[v] == multiset(accepted)[w] && Less(v, w))
  }

  ghost predicate CountInv(m: Model, h: History)
    requires WellFormed(m)
  {
    var s, t := h.s, h.tally;
    && (s.pipeline.Some? ==>
          var p := s.pipeline.value;
          && p.pos < |m.shards| && Valid(m, At(p)) && s.responses == []
          && t.advanced == Done(m, At(p))
          && |t.accepted| == t.advanced + t.failed + (if Attempting(s) then 1 else 0)
          && Credits(p.contributions, t.accepted))
    && (s.responses != [] ==>
          && s.pipeline.None? && s.handlers == map[] && |s.responses| == 1
          && t.advanced == m.Goal() * TokenSteps(m) && |t.accepted| == t.advanced + t.failed
          && DidMost(t.accepted, s.responses[0].wallet))
  }

  lemma CreditsGrow(steps: map<Wallet, nat>, accepted: seq<Wallet>, w: Wallet)
    requires Credits(steps, accepted)
    ensures Credits(Bump(steps, w), accepted + [w])
  {
    forall v ensures Credit(Bump(steps, w), v) == multiset(accepted + [w])[v] {
      assert Credit(steps, v) == multiset(accepted)[v];
    }
  }

  lemma WinnerDidMost(steps: map<Wallet, nat>, accepted: seq<Wallet>, w: Wallet)
    requires Credits(steps, accepted) && IsWinner(steps, w) && accepted != []
    ensures DidMost(accepted, w)
  {
    var u := accepted[0];
    assert Credit(steps, u) == multiset(accepted)[u] && Credit(steps, w) == multiset(accepted)[w];
    forall v | v in accepted && v != w
      ensures multiset(accepted)[v] < multiset(accepted)[w]
              || (multiset(accepted)[v] == multiset(accepted)[w] && Less(v, w))
    {
      assert Credit(steps, v) == multiset(accepted)[v];
    }
  }

  lemma CountStays(m: Model, h: History, e: Event, s2: Session)
    requires WellFormed(m) && Stayed(m, h.s, e, s2) && CountInv(m, h)
    ensures CountInv(m, History(s2, Count(h.tally, h.s, e, s2)))
  {
    if Accepted(h.s, e) { CreditsGrow(h.s.pipeline.value.contributions, h.tally.accepted, e.wallet); }
  }

  lemma CountAdvances(m: Model, h: History, e: Event, s2: Session)
    requires WellFormed(m) && Advanced(m, h.s, e, s2) && CountInv(m, h)
    ensures CountInv(m, History(s2, Count(h.tally, h.s, e, s2)))
  {
    NextIsOneStep(m, At(h.s.pipeline.value));
    if Accepted(h.s, e) { CreditsGrow(h.s.pipeline.value.contributions, h.tally.accepted, e.wallet); }
  }

  lemma CountFinishes(m: Model, h: History, e: Event, s2: Session)
    requires WellFormed(m) && Finished(m, h.s, e, s2) && CountInv(m, h)
    ensures CountInv(m, History(s2, Count(h.tally, h.s, e, s2)))
  {
    var p := h.s.pipeline.value;
    NextIsOneStep(m, At(p));
    WinnerDidMost(p.contributions, h.tally.accepted, s2.responses[0].wallet);
  }

  lemma CountKeeps(m: Model, h: History, net: Net, e: Event)
    requires WellFormed(m) && Inv(m, h.s) && Honest(m, h.s, e) && Orderly(h.s, e) && CountInv(m, h)
    ensures var s2 := Step(h.s, net, e); CountInv(m, History(s2, Count(h.tally, h.s, e, s2)))
  {
    var s2 := Step(h.s, net, e);
    StepMoves(m, h.s, net, e);
    if Stayed(m, h.s, e, s2) { CountStays(m, h, e, s2); }
    else if Advanced(m, h.s, e, s2) { CountAdvances(m, h, e, s2); }
    else if Finished(m, h.s, e, s2) { CountFinishes(m, h, e, s2); }
  }

  // ---- Submissions made in vain ----------------------------------------------------------------------------------

  /** How often a shard was submitted. */
  function TimesSubmitted(subs: seq<Submit>, index: u32): nat {
    if subs == [] then 0
    else TimesSubmitted(subs[..|subs| - 1], index) + if subs[|subs| - 1].shardIndex == index then 1 else 0
  }

  function TimesInVain(inVain: seq<nat>, pos: nat): nat {
    multiset(inVain)[pos]
  }

  ghost function Ahead(m: Model, s: Session, p: Pipeline, i: nat): nat
    requires WellFormed(m) && p.pos < |m.shards|
  {
    if i < p.pos || (i == p.pos && AtLastJoin(m, s, p)) then 1 else 0
  }

  /** Shards already passed were submitted once more than in vain; the current one only in vain, or once more while
      its last fan-out is in flight. */
  ghost predicate VainInv(m: Model, h: History)
    requires WellFormed(m)
  {
    && (h.s.pipeline.Some? || h.s.responses != [] ==>
          forall i | i in h.tally.inVain :: i + 1 < |m.shards| && m.HasGroup(i))
    && (h.s.pipeline.Some? ==>
          var p := h.s.pipeline.value;
          && p.pos < |m.shards| && h.s.responses == []
          && if OnLastToken(m, At(p)) then
               forall i | 0 <= i < |m.shards| ::
                 TimesSubmitted(h.s.submits, m.shards[i].index)
                 == TimesInVain(h.tally.inVain, i) + Ahead(m, h.s, p, i)
             else h.s.submits == [] && h.tally.inVain == [])
    && (h.s.responses != [] ==>
          && h.s.pipeline.None? && h.s.handlers == map[]
          && forall i | 0 <= i < |m.shards| ::
               TimesSubmitted(h.s.submits, m.shards[i].index) == TimesInVain(h.tally.inVain, i) + 1)
  }

  lemma OneMoreSubmission(s: Session, s2: Session, index: u32, token: nat)
    requires Submitted(s, s2, index, token)
    ensures forall x :: TimesSubmitted(s2.submits, x) == TimesSubmitted(s.submits, x) + if x == index then 1 else 0
  {
  }

  /** In the invariant's terms an attempt is in vain exactly if it fails at a shard's last join after submitting. */
  lemma InVainMeans(m: Model, s: Session, e: Event, s2: Session)
    requires WellFormed(m) && Inv(m, s) && s.pipeline.Some?
    ensures var p := s.pipeline.value;
            SubmittedInVain(s, e, s2) <==>
              Failed(s, e, s2) && OnLastToken(m, At(p)) && AtBoundary(m, At(p)) && (Fanning(s) || SubmitsNow(s, e))
  {
    hide OnTrack;
    var p := s.pipeline.value;
    assert m.HasGroup(p.pos) <==> p.ExpertGroup().Some?;
    forall w | w in s.handlers && (s.handlers[w].Sizing? || s.handlers[w].Joining?)
      ensures s.handlers[w].fanout.interior <==> !AtBoundary(m, At(p))
    {
      assert Working(m, s, p, w, s.handlers[w]);
    }
    if SubmitsNow(s, e) {
      OneAttempt(m, s, e);
      InnerStays(m, s, e.wallet, s.handlers[e.wallet].reply);
    }
    if Fanning(s) {
      var w :| w in s.handlers && (s.handlers[w].Sizing? || s.handlers[w].Joining?);
      assert s.handlers[w].fanout.interior <==> !AtBoundary(m, At(p));
    }
  }

  /** Where the request stayed, the counts move together. */
  lemma VainStays(m: Model, h: History, e: Event, s2: Session, i: nat)
    requires WellFormed(m) && Stayed(m, h.s, e, s2) && VainInv(m, h) && i < |m.shards|
    requires OnLastToken(m, At(h.s.pipeline.value))
    requires SubmittedInVain(h.s, e, s2) <==>
               Failed(h.s, e, s2) && AtBoundary(m, At(h.s.pipeline.value)) && (Fanning(h.s) || SubmitsNow(h.s, e))
    requires FanoutPlace(m, h.s) && FanoutPlace(m, s2)
    ensures TimesSubmitted(s2.submits, m.shards[i].index)
         == TimesInVain(Count(h.tally, h.s, e, s2).inVain, i)
            + Ahead(m, s2, s2.pipeline.value, i)
  {
    hide SubmittedInVain, Logged, Pinned, Credited;
    var p := h.s.pipeline.value;
    if s2.submits != h.s.submits { OneMoreSubmission(h.s, s2, m.shards[p.pos].index, p.tokenIndex); }
    hide TimesSubmitted;
    assert m.shards[i].index == m.shards[p.pos].index <==> i == p.pos;
    if SubmittedInVain(h.s, e, s2) {
      assert TimesInVain(h.tally.inVain + [p.pos], i) == TimesInVain(h.tally.inVain, i) + if i == p.pos then 1 else 0;
    }
  }

  lemma VainStaysAll(m: Model, h: History, e: Event, s2: Session)
    requires WellFormed(m) && Stayed(m, h.s, e, s2) && VainInv(m, h)
    requires SubmittedInVain(h.s, e, s2) <==>
               && Failed(h.s, e, s2) && OnLastToken(m, At(h.s.pipeline.value)) && AtBoundary(m, At(h.s.pipeline.value))
               && (Fanning(h.s) || SubmitsNow(h.s, e))
    requires FanoutPlace(m, h.s) && FanoutPlace(m, s2)
    ensures VainInv(m, History(s2, Count(h.tally, h.s, e, s2)))
  {
    hide TimesSubmitted, SubmittedInVain, Logged, Pinned, Credited, FanoutPlace, Continues, Failed;
    if OnLastToken(m, At(h.s.pipeline.value)) {
      forall i | 0 <= i < |m.shards|
        ensures TimesSubmitted(s2.submits, m.shards[i].index)
             == TimesInVain(Count(h.tally, h.s, e, s2).inVain, i) + Ahead(m, s2, s2.pipeline.value, i)
      {
        VainStays(m, h, e, s2, i);
      }
    }
  }

  /** A fan-out in flight belongs to an expert shard, on the last one to an inner layer; and it is an attempt. */
  ghost predicate FanoutPlace(m: Model, s: Session)
    requires WellFormed(m)
  {
    Fanning(s) && s.pipeline.Some? ==>
      && Attempting(s) && s.pipeline.value.pos < |m.shards| && m.HasGroup(s.pipeline.value.pos)
      && (s.pipeline.value.pos + 1 == |m.shards| ==> Inner(m, At(s.pipeline.value)))
  }

  lemma FanoutHasPlace(m: Model, s: Session)
    requires WellFormed(m) && Inv(m, s)
    ensures FanoutPlace(m, s)
  {
    hide OnTrack;
    if Fanning(s) && s.pipeline.Some? {
      var w :| w in s.handlers && (s.handlers[w].Sizing? || s.handlers[w].Joining?);
      assert Working(m, s, s.pipeline.value, w, s.handlers[w]);
      assert m.HasGroup(s.pipeline.value.pos) <==> s.pipeline.value.ExpertGroup().Some?;
    }
  }

  lemma VainAdvances(m: Model, h: History, e: Event, s2: Session)
    requires WellFormed(m) && Advanced(m, h.s, e, s2) && VainInv(m, h)
    requires Valid(m, At(h.s.pipeline.value))
    ensures VainInv(m, History(s2, Count(h.tally, h.s, e, s2)))
  {
    hide Logged, Pinned, Credited;
    var p := h.s.pipeline.value;
    if OnLastToken(m, At(p)) && !m.HasGroup(p.pos) { OneMoreSubmission(h.s, s2, m.shards[p.pos].index, p.tokenIndex); }
    assert Count(h.tally, h.s, e, s2).inVain == h.tally.inVain;
    assert forall i | 0 <= i < |m.shards| :: m.shards[i].index == m.shards[p.pos].index <==> i == p.pos;
  }

  lemma VainFinishes(m: Model, h: History, e: Event, s2: Session)
    requires WellFormed(m) && Finished(m, h.s, e, s2) && VainInv(m, h)
    ensures VainInv(m, History(s2, Count(h.tally, h.s, e, s2)))
  {
    var p := h.s.pipeline.value;
    OneMoreSubmission(h.s, s2, m.shards[p.pos].index, p.tokenIndex);
    hide TimesSubmitted;
  }

  lemma VainKeeps(m: Model, h: History, net: Net, e: Event)
    requires WellFormed(m) && Inv(m, h.s) && Honest(m, h.s, e) && Orderly(h.s, e) && VainInv(m, h)
    requires h.s.pipeline.Some? ==> Valid(m, At(h.s.pipeline.value))
    ensures var s2 := Step(h.s, net, e); VainInv(m, History(s2, Count(h.tally, h.s, e, s2)))
  {
    var s2 := Step(h.s, net, e);
    StepMoves(m, h.s, net, e);
    StepKeeps(m, h.s, net, e);
    FanoutHasPlace(m, h.s);
    FanoutHasPlace(m, s2);
    if h.s.pipeline.Some? { InVainMeans(m, h.s, e, s2); }
    hide Step, Inv, Honest, Orderly, Stayed, Advanced, Finished, FanoutPlace, SubmittedInVain, Failed;
    if Stayed(m, h.s, e, s2) { VainStaysAll(m, h, e, s2); }
    else if Advanced(m, h.s, e, s2) { VainAdvances(m, h, e, s2); }
    else if Finished(m, h.s, e, s2) { VainFinishes(m, h, e, s2); }
  }

  // ---- Whole runs ------------------------------------------------------------------------------------------------

  ghost predicate RunInv(m: Model, h: History)
    requires WellFormed(m)
  {
    && Inv(m, h.s) && TrailInv(m, h.s) && SubmitInv(m, h.s) && CountInv(m, h) && VainInv(m, h)
    && (h.s.pipeline.Some? ==> LogInv(m, h.s.pipeline.value))
  }

  lemma BeginInv(m: Model, net: Net)
    requires WellFormed(m)
    ensures Inv(m, Begin(m, net))
  {
    assert PipelineInv(m, Fresh(m), Fresh(m).pipeline.value);
    hide EvalShards, EvalToken, Generate, DispatchCurrent;
    DispatchKeeps(m, Fresh(m), net);
  }

  /** Nothing has happened yet but at most one dispatch of the first step. */
  ghost predicate Unserved(m: Model, s: Session)
    requires WellFormed(m)
  {
    && s.handlers == map[] && s.trail == [] && s.submits == [] && s.responses == []
    && (s.pipeline.Some? ==>
          && At(s.pipeline.value) == Place(0, 0, m.shards[0].layerStart) && s.pipeline.value.shards == m.shards
          && s.pipeline.value.contributions == map[] && LogInv(m, s.pipeline.value))
  }

  lemma BeginFacts(m: Model, net: Net)
    requires WellFormed(m)
    ensures Unserved(m, Begin(m, net))
  {
    hide DispatchCurrent;
    DispatchMoves(m, Fresh(m), net);
  }

  lemma UnservedTrail(m: Model, s: Session)
    requires WellFormed(m) && Unserved(m, s)
    ensures TrailInv(m, s)
  {
    assert Places([]) == [];
  }

  lemma UnservedSubmits(m: Model, s: Session)
    requires WellFormed(m) && Unserved(m, s)
    ensures SubmitInv(m, s) && VainInv(m, History(s, Tally([], 0, 0, [])))
  {
    hide LogInv;
    assert !Attempting(s) && !Fanning(s);
    if s.pipeline.Some? { NothingSubmitted(m, At(s.pipeline.value)); }
    hide Covers, SubmittedUpTo, Attempting, Fanning;
  }

  lemma UnservedCounts(m: Model, s: Session)
    requires WellFormed(m) && Unserved(m, s)
    ensures CountInv(m, History(s, Tally([], 0, 0, [])))
  {
    hide LogInv;
    assert !Attempting(s);
  }

  lemma BeginHolds(m: Model, net: Net)
    requires WellFormed(m)
    ensures RunInv(m, History(Begin(m, net), Tally([], 0, 0, [])))
  {
    BeginInv(m, net);
    BeginFacts(m, net);
    hide Begin, Inv, LogInv, WellFormed, TrailInv, SubmitInv, CountInv, VainInv;
    UnservedTrail(m, Begin(m, net));
    UnservedSubmits(m, Begin(m, net));
    UnservedCounts(m, Begin(m, net));
  }

  lemma NothingSubmitted(m: Model, pl: Place)
    requires WellFormed(m) && pl.pos == 0
    ensures SubmittedUpTo(m, [], pl, false)
  {
    var subs: seq<Submit> := [];
    assert subs[..0] == [];
    assert Covers(m, subs[..0], 0) && AllOf(m, subs[0..], 0);
  }

  lemma LogKeeps(m: Model, s: Session, e: Event, s2: Session)
    requires WellFormed(m) && Inv(m, s) && Inv(m, s2) && Moved(m, s, e, s2)
    requires s.pipeline.Some? && s2.pipeline.Some? && LogInv(m, s.pipeline.value)
    ensures LogInv(m, s2.pipeline.value)
  {
    LogCarriesOver(m, s.pipeline.value, s2.pipeline.value);
  }

  lemma RunInvStep(m: Model, h: History, net: Net, e: Event)
    requires WellFormed(m) && RunInv(m, h) && Honest(m, h.s, e) && Orderly(h.s, e)
    ensures var s2 := Step(h.s, net, e); RunInv(m, History(s2, Count(h.tally, h.s, e, s2)))
  {
    var s2 := Step(h.s, net, e);
    StepKeeps(m, h.s, net, e);
    StepMoves(m, h.s, net, e);
    TrailKeeps(m, h.s, e, s2);
    SubmitKeeps(m, h.s, e, s2);
    CountKeeps(m, h, net, e);
    VainKeeps(m, h, net, e);
    if s2.pipeline.Some? {
      LogKeeps(m, h.s, e, s2);
    }
  }

  lemma {:induction false} RunInvHolds(m: Model, h: History, run: seq<Stimulus>)
    requires WellFormed(m) && RunInv(m, h) && Regular(m, h.s, run)
    ensures RunInv(m, Follow(h, run))
    decreases |run|
  {
    if run != [] {
      var s2 := Step(h.s, run[0].net, run[0].event);
      RunInvStep(m, h, run[0].net, run[0].event);
      RunInvHolds(m, History(s2, Count(h.tally, h.s, run[0].event, s2)), run[1..]);
    }
  }

  /** One more honest event at the end of a run. */
  lemma {:induction false} RunGrows(m: Model, h: History, run: seq<Stimulus>, x: Stimulus)
    requires HonestRun(m, h.s, run) && Honest(m, Follow(h, run).s, x.event)
    ensures HonestRun(m, h.s, run + [x])
    ensures OrderlyRun(h.s, run) && Orderly(Follow(h, run).s, x.event) ==> OrderlyRun(h.s, run + [x])
    ensures var h1 := Follow(h, run);
            var s2 := Step(h1.s, x.net, x.event);
            Follow(h, run + [x]) == History(s2, Count(h1.tally, h1.s, x.event, s2))
    decreases |run|
  {
    if run == [] {
      assert [] + [x] == [x] && [x][1..] == [];
    } else {
      var s2 := Step(h.s, run[0].net, run[0].event);
      RunGrows(m, History(s2, Count(h.tally, h.s, run[0].event, s2)), run[1..], x);
      assert (run + [x])[1..] == run[1..] + [x];
    }
  }

  lemma AfterHolds(m: Model, net: Net, run: seq<Stimulus>)
    requires WellFormed(m) && Regular(m, Begin(m, net), run)
    ensures RunInv(m, After(m, net, run))
  {
    BeginHolds(m, net);
    RunInvHolds(m, History(Begin(m, net), Tally([], 0, 0, [])), run);
  }

  lemma {:induction false} GeneratePrefix(m: Model, i: nat, n: nat)
    requires WellFormed(m) && i <= n && Generate(m, n).Some?
    ensures Generate(m, i) == Some(Generate(m, n).value[..i])
    decreases n
  {
    if i == n {
      assert Generate(m, n).value[..n] == Generate(m, n).value;
    } else {
      GeneratePrefix(m, i, n - 1);
      assert Generate(m, n).value[..i] == Generate(m, n - 1).value[..i];
    }
  }

  /** The event-driven pipeline refines the nested loop: what it records is the sequential evaluation of
      max(1, maxTokens) tokens, and until then it holds a prefix of it. */
  lemma PipelineRefinesNestedLoop(m: Model, net: Net, run: seq<Stimulus>)
    requires WellFormed(m) && Regular(m, Begin(m, net), run)
    ensures var s := After(m, net, run).s;
            && |s.responses| <= 1
            && (s.responses != [] ==> s.pipeline.None? && Generate(m, m.Goal()) == Some(s.responses[0].tokens))
            && (s.pipeline.Some? ==>
                  var p := s.pipeline.value;
                  && |p.generated| == p.tokenIndex < m.Goal()
                  && Generate(m, p.tokenIndex) == Some(p.generated)
                  && (Generate(m, m.Goal()).Some? ==> p.generated == Generate(m, m.Goal()).value[..p.tokenIndex]))
  {
    AfterHolds(m, net, run);
    var s := After(m, net, run).s;
    if s.pipeline.Some? && Generate(m, m.Goal()).Some? {
      GeneratePrefix(m, s.pipeline.value.tokenIndex, m.Goal());
    }
  }

  /** Every expert layer is combined exactly once, in the order of the nested loop, and each walk stays on one
      wallet. */
  lemma LayersOnceInOrderOnOneWallet(m: Model, net: Net, run: seq<Stimulus>)
    requires WellFormed(m) && Regular(m, Begin(m, net), run)
    ensures var s := After(m, net, run).s;
            && OneWalletPerShard(s.trail)
            && (s.responses != [] ==> Places(s.trail) == TokensBefore(m, m.Goal()))
            && (s.pipeline.Some? ==>
                  var p := s.pipeline.value;
                  && p.pos < |m.shards| && Places(s.trail) == Visits(m, At(p))
                  && OneWalletPerWalk(p.dispatchLog))
  {
    AfterHolds(m, net, run);
  }

  /** Submissions happen only on the last token, shard by shard in order; a plain shard submits exactly once. */
  lemma SubmissionsCoverShardsInOrder(m: Model, net: Net, run: seq<Stimulus>)
    requires WellFormed(m) && Regular(m, Begin(m, net), run)
    ensures var s := After(m, net, run).s;
            && (s.responses != [] ==> Covers(m, s.submits, |m.shards|))
            && (s.pipeline.Some? && s.pipeline.value.tokenIndex + 1 < m.Goal() ==> s.submits == [])
            && (s.responses != [] && (forall i | 0 <= i < |m.shards| :: !m.HasGroup(i)) ==>
                  && |s.submits| == |m.shards|
                  && forall i | 0 <= i < |m.shards| ::
                       s.submits[i].shardIndex == m.shards[i].index && s.submits[i].tokenIndex + 1 == m.Goal())
  {
    AfterHolds(m, net, run);
    var s := After(m, net, run).s;
    if s.responses != [] && (forall i | 0 <= i < |m.shards| :: !m.HasGroup(i)) {
      PlainCover(m, s.submits, |m.shards|);
    }
  }

  /** How often exactly: a finished request submitted every shard once, plus once for every attempt at its last
      fan-out that failed after submitting; so exactly once if and only if there was no such attempt, and always
      for a plain shard and for the last one. */
  lemma SubmittedOnceIffNeverInVain(m: Model, net: Net, run: seq<Stimulus>, i: nat)
    requires WellFormed(m) && Regular(m, Begin(m, net), run) && i < |m.shards|
    requires After(m, net, run).s.responses != []
    ensures var h := After(m, net, run);
            && TimesSubmitted(h.s.submits, m.shards[i].index) == 1 + TimesInVain(h.tally.inVain, i)
            && (TimesSubmitted(h.s.submits, m.shards[i].index) == 1 <==> i !in h.tally.inVain)
            && (!m.HasGroup(i) || i + 1 == |m.shards| ==> TimesSubmitted(h.s.submits, m.shards[i].index) == 1)
  {
    AfterHolds(m, net, run);
  }

  /** Progress and payment: every accepted reply is a step made, a failed attempt or the fan-out in flight. A finished
      request made every step of the nested loop once, so a run without failures takes exactly that many replies,
      and whoever delivered most of them is paid. */
  lemma RepliesAreAccountedFor(m: Model, net: Net, run: seq<Stimulus>)
    requires WellFormed(m) && Regular(m, Begin(m, net), run)
    ensures var h := After(m, net, run);
            var t, total := h.tally, m.Goal() * TokenSteps(m);
            && (h.s.responses != [] ==>
                  && |h.s.responses| == 1 && |t.accepted| == total + t.failed
                  && DidMost(t.accepted, h.s.responses[0].wallet))
            && (h.s.pipeline.Some? ==>
                  && t.advanced < total
                  && |t.accepted| == t.advanced + t.failed + (if Attempting(h.s) then 1 else 0)
                  && Credits(h.s.pipeline.value.contributions, t.accepted))
  {
    AfterHolds(m, net, run);
    var h := After(m, net, run);
    if h.s.pipeline.Some? {
      DoneBelowTotal(m, At(h.s.pipeline.value));
    }
  }

  lemma {:induction false} StepsGrow(m: Model, i: nat, n: nat)
    requires WellFormed(m) && i < n <= |m.shards|
    ensures StepsBefore(m, i) + ShardSteps(m, i) <= StepsBefore(m, n)
    decreases n
  {
    if i + 1 < n { StepsGrow(m, i, n - 1); }
  }

  lemma {:induction false} RoomForOneMore(t: nat, goal: nat, steps: nat)
    requires t < goal
    ensures t * steps + steps <= goal * steps
    decreases goal
  {
    assert goal * steps == (goal - 1) * steps + steps;
    if t + 1 < goal { RoomForOneMore(t, goal - 1, steps); }
  }

  lemma DoneBelowTotal(m: Model, pl: Place)
    requires WellFormed(m) && Valid(m, pl) && pl.token < m.Goal()
    ensures Done(m, pl) < m.Goal() * TokenSteps(m)
  {
    StepsGrow(m, pl.pos, |m.shards|);
    RoomForOneMore(pl.token, m.Goal(), TokenSteps(m));
  }

  /** Tokens left, then shards left, then layer steps left. */
  ghost predicate Closer(m: Model, after: Place, before: Place) {
    || after.token > before.token
    || (after.token == before.token && after.pos > before.pos)
    || (after.token == before.token && after.pos == before.pos && after.layer > before.layer)
  }

  /** No event sets a live request back; ticks, disconnects, rejected replies and failures leave it where it is. */
  lemma ProgressIsLexicographic(m: Model, s: Session, net: Net, e: Event)
    requires WellFormed(m) && Inv(m, s) && Honest(m, s, e) && Orderly(s, e)
    requires s.pipeline.Some? && Step(s, net, e).pipeline.Some?
    ensures var p, q := s.pipeline.value, Step(s, net, e).pipeline.value;
            && (At(q) == At(p) || Closer(m, At(q), At(p)))
            && (At(q) != At(p) ==> Accepted(s, e) || SubmitsNow(s, e) || (JoinsNow(s, e) && e.combined.Some?))
  {
    hide Step, Inv, Honest, Orderly, Accepted, SubmitsNow, JoinsNow, Attempting, Fanning;
    StepMoves(m, s, net, e);
  }

  // ---- Coherence -------------------------------------------------------------------------------------------------

  /** In every reachable state an assignment names exactly the current shard, token and step, or it was left behind by
      an earlier one; a current one carries a step number exactly when the shard has an expert group; and the kind of
      input matches the place. */
  lemma AssignmentIsCurrent(m: Model, net: Net, run: seq<Stimulus>)
    requires WellFormed(m) && Regular(m, Begin(m, net), run)
    requires After(m, net, run).s.pipeline.Some?
    ensures var s := After(m, net, run).s;
            var p := s.pipeline.value;
            && p.pos < |m.shards| && |p.generated| == p.tokenIndex
            && (s.assignment.Some? && !LeftBehind(m, p, s.assignment.value) ==>
                  && s.assignment.value.shardIndex == m.shards[p.pos].index
                  && s.assignment.value.tokenIndex == p.tokenIndex
                  && (s.assignment.value.step.Some? <==> m.HasGroup(p.pos))
                  && (m.HasGroup(p.pos) ==>
                        && s.assignment.value.step == Some(Layer(p))
                        && p.walk == Some(Walk(Layer(p), s.assignment.value.wallet))))
            && (p.pos == 0 && Layer(p) == m.shards[0].layerStart ==>
                  p.input == if p.tokenIndex == 0 then Prompt(m.promptHex)
                    else NextToken(p.generated[p.tokenIndex - 1]))
            && (p.pos > 0 || Layer(p) > m.shards[p.pos].layerStart ==> p.input.Hidden?)
  {
    AfterHolds(m, net, run);
  }

  /** While a fan-out is joining, its marker keeps every tick that looks now from dispatching anything. */
  lemma TickDuringFanoutChangesNothing(m: Model, net: Net, run: seq<Stimulus>, w: Wallet, net2: Net, resolved: bool)
    requires WellFormed(m) && Regular(m, Begin(m, net), run)
    requires var s := After(m, net, run).s; s.pipeline.Some? && w in s.handlers && s.handlers[w].Joining?
    ensures var s := After(m, net, run).s; s.assignment.Some? && Step(s, net2, RetryTick(resolved, false)) == s
  {
    AfterHolds(m, net, run);
    hide After, Regular, OnTrack, WellFormed;
    var s := After(m, net, run).s;
    assert Working(m, s, s.pipeline.value, w, s.handlers[w]);
  }

  /** A tick on a stalled request dispatches exactly its current step: to the pinned wallet of a walk, or to the next
      miner. It drops the request exactly if the pinned wallet is gone, and waits only if there is no miner. */
  lemma StalledTickDispatchesOrDrops(m: Model, s: Session, net: Net)
    requires WellFormed(m) && Inv(m, s) && s.pipeline.Some? && s.assignment.None?
    ensures var p, s2 := s.pipeline.value, Step(s, net, RetryTick(true, false));
            && (s2.pipeline.None? <==> p.walk.Some? && p.walk.value.wallet !in net.connected)
            && (s2.pipeline.Some? && (p.walk.Some? || Reachable(net)) ==>
                  && s2.assignment.Some? && Current(s2.pipeline.value, s2.assignment.value)
                  && At(s2.pipeline.value) == At(p) && s2.pipeline.value.input == p.input
                  && s2.assignment.value.wallet == (if p.walk.Some? then p.walk.value.wallet else net.nextMiner.value)
                  && |s2.pipeline.value.dispatchLog| == |p.dispatchLog| + 1)
            && (s2.pipeline.Some? && s2.assignment.None? ==> p.walk.None? && !Reachable(net))
  {
    DispatchKeeps(m, s, net);
    hide EvalShards, EvalToken, Generate;
  }

  /** After a shard's last join the next shard is dispatched exactly if a miner can be picked. If none can, the
      marker of the old step is left behind. */
  lemma BoundaryJoinNeedsAMiner(m: Model, s: Session, net: Net, w: Wallet, t: Tensor)
    requires WellFormed(m) && Inv(m, s) && s.pipeline.Some?
    requires w in s.handlers && s.handlers[w].Joining? && !s.handlers[w].fanout.interior
    requires var p, f := s.pipeline.value, s.handlers[w].fanout;
             t == m.combine(p.pos, p.tokenIndex, f.layer, f.tensor, f.experts)
    ensures var s2 := OnFanoutDone(s, net, w, Some(t));
            && s2.pipeline.Some? && s2.pipeline.value.pos == s.pipeline.value.pos + 1 && s2.assignment.Some?
            && (Reachable(net) <==> Current(s2.pipeline.value, s2.assignment.value))
            && (!Reachable(net) <==>
                  s2.assignment == s.assignment && LeftBehind(m, s2.pipeline.value, s2.assignment.value))
  {
    hide OnTrack;
    var p := s.pipeline.value;
    assert Working(m, s, p, w, s.handlers[w]);
    assert m.HasGroup(p.pos);
    var s2 := OnFanoutDone(s, net, w, Some(t));
    assert s2.pipeline.value.pos == p.pos + 1;
    if !Reachable(net) { Overtaken(m, p, s2.pipeline.value, s.assignment.value); }
    assert s2.assignment.value.shardIndex == m.shards[if Reachable(net) then p.pos + 1 else p.pos].index;
  }

  lemma LeftBehindIsNotCurrent(m: Model, p: Pipeline, a: Assignment)
    requires WellFormed(m) && p.shards == m.shards && p.pos < |m.shards|
    ensures !(LeftBehind(m, p, a) && Current(p, a))
  {
  }

  /** An assignment left behind holds the request exactly as it is, whatever ticks that look now, replies and other
      disconnects follow, until its wallet disconnects. */
  lemma {:induction false} LeftBehindStalls(m: Model, h: History, run: seq<Stimulus>)
    requires WellFormed(m) && Inv(m, h.s) && Regular(m, h.s, run) && h.s.handlers == map[]
    requires h.s.pipeline.Some? && h.s.assignment.Some? && LeftBehind(m, h.s.pipeline.value, h.s.assignment.value)
    requires forall x | x in run ::
               && (x.event.Disconnect? ==> x.event.wallet != h.s.assignment.value.wallet)
               && (x.event.RetryTick? ==> !x.event.late)
    ensures Follow(h, run).s == h.s
    decreases |run|
  {
    if run != [] {
      LeftBehindIsNotCurrent(m, h.s.pipeline.value, h.s.assignment.value);
      assert run[0] in run;
      var s2 := Step(h.s, run[0].net, run[0].event);
      assert s2 == h.s;
      LeftBehindStalls(m, History(s2, Count(h.tally, h.s, run[0].event, s2)), run[1..]);
    }
  }

  /** The disconnect that frees it leaves a stalled request, which the next tick dispatches. */
  lemma MarkedWalletLeaving(m: Model, s: Session, net: Net, net2: Net)
    requires WellFormed(m) && Inv(m, s) && s.pipeline.Some? && s.assignment.Some?
    requires LeftBehind(m, s.pipeline.value, s.assignment.value)
    requires s.pipeline.value.walk.None? && Reachable(net2)
    ensures var s2 := Step(Step(s, net, Disconnect(s.assignment.value.wallet)), net2, RetryTick(true, false));
            && s2.pipeline.Some? && At(s2.pipeline.value) == At(s.pipeline.value)
            && s2.assignment.Some? && Current(s2.pipeline.value, s2.assignment.value)
  {
    var s1 := Step(s, net, Disconnect(s.assignment.value.wallet));
    StepKeeps(m, s, net, Disconnect(s.assignment.value.wallet));
    StalledTickDispatchesOrDrops(m, s1, net2);
  }
}
