/** For which token a joined output was computed.

    Dispatches are keyed by request, layer and expert, not by token, and a reply is matched by key and wallet only.
    So a reply that comes too late for its own dispatch can be put through to a later one that reuses the key. */
module ExpertTokens {
  import opened Common
  import opened Rosters
  import opened ExpertCombine
  import opened ExpertFanout

  /** A miner answers each dispatch it received at most once, for that dispatch's key and token. */
  ghost predicate Honest(w: World, e: Event) {
    e.Result? ==>
      && e.origin < |w.sb.attempts| && e.origin !in w.answered
      && var a := w.sb.attempts[e.origin];
         a.sent && a.wallet == e.wallet && a.key == e.reply.key && a.token == e.reply.token
  }

  ghost predicate HonestRun(w: World, run: seq<Event>)
    decreases |run|
  {
    run != [] ==> Honest(w, run[0]) && HonestRun(Step(w, run[0]), run[1..])
  }

  /** The attempt is the one registered under its key, so the next accepted reply to the key goes to it. */
  ghost predicate Registered(sb: Switchboard, i: nat) {
    i < |sb.attempts| && sb.attempts[i].key in sb.pending && sb.pending[sb.attempts[i].key] == i
  }

  /** The wallet owes no answer to a dispatch of the same key for another token. */
  ghost predicate Unambiguous(w: World, i: nat)
    requires i < |w.sb.attempts|
  {
    forall j | 0 <= j < |w.sb.attempts| && j !in w.answered && SameLine(w.sb.attempts[j], w.sb.attempts[i]) ::
      w.sb.attempts[j].token == w.sb.attempts[i].token
  }

  predicate SameLine(a: Attempt, b: Attempt) {
    a.sent && a.key == b.key && a.wallet == b.wallet
  }

  /** What the attempt took, if anything, was computed for its own token. */
  ghost predicate OwnToken(sb: Switchboard, i: nat) {
    i < |sb.attempts| && sb.attempts[i].channel.Delivered? ==>
      sb.attempts[i].channel.reply.token == sb.attempts[i].token
  }

  // ---- A late reply ---------------------------------------------------------------------------------------------

  /** A reply to a dispatch that is no longer registered changes nothing, exactly unless its key has been dispatched
      again to the same wallet; then it is put through to that later dispatch. */
  lemma LateReplyReachesOnlyAReusedKey(w: World, e: Event)
    requires Inv(w) && Honest(w, e) && e.Result? && !Registered(w.sb, e.origin)
    ensures var key, sb2 := e.reply.key, Step(w, e).sb;
            && (sb2 == w.sb <==> key !in w.sb.pending || w.sb.assignments[key] != e.wallet)
            && (sb2 != w.sb ==>
                  && w.sb.pending[key] != e.origin
                  && sb2.attempts[w.sb.pending[key]].channel == Delivered(e.reply, e.wallet))
  {
    var key, sb2 := e.reply.key, Step(w, e).sb;
    if key in w.sb.pending && w.sb.assignments[key] == e.wallet {
      assert sb2.attempts[w.sb.pending[key]].channel == Delivered(e.reply, e.wallet);
      assert w.sb.attempts[w.sb.pending[key]].channel.Open?;
    }
  }

  // ---- The exact condition -----------------------------------------------------------------------------------------

  /** Whether an attempt registered now will only ever take a reply for its own token: exactly if its wallet owes no
      answer to an earlier dispatch of the same key for another token. */
  lemma OwnTokenIffNothingElseOwed(w: World, i: nat)
    requires Inv(w) && Registered(w.sb, i)
    ensures (forall run | HonestRun(w, run) :: OwnToken(Follow(w, run).sb, i)) <==> Unambiguous(w, i)
  {
    if Unambiguous(w, i) {
      forall run | HonestRun(w, run) ensures OwnToken(Follow(w, run).sb, i) {
        GuardedRun(w, run, i);
      }
    } else {
      var run := OtherTokenArrives(w, i);
      assert !OwnToken(Follow(w, run).sb, i);
    }
  }

  /** An answer that is still owed for another token may be the next to arrive. */
  lemma OtherTokenArrives(w: World, i: nat) returns (run: seq<Event>)
    requires Inv(w) && Registered(w.sb, i) && !Unambiguous(w, i)
    ensures HonestRun(w, run) && !OwnToken(Follow(w, run).sb, i)
  {
    var j :| 0 <= j < |w.sb.attempts| && j !in w.answered && SameLine(w.sb.attempts[j], w.sb.attempts[i])
             && w.sb.attempts[j].token != w.sb.attempts[i].token;
    var a := w.sb.attempts[j];
    var e := Result(a.wallet, Reply(a.key, a.token, ExpertOutput([], None)), j);
    run := [e];
    OneStep(w, e);
    hide Follow, HonestRun;
    assert Step(w, e).sb.attempts[i].channel == Delivered(e.reply, a.wallet);
  }

  lemma OneStep(w: World, e: Event)
    requires Honest(w, e)
    ensures HonestRun(w, [e]) && Follow(w, [e]) == Step(w, e)
  {
    assert [e][1..] == [];
    assert Follow(Step(w, e), []) == Step(w, e);
  }

  /** An attempt that is registered unambiguously, or is no longer registered, with the reply it may have taken. */
  ghost predicate Guarded(w: World, i: nat) {
    i < |w.sb.attempts| && OwnToken(w.sb, i) && (Registered(w.sb, i) ==> Unambiguous(w, i))
  }

  /** Nothing but a new dispatch of its own key, which unregisters it, adds to what competes with an attempt. */
  ghost predicate Undisturbed(sb: Switchboard, sb2: Switchboard, i: nat)
    requires i < |sb.attempts|
  {
    && Extends(sb, sb2)
    && (sb2.attempts[i].channel.Delivered? ==> sb.attempts[i].channel.Delivered?)
    && (Registered(sb2, i) ==>
          && Registered(sb, i)
          && forall j | |sb.attempts| <= j < |sb2.attempts| :: sb2.attempts[j].key != sb.attempts[i].key)
  }

  lemma UndisturbedTwice(a: Switchboard, b: Switchboard, c: Switchboard, i: nat)
    requires i < |a.attempts| && Undisturbed(a, b, i) && Undisturbed(b, c, i)
    ensures Undisturbed(a, c, i)
  {
    forall j | |a.attempts| <= j < |c.attempts| && Registered(c, i) ensures c.attempts[j].key != a.attempts[i].key {
      if j < |b.attempts| { assert c.attempts[j].key == b.attempts[j].key; }
    }
  }

  lemma RegisterDisturbsOnlyItsKey(sb: Switchboard, key: Key, token: nat, wallet: Wallet, sent: bool, i: nat)
    requires Wired(sb) && i < |sb.attempts|
    ensures Undisturbed(sb, Register(sb, key, token, wallet, sent), i)
  {
    RegisterKeeps(sb, key, token, wallet, sent);
  }

  lemma ForgetDisturbsNothing(sb: Switchboard, key: Key, i: nat)
    requires Wired(sb) && i < |sb.attempts|
    ensures Undisturbed(sb, Forget(sb, key), i)
  {
    ForgetKeeps(sb, key);
  }

  lemma {:induction false} TryDisturbsNothing(sb: Switchboard, slot: Slot, net: nat -> Net, i: nat)
    requires Wired(sb) && i < |sb.attempts|
    ensures Undisturbed(sb, Try(sb, slot, net).0, i)
    decreases MAX_RETRIES + 1 - |slot.tried|, 1
  {
    var n := net(|slot.tried|);
    if slot.wallet !in n.roster.order {
      FailDisturbsNothing(sb, slot, net, i);
    } else {
      var sb1 := Register(sb, slot.key, slot.token, slot.wallet, n.sent);
      RegisterKeeps(sb, slot.key, slot.token, slot.wallet, n.sent);
      RegisterDisturbsOnlyItsKey(sb, slot.key, slot.token, slot.wallet, n.sent, i);
      if !n.sent {
        hide Register, Undisturbed;
        ForgetKeeps(sb1, slot.key);
        ForgetDisturbsNothing(sb1, slot.key, i);
        hide Forget;
        UndisturbedTwice(sb, sb1, Forget(sb1, slot.key), i);
        FailDisturbsNothing(Forget(sb1, slot.key), slot, net, i);
        UndisturbedTwice(sb, Forget(sb1, slot.key), Fail(Forget(sb1, slot.key), slot, net).0, i);
      }
    }
  }

  lemma {:induction false} FailDisturbsNothing(sb: Switchboard, slot: Slot, net: nat -> Net, i: nat)
    requires Wired(sb) && i < |sb.attempts|
    ensures Undisturbed(sb, Fail(sb, slot, net).0, i)
    decreases MAX_RETRIES + 1 - |slot.tried|, 0
  {
    var tried := slot.tried + [slot.wallet];
    var host := RetryHost(slot, tried, net(|tried|).roster);
    if |tried| <= MAX_RETRIES && host.Some? {
      TryDisturbsNothing(sb, slot.(tried := tried, used := slot.used + [host.value], wallet := host.value), net, i);
    }
  }

  lemma PollDisturbsNothing(sb: Switchboard, slot: Slot, timedOut: bool, net: nat -> Net, i: nat)
    requires Wired(sb) && i < |sb.attempts|
    ensures Undisturbed(sb, Poll(sb, slot, timedOut, net).0, i)
  {
    hide Try, Fail, Forget;
    if slot.outcome.Planned? {
      TryDisturbsNothing(sb, slot, net, i);
    } else if slot.outcome.Waiting? {
      ForgetKeeps(sb, slot.key);
      ForgetDisturbsNothing(sb, slot.key, i);
      FailDisturbsNothing(Forget(sb, slot.key), slot, net, i);
      hide Undisturbed;
      UndisturbedTwice(sb, Forget(sb, slot.key), Fail(Forget(sb, slot.key), slot, net).0, i);
    }
  }

  lemma UndisturbedStaysGuarded(w: World, w2: World, i: nat)
    requires Guarded(w, i) && Undisturbed(w.sb, w2.sb, i) && w.answered <= w2.answered
    ensures Guarded(w2, i)
  {
    if Registered(w2.sb, i) {
      forall j | 0 <= j < |w2.sb.attempts| && j !in w2.answered && SameLine(w2.sb.attempts[j], w2.sb.attempts[i])
        ensures w2.sb.attempts[j].token == w2.sb.attempts[i].token
      {
        assert j < |w.sb.attempts| && SameLine(w.sb.attempts[j], w.sb.attempts[i]);
      }
    }
  }

  lemma ResultStaysGuarded(w: World, e: Event, i: nat)
    requires Inv(w) && Guarded(w, i) && Honest(w, e) && e.Result?
    ensures Guarded(Step(w, e), i)
  {
    var w2 := Step(w, e);
    ResultKeeps(w.sb, e.wallet, e.reply);
    if w2.sb.attempts[i].channel.Delivered? && !w.sb.attempts[i].channel.Delivered? {
      assert Registered(w.sb, i) && SameLine(w.sb.attempts[e.origin], w.sb.attempts[i]);
    }
    forall j | 0 <= j < |w2.sb.attempts| && Registered(w2.sb, i) && j !in w2.answered
      && SameLine(w2.sb.attempts[j], w2.sb.attempts[i])
      ensures w2.sb.attempts[j].token == w2.sb.attempts[i].token
    {
      assert SameLine(w.sb.attempts[j], w.sb.attempts[i]);
    }
  }

  lemma DisconnectDisturbsNothing(sb: Switchboard, wallet: Wallet, i: nat)
    requires Wired(sb) && i < |sb.attempts|
    ensures Undisturbed(sb, OnDisconnect(sb, wallet), i)
  {
    DisconnectKeeps(sb, wallet);
  }

  lemma StepStaysGuarded(w: World, e: Event, i: nat)
    requires Inv(w) && Guarded(w, i) && Honest(w, e)
    ensures Guarded(Step(w, e), i)
  {
    match e
    case Result(_, _, _) => ResultStaysGuarded(w, e, i);
    case Disconnect(wallet) =>
      DisconnectDisturbsNothing(w.sb, wallet, i);
      UndisturbedStaysGuarded(w, Step(w, e), i);
    case Run(k, timedOut, net) =>
      if k < |w.slots| {
        PollDisturbsNothing(w.sb, w.slots[k], timedOut, net, i);
        hide Undisturbed, Poll, Guarded;
        UndisturbedStaysGuarded(w, Step(w, e), i);
      }
    case Plan(_, _, _, _, _) =>
    case Cancel(_) =>
  }

  lemma {:induction false} GuardedRun(w: World, run: seq<Event>, i: nat)
    requires Inv(w) && Guarded(w, i) && HonestRun(w, run)
    ensures Guarded(Follow(w, run), i)
    decreases |run|
  {
    if run != [] {
      StepStaysGuarded(w, run[0], i);
      StepKeeps(w, run[0]);
      GuardedRun(Step(w, run[0]), run[1..], i);
    }
  }

  // ---- Whole runs ------------------------------------------------------------------------------------------------

  /** Every dispatch of the run was unambiguous at the moment it was registered. */
  ghost predicate CleanRun(w: World, run: seq<Event>)
    decreases |run|
  {
    run != [] ==>
      var w2 := Step(w, run[0]);
      && (forall i | |w.sb.attempts| <= i < |w2.sb.attempts| && Registered(w2.sb, i) :: Unambiguous(w2, i))
      && CleanRun(w2, run[1..])
  }

  ghost predicate AllGuarded(w: World) {
    forall i | 0 <= i < |w.sb.attempts| :: Guarded(w, i)
  }

  lemma NewAttemptsAreOpenOrDropped(w: World, e: Event, i: nat)
    requires Inv(w) && |w.sb.attempts| <= i < |Step(w, e).sb.attempts|
    ensures !Step(w, e).sb.attempts[i].channel.Delivered?
  {
    if e.Run? && e.slot < |w.slots| {
      PollDeliversNothing(w.sb, w.slots[e.slot], e.timedOut, e.net, i);
    }
  }

  lemma {:induction false} CleanRunIsGuarded(w: World, run: seq<Event>)
    requires Inv(w) && AllGuarded(w) && HonestRun(w, run) && CleanRun(w, run)
    ensures AllGuarded(Follow(w, run))
    decreases |run|
  {
    if run != [] {
      var w2 := Step(w, run[0]);
      StepKeeps(w, run[0]);
      forall i | 0 <= i < |w2.sb.attempts| ensures Guarded(w2, i) {
        if i < |w.sb.attempts| { StepStaysGuarded(w, run[0], i); }
        else { NewAttemptsAreOpenOrDropped(w, run[0], i); }
      }
      CleanRunIsGuarded(w2, run[1..]);
    }
  }

  /** If no dispatch was made while its wallet owed an answer for another token, every joined output was computed
      for its group's own token. */
  lemma JoinedOutputsAreForTheirToken(run: seq<Event>, from: nat, to: nat, sum: Combined, i: nat)
    requires HonestRun(Empty(), run) && CleanRun(Empty(), run)
    requires from <= i < to <= |Follow(Empty(), run).slots| && JoinsTo(Follow(Empty(), run).slots[from..to], sum)
    ensures var slot := Follow(Empty(), run).slots[i];
            slot.outcome.Won? && slot.outcome.reply.token == slot.token
  {
    JoinBarrier(run, from, to, sum, i);
    CleanRunIsGuarded(Empty(), run);
    var w := Follow(Empty(), run);
    var slot := w.slots[i];
    var k :| 0 <= k < |w.sb.attempts|
      && TookReply(w.sb.attempts[k], slot.key, slot.token, slot.wallet, slot.outcome.reply);
    assert Guarded(w, k);
  }

  // ---- A joined output for the wrong token -----------------------------------------------------------------------

  const KEY := Key("r", 0, 1, 0, 7)
  const OUTPUT := ExpertOutput([1], Some([2.0]))

  function OneHost(): Roster {
    Roster(["w"], {}, {}, map["w" := 1])
  }

  function Always(): nat -> Net {
    (k: nat) => Net(OneHost(), true)
  }

  function PlanFor(token: nat): Event {
    Plan(KEY, token, [Selected(7, 1.0, 0)], [], OneHost())
  }

  lemma OneHostIsPicked()
    ensures BestHost(OneHost(), 0, {}) == Some("w") && BestHost(OneHost(), 0, {"w"}) == None
    ensures PlanHosts(OneHost(), [Selected(7, 1.0, 0)], []) == Some(["w"])
  {
    assert OneHost().ExpertHosts(0, {}) == {"w"};
    assert OneHost().ExpertHosts(0, {"w"}) == {};
    var none: seq<Wallet> := [];
    assert (set w | w in none) == {};
    assert PlanHosts(OneHost(), [], [] + ["w"]) == Some([]);
    assert [Selected(7, 1.0, 0)][1..] == [];
    assert ["w"] + [] == ["w"];
  }

  function SlotFor(token: nat, outcome: Outcome): Slot {
    Slot(KEY, token, 1.0, "w", ["w"], ["w"], [], outcome)
  }

  function AttemptFor(token: nat, channel: Channel): Attempt {
    Attempt(KEY, token, "w", true, channel)
  }

  /** The switchboard with the attempts so far, the last of them registered or none. */
  function Board(attempts: seq<Attempt>, registered: bool): Switchboard
    requires attempts != []
  {
    if registered then
      var last: nat := |attempts| - 1;
      Switchboard(map[KEY := "w"], map[KEY := last], map[KEY := "w"], attempts)
    else Switchboard(map[], map[], map[KEY := "w"], attempts)
  }

  lemma PlanAppends(w: World, token: nat)
    ensures Step(w, PlanFor(token)) == w.(slots := w.slots + [SlotFor(token, Planned)])
  {
    OneHostIsPicked();
    assert [] + ["w"] == ["w"];
    assert KeyOf(KEY, Selected(7, 1.0, 0)) == KEY;
    assert SlotsOf(KEY, token, [Selected(7, 1.0, 0)], ["w"], []) == [SlotFor(token, Planned)];
  }

  lemma PlannedIsDispatched(sb: Switchboard, attempts: seq<Attempt>, token: nat)
    requires if attempts == [] then sb == Empty().sb else sb == Board(attempts, false)
    ensures Try(sb, SlotFor(token, Planned), Always())
         == (Board(attempts + [AttemptFor(token, Open)], true), SlotFor(token, Waiting(|attempts|)))
  {
    var sb1 := Register(sb, KEY, token, "w", true);
    assert DropPending(sb, KEY) == attempts;
    assert sb1 == Board(attempts + [AttemptFor(token, Open)], true);
  }

  lemma TimedOutIsLost()
    ensures Poll(Board([AttemptFor(0, Open)], true), SlotFor(0, Waiting(0)), true, Always())
         == (Board([AttemptFor(0, Dropped)], false), SlotFor(0, Lost).(tried := ["w"]))
  {
    OneHostIsPicked();
    var sb, slot := Forget(Board([AttemptFor(0, Open)], true), KEY), SlotFor(0, Waiting(0));
    assert sb == Board([AttemptFor(0, Dropped)], false);
    assert slot.tried + ["w"] == ["w"] && (set w | w in slot.used + ["w"]) == {"w"};
    assert RetryHost(slot, ["w"], OneHost()) == None;
  }

  function Late(): Reply {
    Reply(KEY, 0, OUTPUT)
  }

  lemma LateIsTaken()
    ensures OnResult(Board([AttemptFor(0, Dropped), AttemptFor(1, Open)], true), "w", Late())
         == Board([AttemptFor(0, Dropped), AttemptFor(1, Delivered(Late(), "w"))], true).(pending := map[])
  {
  }

  lemma TakenIsWon()
    ensures Poll(Board([AttemptFor(0, Dropped), AttemptFor(1, Delivered(Late(), "w"))], true).(pending := map[]),
                 SlotFor(1, Waiting(1)), false, Always())
         == (Board([AttemptFor(0, Dropped), AttemptFor(1, Delivered(Late(), "w"))], false), SlotFor(1, Won(Late())))
  {
  }

  /** An honest run leads from nothing to `w`. */
  ghost predicate Reached(run: seq<Event>, w: World) {
    HonestRun(Empty(), run) && Follow(Empty(), run) == w
  }

  lemma {:induction false} RunGrows(w: World, run: seq<Event>, e: Event)
    requires HonestRun(w, run) && Honest(Follow(w, run), e)
    ensures HonestRun(w, run + [e]) && Follow(w, run + [e]) == Step(Follow(w, run), e)
    decreases |run|
  {
    if run == [] {
      assert [] + [e] == [e] && [e][1..] == [];
    } else {
      RunGrows(Step(w, run[0]), run[1..], e);
      assert (run + [e])[1..] == run[1..] + [e];
    }
  }

  lemma ReachNext(run: seq<Event>, w: World, e: Event) returns (longer: seq<Event>)
    requires Reached(run, w) && Honest(w, e)
    ensures Reached(longer, Step(w, e))
  {
    hide Step, Honest;
    RunGrows(Empty(), run, e);
    longer := run + [e];
  }

  lemma FirstIsGivenUp() returns (run: seq<Event>)
    ensures Reached(run, World(Board([AttemptFor(0, Dropped)], false), [SlotFor(0, Lost).(tried := ["w"])], {}))
  {
    var w0 := Empty();
    assert Reached([], w0);
    PlanAppends(w0, 0);
    var w1 := World(Empty().sb, [SlotFor(0, Planned)], {});
    assert Step(w0, PlanFor(0)) == w1;
    run := ReachNext([], w0, PlanFor(0));
    PlannedIsDispatched(Empty().sb, [], 0);
    var w2 := World(Board([AttemptFor(0, Open)], true), [SlotFor(0, Waiting(0))], {});
    assert [] + [AttemptFor(0, Open)] == [AttemptFor(0, Open)];
    assert Step(w1, Run(0, false, Always())) == w2;
    run := ReachNext(run, w1, Run(0, false, Always()));
    TimedOutIsLost();
    run := ReachNext(run, w2, Run(0, true, Always()));
  }

  lemma SecondIsDispatched(w: World) returns (w2: World)
    requires w == World(Board([AttemptFor(0, Dropped)], false), [SlotFor(0, Lost).(tried := ["w"])], {})
    ensures w2 == Step(Step(w, PlanFor(1)), Run(1, false, Always()))
    ensures w2.sb == Board([AttemptFor(0, Dropped), AttemptFor(1, Open)], true) && w2.answered == {}
    ensures |w2.slots| == 2 && w2.slots[1] == SlotFor(1, Waiting(1))
  {
    PlanAppends(w, 1);
    PlannedIsDispatched(w.sb, w.sb.attempts, 1);
    assert [AttemptFor(0, Dropped)] + [AttemptFor(1, Open)] == [AttemptFor(0, Dropped), AttemptFor(1, Open)];
    w2 := Step(Step(w, PlanFor(1)), Run(1, false, Always()));
  }

  lemma JoinsAlone(slot: Slot)
    requires slot == SlotFor(1, Won(Late()))
    ensures JoinsTo([slot], Combined([1], [2.0]))
  {
    var terms := TermsOf([slot]);
    assert terms == [Term(1.0, OUTPUT)];
    assert [1][..0] == [];
    assert Length([1]) == 1;
    assert terms[..0] == [];
    assert Fits([1], terms[0]);
    assert ExpertCombine.At(terms, 0) == 2.0;
  }

  /** A dispatch for token 0 times out and is given up; the next token's dispatch of the same layer and expert to the
      same wallet then takes the late reply, and joins with it. */
  lemma StaleOutputJoins() returns (run: seq<Event>, sum: Combined)
    ensures HonestRun(Empty(), run)
    ensures var slots := Follow(Empty(), run).slots;
            && |slots| == 2 && JoinsTo(slots[1..2], sum)
            && slots[1].token == 1 && slots[1].outcome.Won? && slots[1].outcome.reply.token == 0
  {
    run := FirstIsGivenUp();
    var w3 := World(Board([AttemptFor(0, Dropped)], false), [SlotFor(0, Lost).(tried := ["w"])], {});
    var w5 := SecondIsDispatched(w3);
    run := ReachNext(run, w3, PlanFor(1));
    run := ReachNext(run, Step(w3, PlanFor(1)), Run(1, false, Always()));
    run := StaleIsTaken(run, w5);
    sum := Combined([1], [2.0]);
    var slots := Follow(Empty(), run).slots;
    assert slots[1..2] == [slots[1]];
    JoinsAlone(slots[1]);
  }

  lemma StaleIsTaken(run: seq<Event>, w: World) returns (longer: seq<Event>)
    requires Reached(run, w) && |w.slots| == 2 && w.slots[1] == SlotFor(1, Waiting(1)) && w.answered == {}
    requires w.sb == Board([AttemptFor(0, Dropped), AttemptFor(1, Open)], true)
    ensures HonestRun(Empty(), longer)
    ensures var slots := Follow(Empty(), longer).slots; |slots| == 2 && slots[1] == SlotFor(1, Won(Late()))
  {
    LateIsTaken();
    TakenIsWon();
    longer := ReachNext(run, w, Result("w", Late(), 0));
    longer := ReachNext(longer, Step(w, Result("w", Late(), 0)), Run(1, false, Always()));
  }
}
