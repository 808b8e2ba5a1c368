/** The engine for whole-model requests: its caches, and the handlers that hand requests out and take answers in. */
module OpoiEngines {
  import opened Common
  import opened Bytes
  import opened Rosters
  import opened LedgerTables
  import L = Ledgers
  import A = Assignments

  /** Somebody can be picked wherever the round-robin stands. */
  ghost predicate Served(roster: Roster) {
    forall last :: roster.PickNext(last).Some?
  }

  /** Every request waiting that is not served elsewhere is offered to somebody. */
  ghost predicate OffersAll(d: A.Desk, manifest: RequestId -> A.Manifest, run: seq<A.Event>) {
    forall r | A.Waiting(d, r) && manifest(r).NotActive? :: Offers(run, r)
  }

  ghost predicate Offers(run: seq<A.Event>, request: RequestId) {
    exists e :: e in run && e.Assign? && e.request == request
  }

  class OpoiEngine {
    const table: LedgerTable
    var assignments: map<RequestId, Wallet>
    var pending: map<RequestId, bool>
    var lastAssigned: Option<Wallet>
    /** Assignment lines that reached a wallet, and answers that were stored, in order. */
    var sent: seq<A.Sent>
    var answers: seq<A.Answer>

    function View(): A.Desk
      reads this, table
    {
      A.Desk(assignments, pending, table.View(), sent, answers)
    }

    constructor (table: LedgerTable)
      ensures this.table == table && View() == A.Desk(map[], map[], table.View(), [], [])
    {
      this.table := table;
      assignments, pending, lastAssigned, sent, answers := map[], map[], None, [], [];
    }

    /** Checks the assignee, the standing answers, the text and its hash, in this order; then stores and forgets. */
    method HandleSubmitResult(digest: A.Digest, wallet: Wallet, request: RequestId, hash: string, hex: string)
      returns (r: Result<nat, A.Refusal>)
      modifies this, table
      ensures View() == A.OnSubmit(old(View()), digest, wallet, request, hash, hex)
      ensures var refusal := A.Refused(old(View()), digest, wallet, request, hash, hex);
              r == if refusal.Some? then Err(refusal.value) else Ok(|old(table.rows)|)
    {
      if request !in assignments { return Err(A.UnknownRequest); }
      if assignments[request] != wallet { return Err(A.NotAssignedToCaller); }
      var active := table.FindActive(request);
      if active { return Err(A.AlreadyAnswered); }
      var raw := HexDecode(hex);
      if raw.None? { return Err(A.NotHex); }
      if !A.EqualIgnoringCase(HexEncode(digest(raw.value)), hash) { return Err(A.HashMismatch); }
      var id := table.CreateSubmission(wallet, request);
      answers := answers + [A.Answer(wallet, request, hash, hex, id.value)];
      assignments := assignments - {request};
      pending := pending - {request};
      r := Ok(id.value);
    }

    /** Keeps a prompt for a cached request, or caches the request if the chain or the caller describes it. */
    method ReceivePrompt(request: RequestId, known: bool) returns (ok: bool)
      modifies this`pending
      ensures View() == A.OnPrompt(old(View()), request, known)
      ensures ok <==> request in old(pending) || known
    {
      ok := request in pending || known;
      if ok { pending := pending[request := true]; }
    }

    /** Caches what the chain lists, then hands out every waiting request in turn. */
    method PollAndAssignTick(ghost digest: A.Digest, listed: seq<RequestId>, manifest: RequestId -> A.Manifest,
                             roster: Roster, reached: (RequestId, Wallet) -> bool)
      returns (ghost run: seq<A.Event>)
      modifies this
      ensures View() == A.Follow(old(View()), digest, run)
      ensures forall e | e in run :: && (e.Listed? || e.Assign?)
                                     && (e.Listed? ==> e.request in listed)
                                     && (e.Assign? && e.reached ==> e.picked.Some? && e.picked.value in roster.order)
      ensures forall r | r in listed :: A.Listed(r) in run
      ensures Served(roster) ==> OffersAll(old(View()), manifest, run)
    {
      var cached := CacheListed(digest, listed);
      var handed := AssignWaiting(digest, manifest, roster, reached);
      run := cached + handed;
      A.FollowTwice(old(View()), digest, cached, handed);
      assert forall r | Offers(handed, r) :: Offers(run, r);
    }

    method CacheListed(ghost digest: A.Digest, listed: seq<RequestId>) returns (ghost run: seq<A.Event>)
      modifies this`pending
      ensures View() == A.Follow(old(View()), digest, run)
      ensures forall e | e in run :: e.Listed? && e.request in listed
      ensures forall r | r in listed :: A.Listed(r) in run
      ensures forall r | A.Waiting(old(View()), r) :: A.Waiting(View(), r)
    {
      hide A.Follow;
      run := [];
      A.FollowNothing(View(), digest);
      for i := 0 to |listed|
        invariant View() == A.Follow(old(View()), digest, run)
        invariant forall e | e in run :: e.Listed? && e.request in listed
        invariant forall j | 0 <= j < i :: A.Listed(listed[j]) in run
        invariant forall r | A.Waiting(old(View()), r) :: A.Waiting(View(), r)
      {
        A.FollowSnoc(old(View()), digest, run, A.Listed(listed[i]));
        run := run + [A.Listed(listed[i])];
        if listed[i] !in pending {
          var active := table.FindActive(listed[i]);
          if !active { pending := pending[listed[i] := false]; }
        }
      }
    }

    /** Each waiting request goes to the next miner, until nobody is left to pick. */
    method AssignWaiting(ghost digest: A.Digest, manifest: RequestId -> A.Manifest, roster: Roster,
                         reached: (RequestId, Wallet) -> bool)
      returns (ghost run: seq<A.Event>)
      modifies this`assignments, this`lastAssigned, this`sent
      ensures View() == A.Follow(old(View()), digest, run)
      ensures forall e | e in run :: e.Assign? && (e.reached ==> e.picked.Some? && e.picked.value in roster.order)
      ensures Served(roster) ==> OffersAll(old(View()), manifest, run)
    {
      hide A.Follow;
      var candidates := set r | r in pending && pending[r] && r !in assignments;
      run := [];
      A.FollowNothing(View(), digest);
      while candidates != {}
        invariant View() == A.Follow(old(View()), digest, run)
        invariant forall e | e in run :: e.Assign? && (e.reached ==> e.picked.Some? && e.picked.value in roster.order)
        invariant forall r | r in candidates :: A.Waiting(View(), r)
        invariant forall r | A.Waiting(old(View()), r) && manifest(r).NotActive? :: r in candidates || Offers(run, r)
        decreases |candidates|
      {
        var request :| request in candidates;
        candidates := candidates - {request};
        if !manifest(request).NotActive? { continue; }
        var picked := roster.PickNext(lastAssigned);
        if picked.None? { break; }
        lastAssigned := picked;
        var wallet := picked.value;
        var ok := wallet in roster.order && reached(request, wallet);
        HandOut(request, wallet, ok);
        ghost var e := A.Assign(request, A.NotActive, Some(wallet), ok);
        A.FollowSnoc(old(View()), digest, run, e);
        ghost var longer := run + [e];
        assert forall r | Offers(run, r) :: Offers(longer, r);
        assert e in longer && Offers(longer, request);
        run := longer;
      }
    }

    /** Assigns first, so that nobody else gets the request, and takes it back if the line cannot be delivered. */
    method HandOut(request: RequestId, wallet: Wallet, reached: bool)
      requires A.Waiting(View(), request)
      modifies this`assignments, this`sent
      ensures View() == A.OnAssign(old(View()), request, A.NotActive, Some(wallet), reached)
    {
      assignments := assignments[request := wallet];
      if reached {
        sent := sent + [A.Sent(wallet, request)];
      } else {
        assignments := assignments - {request};
      }
    }

    /** A lost wallet's unanswered requests can be handed to somebody else. */
    method OnDisconnect(wallet: Wallet)
      modifies this`assignments
      ensures View() == A.OnDisconnect(old(View()), wallet)
    {
      assignments := map r | r in assignments && assignments[r] != wallet :: assignments[r];
    }
  }
}
