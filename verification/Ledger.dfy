/** The submission table and everything that happens to it: commit, reveal, publish, withhold and payout.

    Every operation is one atomic step on the table; an RPC's outcome is an argument of the step. */
module Ledgers {
  import opened Common

  const MAX_ROUNDS: nat := 5

  datatype Status = Received | Committed | Revealed | Published | Failed

  /** `payout` is the batch that marked the row paid. */
  datatype Row = Row(wallet: Wallet, request: RequestId, status: Status, reward: Option<real>, paid: bool,
                     payout: Option<nat>)

  /** One pool address's commitment for one submission. */
  datatype Commitment = Standing(closesAt: int) | Used | Refused

  datatype CommitReply = CommitReply(address: string, closesAt: Option<int>)

  datatype Payment = Payment(wallet: Wallet, amount: real)

  datatype Batch = Batch(factor: real, payments: seq<Payment>)

  /** `committing` are the submissions whose commit task is running. */
  datatype Ledger = Ledger(rows: seq<Row>, commitments: map<(nat, string), Commitment>, withheld: set<RequestId>,
                           committing: set<nat>, batches: seq<Batch>)

  datatype Event =
    | Submit(wallet: Wallet, request: RequestId)
    | Commit(id: nat, rounds: nat -> seq<CommitReply>)
    | Reveal(id: nat, height: int, addresses: seq<string>, eligible: set<string>)
    | Publish(id: nat, reward: real)
    | Withhold(request: RequestId)
    | Pay(minimum: real, feePercent: real, sent: bool)
    | Restart

  // ---- Submitting and committing --------------------------------------------------------------------------

  predicate HasActive(rows: seq<Row>, request: RequestId) {
    exists i | 0 <= i < |rows| :: rows[i].request == request && rows[i].status != Failed
  }

  /** Refused while the request has a submission that has not failed; otherwise stored, and its commit task starts. */
  function OnSubmit(l: Ledger, wallet: Wallet, request: RequestId): Ledger {
    if HasActive(l.rows, request) then l
    else l.(rows := l.rows + [Row(wallet, request, Received, None, false, None)],
            committing := l.committing + {|l.rows|})
  }

  function SetStatus(l: Ledger, id: nat, status: Status): Ledger {
    if id < |l.rows| then l.(rows := l.rows[id := l.rows[id].(status := status)]) else l
  }

  function Record(commitments: map<(nat, string), Commitment>, id: nat, replies: seq<CommitReply>)
    : map<(nat, string), Commitment>
  {
    if replies == [] then commitments
    else
      var r := replies[|replies| - 1];
      Record(commitments, id, replies[..|replies| - 1])[(id, r.address) := if r.closesAt.Some?
                                                        then Standing(r.closesAt.value) else Refused]
  }

  predicate AnySuccess(replies: seq<CommitReply>) {
    exists i | 0 <= i < |replies| :: replies[i].closesAt.Some?
  }

  /** Round after round with every pool address, until one of them commits or the rounds run out. */
  function CommitFrom(l: Ledger, id: nat, rounds: nat -> seq<CommitReply>, round: nat): (l2: Ledger)
    ensures |l2.rows| == |l.rows|
    decreases MAX_ROUNDS - round
  {
    if round >= MAX_ROUNDS then SetStatus(l, id, Failed)
    else
      var l1 := l.(commitments := Record(l.commitments, id, rounds(round)));
      if AnySuccess(rounds(round)) then SetStatus(l1, id, Committed) else CommitFrom(l1, id, rounds, round + 1)
  }

  function OnCommit(l: Ledger, id: nat, rounds: nat -> seq<CommitReply>): Ledger {
    if id !in l.committing then l else CommitFrom(l, id, rounds, 0).(committing := l.committing - {id})
  }

  // ---- Revealing and publishing -----------------------------------------------------------------------------

  /** A commitment whose window has closed. */
  predicate Ready(l: Ledger, id: nat, address: string, height: int) {
    (id, address) in l.commitments && l.commitments[(id, address)].Standing?
      && l.commitments[(id, address)].closesAt <= height
  }

  /** The first ready address the chain accepts. */
  function FirstEligible(l: Ledger, id: nat, height: int, addresses: seq<string>,
                         eligible: set<string>): (a: Option<string>)
    ensures a.Some? ==> Ready(l, id, a.value, height) && a.value in eligible && a.value in addresses
    ensures a.None? <==> forall x | x in addresses && Ready(l, id, x, height) :: x !in eligible
  {
    if addresses == [] then None
    else if Ready(l, id, addresses[0], height) && addresses[0] in eligible then Some(addresses[0])
    else FirstEligible(l, id, height, addresses[1..], eligible)
  }

  function OnReveal(l: Ledger, id: nat, height: int, addresses: seq<string>, eligible: set<string>): Ledger {
    if id >= |l.rows| || l.rows[id].status != Committed then l
    else
      var a := FirstEligible(l, id, height, addresses, eligible);
      if a.None? then l else SetStatus(l.(commitments := l.commitments[(id, a.value) := Used]), id, Revealed)
  }

  function OnPublish(l: Ledger, id: nat, reward: real): Ledger {
    if id >= |l.rows| || l.rows[id].status != Revealed then l
    else l.(rows := l.rows[id := l.rows[id].(status := Published, reward := Some(reward))])
  }

  // ---- Payout ---------------------------------------------------------------------------------------------------

  /** A row the payout loop may pay: published, unpaid, not withheld, with a recorded reward. */
  predicate Payable(l: Ledger, i: nat)
    requires i < |l.rows|
  {
    var row := l.rows[i];
    row.status == Published && !row.paid && row.request !in l.withheld && row.reward.Some?
  }

  function RowsOf(l: Ledger, w: Wallet, n: nat): set<nat>
    requires n <= |l.rows|
  {
    set i | 0 <= i < n && Payable(l, i) && l.rows[i].wallet == w
  }

  /** The rewards of the given rows. */
  function Rewards(rows: seq<Row>, ids: set<nat>): real {
    if rows == [] then 0.0
    else
      var n := |rows| - 1;
      Rewards(rows[..n], ids) + if n in ids && rows[n].reward.Some? then rows[n].reward.value else 0.0
  }

  function Balance(l: Ledger, w: Wallet): real {
    Rewards(l.rows, RowsOf(l, w, |l.rows|))
  }

  function Factor(feePercent: real): real {
    1.0 - feePercent / 100.0
  }

  function AfterFee(balance: real, feePercent: real): real {
    balance * Factor(feePercent)
  }

  /** A wallet is paid when its balance reaches the minimum and something is left after the fee. */
  predicate IsPaid(l: Ledger, minimum: real, feePercent: real, w: Wallet) {
    RowsOf(l, w, |l.rows|) != {} && Balance(l, w) >= minimum && AfterFee(Balance(l, w), feePercent) > 0.0
  }

  /** The rows a payout covers. */
  function PaidRows(l: Ledger, minimum: real, feePercent: real): set<nat> {
    set i | 0 <= i < |l.rows| && Payable(l, i) && IsPaid(l, minimum, feePercent, l.rows[i].wallet)
  }

  function RequestsOf(rows: seq<Row>, ids: set<nat>): set<RequestId> {
    set i | 0 <= i < |rows| && i in ids :: rows[i].request
  }

  /** Marks every row of the given requests, whatever its status. */
  function MarkPaid(rows: seq<Row>, requests: set<RequestId>, batch: nat): seq<Row> {
    seq(|rows|, i requires 0 <= i < |rows| => if rows[i].request in requests
        then rows[i].(paid := true, payout := Some(batch)) else rows[i])
  }

  /** Exactly the paid wallets, each once, each with its balance less the fee. */
  ghost predicate IsBatch(l: Ledger, minimum: real, feePercent: real, b: Batch) {
    && b.factor == Factor(feePercent)
    && (forall i, j | 0 <= i < j < |b.payments| :: b.payments[i].wallet != b.payments[j].wallet)
    && (forall w :: IsPaid(l, minimum, feePercent, w) <==>
        exists i :: 0 <= i < |b.payments| && b.payments[i].wallet == w)
    && (forall p | p in b.payments :: p.amount == AfterFee(Balance(l, p.wallet), feePercent))
  }

  function Total(payments: seq<Payment>): real {
    if payments == [] then 0.0 else Total(payments[..|payments| - 1]) + payments[|payments| - 1].amount
  }

  /** A payout sends one batch and marks the covered rows, or does nothing. */
  ghost predicate Pays(l: Ledger, minimum: real, feePercent: real, sent: bool, l2: Ledger) {
    var covered := PaidRows(l, minimum, feePercent);
    if covered == {} || !sent then l2 == l
    else
      && |l2.batches| == |l.batches| + 1 && l2.batches[..|l.batches|] == l.batches
      && IsBatch(l, minimum, feePercent, l2.batches[|l.batches|])
      && l2 == l.(rows := MarkPaid(l.rows, RequestsOf(l.rows, covered), |l.batches|), batches := l2.batches)
  }

  /** A crash loses the running tasks; startup commits again whatever was still only received. */
  function OnRestart(l: Ledger): Ledger {
    l.(committing := set i | 0 <= i < |l.rows| && l.rows[i].status == Received)
  }

  ghost predicate Step(l: Ledger, e: Event, l2: Ledger) {
    match e
    case Submit(wallet, request) => l2 == OnSubmit(l, wallet, request)
    case Commit(id, rounds) => l2 == OnCommit(l, id, rounds)
    case Reveal(id, height, addresses, eligible) => l2 == OnReveal(l, id, height, addresses, eligible)
    case Publish(id, reward) => l2 == OnPublish(l, id, reward)
    case Withhold(request) => l2 == l.(withheld := l.withheld + {request})
    case Pay(minimum, feePercent, sent) => Pays(l, minimum, feePercent, sent, l2)
    case Restart => l2 == OnRestart(l)
  }

  // ---- Invariant -----------------------------------------------------------------------------------------------

  ghost predicate OneActivePerRequest(rows: seq<Row>) {
    forall i, j | 0 <= i < j < |rows| && rows[i].request == rows[j].request ::
      rows[i].status == Failed || rows[j].status == Failed
  }

  /** The published rows a batch paid. */
  function RowsIn(rows: seq<Row>, batch: nat): set<nat> {
    set i | 0 <= i < |rows| && rows[i].status == Published && rows[i].payout == Some(batch)
  }

  ghost predicate TableInv(l: Ledger) {
    && OneActivePerRequest(l.rows)
    && (forall i | i in l.committing :: i < |l.rows| && l.rows[i].status == Received)
    && (forall i | 0 <= i < |l.rows| ::
          && (l.rows[i].paid <==> l.rows[i].payout.Some?)
          && (l.rows[i].payout.Some? ==> l.rows[i].payout.value < |l.batches|)
          && (l.rows[i].paid ==> l.rows[i].status == Published || l.rows[i].status == Failed))
  }

  ghost predicate Inv(l: Ledger) {
    && TableInv(l)
    && (forall b | 0 <= b < |l.batches| ::
        Total(l.batches[b].payments) == l.batches[b].factor * Rewards(l.rows, RowsIn(l.rows, b)))
  }

  /** One stage ahead, or the failure of a submission nobody committed. */
  predicate Forward(a: Status, b: Status) {
    || a == b
    || (a == Received && b == Committed) || (a == Committed && b == Revealed)
    || (a == Revealed && b == Published) || (a == Received && b == Failed)
  }

  /** What no step undoes. */
  ghost predicate Advances(l: Ledger, l2: Ledger) {
    && |l.rows| <= |l2.rows| && l.withheld <= l2.withheld
    && |l.batches| <= |l2.batches| && l2.batches[..|l.batches|] == l.batches
    && forall i | 0 <= i < |l.rows| ::
         var a, b := l.rows[i], l2.rows[i];
         && b.wallet == a.wallet && b.request == a.request && Forward(a.status, b.status)
         && (a.status == Published ==> b.reward == a.reward)
         && (a.status == Published && a.paid ==> b.paid && b.payout == a.payout)
         && (!a.paid && a.request in l.withheld ==> !b.paid)
  }

  lemma CommitEnds(l: Ledger, id: nat, rounds: nat -> seq<CommitReply>, round: nat)
    requires id < |l.rows| && round <= MAX_ROUNDS
    ensures var l2 := CommitFrom(l, id, rounds, round);
            && l2 == SetStatus(l, id, l2.rows[id].status).(commitments := l2.commitments)
            && (l2.rows[id].status == Committed <==> exists k :: round <= k < MAX_ROUNDS && AnySuccess(rounds(k)))
            && (l2.rows[id].status == Committed || l2.rows[id].status == Failed)
    decreases MAX_ROUNDS - round
  {
    if round < MAX_ROUNDS {
      if !AnySuccess(rounds(round)) {
        CommitEnds(l.(commitments := Record(l.commitments, id, rounds(round))), id, rounds, round + 1);
      }
    }
  }

  // ---- Sums of rewards ------------------------------------------------------------------------------------------

  lemma {:induction false} RewardsAgree(a: seq<Row>, aIds: set<nat>, b: seq<Row>, bIds: set<nat>)
    requires |a| <= |b|
    requires forall i | 0 <= i < |a| :: (i in aIds <==> i in bIds) && (i in aIds ==> a[i].reward == b[i].reward)
    requires forall i | |a| <= i < |b| :: i !in bIds
    ensures Rewards(a, aIds) == Rewards(b, bIds)
    decreases |b|
  {
    if |b| > |a| {
      RewardsAgree(a, aIds, b[..|b| - 1], bIds);
    } else if a != [] {
      RewardsAgree(a[..|a| - 1], aIds, b[..|b| - 1], bIds);
    }
  }

  lemma {:induction false} RewardsAdd(rows: seq<Row>, a: set<nat>, b: set<nat>)
    requires a !! b
    ensures Rewards(rows, a + b) == Rewards(rows, a) + Rewards(rows, b)
  {
    if rows != [] { RewardsAdd(rows[..|rows| - 1], a, b); }
  }

  /** The rows of the wallets of the first `k` payments. */
  function Covered(l: Ledger, payments: seq<Payment>, k: nat): set<nat>
    requires k <= |payments|
  {
    if k == 0 then {} else Covered(l, payments, k - 1) + RowsOf(l, payments[k - 1].wallet, |l.rows|)
  }

  lemma {:induction false} CoveredRows(l: Ledger, payments: seq<Payment>, k: nat)
    requires k <= |payments|
    ensures forall i :: i in Covered(l, payments, k) <==>
              0 <= i < |l.rows| && Payable(l, i) && exists j :: 0 <= j < k && payments[j].wallet == l.rows[i].wallet
  {
    if k > 0 { CoveredRows(l, payments, k - 1); }
  }

  lemma {:induction false} PaymentsAddUp(l: Ledger, payments: seq<Payment>, factor: real, k: nat)
    requires k <= |payments|
    requires forall i, j | 0 <= i < j < |payments| :: payments[i].wallet != payments[j].wallet
    requires forall p | p in payments :: p.amount == Balance(l, p.wallet) * factor
    ensures Total(payments[..k]) == factor * Rewards(l.rows, Covered(l, payments, k))
  {
    hide Rewards, Payable;
    if k == 0 {
      RewardsOfNone(l.rows);
    } else {
      PaymentsAddUp(l, payments, factor, k - 1);
      assert payments[..k][..k - 1] == payments[..k - 1];
      var p := payments[k - 1];
      CoveredRows(l, payments, k - 1);
      var before, own := Covered(l, payments, k - 1), RowsOf(l, p.wallet, |l.rows|);
      assert before !! own;
      RewardsAdd(l.rows, before, own);
      assert p in payments;
      Distribute(factor, Rewards(l.rows, before), Rewards(l.rows, own));
    }
  }

  lemma Distribute(f: real, a: real, b: real)
    ensures f * (a + b) == f * a + b * f
  {
  }

  lemma {:induction false} RewardsOfNone(rows: seq<Row>)
    ensures Rewards(rows, {}) == 0.0
  {
    if rows != [] { RewardsOfNone(rows[..|rows| - 1]); }
  }

  /** What a batch sends is the fee factor times the rewards of the rows it covers. */
  lemma BatchConserves(l: Ledger, minimum: real, feePercent: real, b: Batch)
    requires IsBatch(l, minimum, feePercent, b)
    ensures Total(b.payments) == b.factor * Rewards(l.rows, PaidRows(l, minimum, feePercent))
  {
    hide Rewards, Balance, Total, Factor;
    var n := |b.payments|;
    assert forall p | p in b.payments :: p.amount == Balance(l, p.wallet) * b.factor;
    PaymentsAddUp(l, b.payments, b.factor, n);
    assert b.payments[..n] == b.payments;
    CoveredRows(l, b.payments, n);
    assert Covered(l, b.payments, n) == PaidRows(l, minimum, feePercent);
  }

  // ---- Every step keeps the invariant -------------------------------------------------------------------------------

  lemma BatchesUnaffected(l: Ledger, rows2: seq<Row>, b: nat)
    requires |l.rows| <= |rows2|
    requires forall i | 0 <= i < |l.rows| ::
               && (i in RowsIn(l.rows, b) <==> i in RowsIn(rows2, b))
               && (i in RowsIn(l.rows, b) ==> rows2[i].reward == l.rows[i].reward)
    requires forall i | |l.rows| <= i < |rows2| :: i !in RowsIn(rows2, b)
    ensures Rewards(rows2, RowsIn(rows2, b)) == Rewards(l.rows, RowsIn(l.rows, b))
  {
    RewardsAgree(l.rows, RowsIn(l.rows, b), rows2, RowsIn(rows2, b));
  }

  lemma SubmitKeeps(l: Ledger, wallet: Wallet, request: RequestId)
    requires Inv(l)
    ensures Inv(OnSubmit(l, wallet, request)) && Advances(l, OnSubmit(l, wallet, request))
  {
    hide Rewards, Total;
    var l2 := OnSubmit(l, wallet, request);
    forall b | 0 <= b < |l.batches| ensures Rewards(l2.rows, RowsIn(l2.rows, b)) == Rewards(l.rows, RowsIn(l.rows, b)) {
      BatchesUnaffected(l, l2.rows, b);
    }
  }

  /** Moving an unpublished row forward touches no batch. */
  lemma RowMoveKeeps(l: Ledger, id: nat, row: Row, l2: Ledger)
    requires Inv(l) && id < |l.rows| && l.rows[id].status != Published && l.rows[id].status != Failed
    requires row == l.rows[id].(status := row.status, reward := row.reward) && Forward(l.rows[id].status, row.status)
    requires l2 == l.(rows := l.rows[id := row], commitments := l2.commitments, committing := l2.committing)
             && l2.committing <= l.committing - {id}
    ensures Inv(l2) && Advances(l, l2)
  {
    hide Rewards, Total;
    forall b | 0 <= b < |l.batches| ensures Rewards(l2.rows, RowsIn(l2.rows, b)) == Rewards(l.rows, RowsIn(l.rows, b)) {
      BatchesUnaffected(l, l2.rows, b);
    }
  }

  lemma CommitKeeps(l: Ledger, id: nat, rounds: nat -> seq<CommitReply>)
    requires Inv(l)
    ensures Inv(OnCommit(l, id, rounds)) && Advances(l, OnCommit(l, id, rounds))
  {
    if id in l.committing {
      CommitEnds(l, id, rounds, 0);
      hide CommitFrom;
      var l2 := OnCommit(l, id, rounds);
      RowMoveKeeps(l, id, l2.rows[id], l2);
    }
  }

  lemma RevealKeeps(l: Ledger, e: Event)
    requires Inv(l) && e.Reveal?
    ensures var l2 := OnReveal(l, e.id, e.height, e.addresses, e.eligible); Inv(l2) && Advances(l, l2)
  {
    var l2 := OnReveal(l, e.id, e.height, e.addresses, e.eligible);
    if l2 != l { RowMoveKeeps(l, e.id, l2.rows[e.id], l2); }
  }

  lemma PublishKeeps(l: Ledger, id: nat, reward: real)
    requires Inv(l)
    ensures Inv(OnPublish(l, id, reward)) && Advances(l, OnPublish(l, id, reward))
  {
    var l2 := OnPublish(l, id, reward);
    if l2 != l { RowMoveKeeps(l, id, l2.rows[id], l2); }
  }

  /** Marking by request reaches, among rows that count, exactly the covered ones. */
  lemma MarkingIsExact(l: Ledger, minimum: real, feePercent: real, i: nat)
    requires Inv(l) && i < |l.rows| && l.rows[i].request in RequestsOf(l.rows, PaidRows(l, minimum, feePercent))
    ensures i in PaidRows(l, minimum, feePercent) || l.rows[i].status == Failed
  {
    var j :| 0 <= j < |l.rows| && j in PaidRows(l, minimum, feePercent) && l.rows[j].request == l.rows[i].request;
  }

  /** What marking does to each row: covered rows join the new batch, failed rows may be touched, all others stay. */
  lemma MarkedRows(l: Ledger, minimum: real, feePercent: real)
    requires Inv(l)
    ensures var covered := PaidRows(l, minimum, feePercent);
            var rows2 := MarkPaid(l.rows, RequestsOf(l.rows, covered), |l.batches|);
            |rows2| == |l.rows| && (forall i | i in covered :: i < |l.rows|) && forall i | 0 <= i < |l.rows| ::
              && (i in covered ==>
                    && l.rows[i].status == Published && !l.rows[i].paid
                    && rows2[i] == l.rows[i].(paid := true, payout := Some(|l.batches|)))
              && (i !in covered && rows2[i] != l.rows[i] ==>
                    l.rows[i].status == Failed && rows2[i] == l.rows[i].(paid := true, payout := Some(|l.batches|)))
              && (l.rows[i].request in l.withheld ==> rows2[i].paid == l.rows[i].paid)
  {
    var covered := PaidRows(l, minimum, feePercent);
    forall i | 0 <= i < |l.rows| && l.rows[i].request in RequestsOf(l.rows, covered)
      ensures (i in covered || l.rows[i].status == Failed) && l.rows[i].request !in l.withheld
    {
      MarkingIsExact(l, minimum, feePercent, i);
    }
    forall i | i in covered ensures l.rows[i].request in RequestsOf(l.rows, covered) { }
  }

  lemma PayKeepsTable(l: Ledger, minimum: real, feePercent: real, sent: bool, l2: Ledger)
    requires Inv(l) && Pays(l, minimum, feePercent, sent, l2)
    ensures TableInv(l2) && Advances(l, l2)
  {
    hide Rewards, Total, IsBatch, PaidRows, MarkPaid;
    MarkedRows(l, minimum, feePercent);
  }

  lemma OldBatchKept(l: Ledger, minimum: real, feePercent: real, b: nat)
    requires Inv(l) && b < |l.batches|
    ensures var rows2 := MarkPaid(l.rows, RequestsOf(l.rows, PaidRows(l, minimum, feePercent)), |l.batches|);
            Rewards(rows2, RowsIn(rows2, b)) == Rewards(l.rows, RowsIn(l.rows, b))
  {
    hide Rewards, Total, PaidRows, MarkPaid, RequestsOf;
    var rows2 := MarkPaid(l.rows, RequestsOf(l.rows, PaidRows(l, minimum, feePercent)), |l.batches|);
    MarkedRows(l, minimum, feePercent);
    forall i | 0 <= i < |l.rows|
      ensures (i in RowsIn(l.rows, b) <==> i in RowsIn(rows2, b))
              && (i in RowsIn(l.rows, b) ==> rows2[i].reward == l.rows[i].reward)
    {
    }
    BatchesUnaffected(l, rows2, b);
  }

  lemma NewBatchCoversItsRows(l: Ledger, minimum: real, feePercent: real)
    requires Inv(l)
    ensures var covered := PaidRows(l, minimum, feePercent);
            var rows2 := MarkPaid(l.rows, RequestsOf(l.rows, covered), |l.batches|);
            RowsIn(rows2, |l.batches|) == covered && Rewards(rows2, covered) == Rewards(l.rows, covered)
  {
    hide Rewards, Total, PaidRows, MarkPaid, RequestsOf;
    var covered := PaidRows(l, minimum, feePercent);
    var rows2 := MarkPaid(l.rows, RequestsOf(l.rows, covered), |l.batches|);
    MarkedRows(l, minimum, feePercent);
    forall i | 0 <= i < |l.rows| ensures i in RowsIn(rows2, |l.batches|) <==> i in covered { }
    RewardsAgree(l.rows, covered, rows2, covered);
  }

  lemma PayKeepsBatches(l: Ledger, minimum: real, feePercent: real, l2: Ledger, b: nat)
    requires Inv(l) && Pays(l, minimum, feePercent, true, l2) && PaidRows(l, minimum, feePercent) != {}
             && b < |l2.batches|
    ensures Total(l2.batches[b].payments) == l2.batches[b].factor * Rewards(l2.rows, RowsIn(l2.rows, b))
  {
    hide Rewards, Total, PaidRows, MarkPaid, RequestsOf, RowsIn, IsBatch;
    if b < |l.batches| {
      assert l2.batches[b] == l.batches[b];
      OldBatchKept(l, minimum, feePercent, b);
    } else {
      BatchConserves(l, minimum, feePercent, l2.batches[b]);
      NewBatchCoversItsRows(l, minimum, feePercent);
    }
  }

  lemma PayKeeps(l: Ledger, minimum: real, feePercent: real, sent: bool, l2: Ledger)
    requires Inv(l) && Pays(l, minimum, feePercent, sent, l2)
    ensures Inv(l2) && Advances(l, l2)
  {
    hide IsBatch, Rewards, Total, PaidRows, MarkPaid;
    PayKeepsTable(l, minimum, feePercent, sent, l2);
    if sent && PaidRows(l, minimum, feePercent) != {} {
      forall b | 0 <= b < |l2.batches|
        ensures Total(l2.batches[b].payments) == l2.batches[b].factor * Rewards(l2.rows, RowsIn(l2.rows, b))
      {
        PayKeepsBatches(l, minimum, feePercent, l2, b);
      }
    }
  }

  lemma StepKeeps(l: Ledger, e: Event, l2: Ledger)
    requires Inv(l) && Step(l, e, l2)
    ensures Inv(l2) && Advances(l, l2)
  {
    hide OnSubmit, OnCommit, OnReveal, OnPublish, Pays, Rewards, Total;
    match e
    case Submit(wallet, request) => SubmitKeeps(l, wallet, request);
    case Commit(id, rounds) => CommitKeeps(l, id, rounds);
    case Reveal(_, _, _, _) => RevealKeeps(l, e);
    case Publish(id, reward) => PublishKeeps(l, id, reward);
    case Withhold(_) =>
    case Pay(minimum, feePercent, sent) => PayKeeps(l, minimum, feePercent, sent, l2);
    case Restart =>
  }

  // ---- One reveal per submission ----------------------------------------------------------------------------------

  /** Only a revealed submission has a used commitment, and only one. */
  ghost predicate RevealInv(l: Ledger) {
    && (forall k | k in l.commitments && l.commitments[k].Used? ::
          k.0 < |l.rows| && (l.rows[k.0].status == Revealed || l.rows[k.0].status == Published))
    && (forall k, m | k in l.commitments && m in l.commitments && l.commitments[k].Used? && l.commitments[m].Used?
        && k.0 == m.0 :: k == m)
  }

  lemma {:induction false} RecordUsesNone(commitments: map<(nat, string), Commitment>, id: nat,
                                          replies: seq<CommitReply>)
    ensures var c := Record(commitments, id, replies);
            forall k | k in c && c[k].Used? :: k in commitments && commitments[k].Used?
  {
    if replies != [] { RecordUsesNone(commitments, id, replies[..|replies| - 1]); }
  }

  lemma {:induction false} CommitUsesNone(l: Ledger, id: nat, rounds: nat -> seq<CommitReply>, round: nat)
    ensures var c := CommitFrom(l, id, rounds, round).commitments;
            forall k | k in c && c[k].Used? :: k in l.commitments && l.commitments[k].Used?
    decreases MAX_ROUNDS - round
  {
    if round < MAX_ROUNDS {
      RecordUsesNone(l.commitments, id, rounds(round));
      CommitUsesNone(l.(commitments := Record(l.commitments, id, rounds(round))), id, rounds, round + 1);
    }
  }

  lemma RevealInvKeeps(l: Ledger, e: Event, l2: Ledger)
    requires Inv(l) && RevealInv(l) && Step(l, e, l2)
    ensures RevealInv(l2)
  {
    hide Rewards, Total, IsBatch, PaidRows, CommitFrom;
    if e.Commit? && e.id in l.committing {
      CommitUsesNone(l, e.id, e.rounds, 0);
      CommitEnds(l, e.id, e.rounds, 0);
    }
  }

  // ---- Whole runs ------------------------------------------------------------------------------------------------

  function Empty(): Ledger {
    Ledger([], map[], {}, {}, [])
  }

  ghost predicate IsRun(states: seq<Ledger>, events: seq<Event>) {
    && |states| == |events| + 1 && states[0] == Empty()
    && forall k | 0 <= k < |events| :: Step(states[k], events[k], states[k + 1])
  }

  lemma {:induction false} RunKeeps(states: seq<Ledger>, events: seq<Event>, k: nat)
    requires IsRun(states, events) && k <= |events|
    ensures Inv(states[k]) && RevealInv(states[k])
    decreases k
  {
    if k > 0 {
      RunKeeps(states, events, k - 1);
      StepKeeps(states[k - 1], events[k - 1], states[k]);
      RevealInvKeeps(states[k - 1], events[k - 1], states[k]);
    }
  }

  /** Any number of stages ahead. */
  predicate Later(a: Status, b: Status) {
    a == b || a == Received || (a == Committed && (b == Revealed || b == Published))
      || (a == Revealed && b == Published)
  }

  /** What no sequence of steps undoes. */
  ghost predicate Outlasts(l: Ledger, l2: Ledger) {
    && |l.rows| <= |l2.rows| && l.withheld <= l2.withheld
    && forall i | 0 <= i < |l.rows| ::
         var a, b := l.rows[i], l2.rows[i];
         && b.wallet == a.wallet && b.request == a.request && Later(a.status, b.status)
         && (a.status == Published ==> b.reward == a.reward)
         && (a.status == Published && a.paid ==> b.paid && b.payout == a.payout)
         && (!a.paid && a.request in l.withheld ==> !b.paid)
  }

  lemma OutlastsItself(l: Ledger)
    ensures Outlasts(l, l)
  {
  }

  lemma OutlastsOneMore(a: Ledger, b: Ledger, c: Ledger)
    requires Outlasts(a, b) && Advances(b, c)
    ensures Outlasts(a, c)
  {
  }

  lemma {:induction false} RunOutlasts(states: seq<Ledger>, events: seq<Event>, j: nat, k: nat)
    requires IsRun(states, events) && j <= k <= |events|
    ensures Outlasts(states[j], states[k])
    decreases k - j
  {
    hide Outlasts, Advances, Inv, Step;
    if j == k {
      OutlastsItself(states[j]);
    } else {
      RunOutlasts(states, events, j, k - 1);
      RunKeeps(states, events, k - 1);
      StepKeeps(states[k - 1], events[k - 1], states[k]);
      OutlastsOneMore(states[j], states[k - 1], states[k]);
    }
  }

  /** Lifecycle: a submission only ever moves ahead, at most one per request is active, and at most one of its
      commitments is ever revealed. */
  lemma StatusOnlyMovesForward(states: seq<Ledger>, events: seq<Event>, j: nat, k: nat, i: nat)
    requires IsRun(states, events) && j <= k <= |events| && i < |states[j].rows|
    ensures i < |states[k].rows| && Later(states[j].rows[i].status, states[k].rows[i].status)
    ensures OneActivePerRequest(states[k].rows) && RevealInv(states[k])
  {
    RunOutlasts(states, events, j, k);
    RunKeeps(states, events, k);
  }

  /** A published row that a batch has paid belongs to that batch, and to no other, ever after. */
  lemma NoRowEntersTwoPayouts(states: seq<Ledger>, events: seq<Event>, j: nat, k: nat, i: nat, a: nat, b: nat)
    requires IsRun(states, events) && j <= k <= |events|
    requires i in RowsIn(states[j].rows, a)
    ensures i in RowsIn(states[k].rows, b) <==> a == b
  {
    RunOutlasts(states, events, j, k);
    RunKeeps(states, events, j);
  }

  /** Once its request is withheld, an unpaid row stays unpaid. */
  lemma WithheldStaysUnpaid(states: seq<Ledger>, events: seq<Event>, j: nat, k: nat, i: nat)
    requires IsRun(states, events) && j <= k <= |events| && i < |states[j].rows|
    requires states[j].rows[i].request in states[j].withheld && !states[j].rows[i].paid
    ensures i < |states[k].rows| && !states[k].rows[i].paid && forall b :: i !in RowsIn(states[k].rows, b)
  {
    RunOutlasts(states, events, j, k);
    RunKeeps(states, events, k);
  }

  /** Conservation: at any time every batch has sent exactly its fee factor times the rewards of the published rows
      marked as paid by it. */
  lemma PayoutsConserveRewards(states: seq<Ledger>, events: seq<Event>, k: nat, b: nat)
    requires IsRun(states, events) && k <= |events| && b < |states[k].batches|
    ensures var l := states[k];
            Total(l.batches[b].payments) == l.batches[b].factor * Rewards(l.rows, RowsIn(l.rows, b))
  {
    RunKeeps(states, events, k);
  }

  /** A commit task leaves its submission committed exactly if some pool address succeeded in one of the five rounds. */
  lemma CommitSucceedsIffSomeRoundDoes(l: Ledger, id: nat, rounds: nat -> seq<CommitReply>)
    requires Inv(l) && id in l.committing
    ensures var row := OnCommit(l, id, rounds).rows[id];
            row.status == if exists k :: 0 <= k < MAX_ROUNDS && AnySuccess(rounds(k)) then Committed else Failed
  {
    CommitEnds(l, id, rounds, 0);
  }
}
