/** The submission table as it is updated: the commit task, the reveal loop and the payout loop. */
module LedgerTables {
  import opened Common
  import opened Attribution
  import opened Ledgers

  class LedgerTable {
    var rows: seq<Row>
    var commitments: map<(nat, string), Commitment>
    var withheld: set<RequestId>
    var committing: set<nat>
    var batches: seq<Batch>

    function View(): Ledger
      reads this
    {
      Ledger(rows, commitments, withheld, committing, batches)
    }

    constructor ()
      ensures View() == Empty()
    {
      rows, commitments, withheld, committing, batches := [], map[], {}, {}, [];
    }

    method FindActive(request: RequestId) returns (found: bool)
      ensures found <==> HasActive(rows, request)
    {
      for i := 0 to |rows|
        invariant forall j | 0 <= j < i :: rows[j].request != request || rows[j].status == Failed
      {
        if rows[i].request == request && rows[i].status != Failed { return true; }
      }
      found := false;
    }

    /** The insertion every engine goes through; a request has one row that has not failed. */
    method CreateSubmission(wallet: Wallet, request: RequestId) returns (id: Option<nat>)
      modifies this
      ensures View() == OnSubmit(old(View()), wallet, request)
      ensures id == if HasActive(old(rows), request) then None else Some(|old(rows)|)
    {
      var active := FindActive(request);
      if active { return None; }
      id := Some(|rows|);
      committing := committing + {|rows|};
      rows := rows + [Row(wallet, request, Received, None, false, None)];
    }

    method SetRowStatus(id: nat, status: Status)
      modifies this`rows
      ensures View() == SetStatus(old(View()), id, status)
    {
      if id < |rows| { rows := rows[id := rows[id].(status := status)]; }
    }

    /** Stores every address's reply of one round. */
    method RecordRound(id: nat, replies: seq<CommitReply>) returns (success: bool)
      modifies this`commitments
      ensures commitments == Record(old(commitments), id, replies)
      ensures success <==> AnySuccess(replies)
    {
      success := false;
      for i := 0 to |replies|
        invariant commitments == Record(old(commitments), id, replies[..i])
        invariant success <==> AnySuccess(replies[..i])
      {
        assert replies[..i + 1][..i] == replies[..i];
        var reply := replies[i];
        commitments := commitments[(id, reply.address) := if reply.closesAt.Some? then Standing(reply.closesAt.value)
                                   else Refused];
        success := success || reply.closesAt.Some?;
        assert AnySuccess(replies[..i + 1]) <==> AnySuccess(replies[..i]) || replies[i].closesAt.Some? by {
          assert replies[..i + 1] == replies[..i] + [replies[i]];
        }
      }
      assert replies[..|replies|] == replies;
    }

    /** Tries every address, round after round, and stops at the first round in which one commits. */
    method DoCommit(id: nat, rounds: nat -> seq<CommitReply>)
      modifies this`rows, this`commitments, this`committing
      ensures View() == OnCommit(old(View()), id, rounds)
    {
      if id !in committing { return; }
      var done := false;
      var round := 0;
      while round < MAX_ROUNDS && !done
        invariant round <= MAX_ROUNDS && committing == old(committing)
        invariant CommitFrom(old(View()), id, rounds, 0) == if done then View()
          else CommitFrom(View(), id, rounds, round)
        decreases MAX_ROUNDS - round
      {
        done := RecordRound(id, rounds(round));
        if done { SetRowStatus(id, Committed); }
        round := round + 1;
      }
      if !done { SetRowStatus(id, Failed); }
      committing := committing - {id};
    }

    /** Tries each ready commitment in turn, stopping at the first the chain accepts. */
    method TryRevealAny(id: nat, height: int, addresses: seq<string>, eligible: set<string>)
      modifies this`rows, this`commitments
      ensures View() == OnReveal(old(View()), id, height, addresses, eligible)
    {
      if id >= |rows| || rows[id].status != Committed { return; }
      assert addresses[0..] == addresses;
      for i := 0 to |addresses|
        invariant View() == old(View())
        invariant FirstEligible(View(), id, height, addresses, eligible) ==
                  FirstEligible(View(), id, height, addresses[i..], eligible)
      {
        assert addresses[i..][1..] == addresses[i + 1..];
        var a := addresses[i];
        if Ready(View(), id, a, height) && a in eligible {
          commitments := commitments[(id, a) := Used];
          SetRowStatus(id, Revealed);
          return;
        }
      }
    }

    method DoPublish(id: nat, reward: real)
      modifies this`rows
      ensures View() == OnPublish(old(View()), id, reward)
    {
      if id >= |rows| || rows[id].status != Revealed { return; }
      rows := rows[id := rows[id].(status := Published, reward := Some(reward))];
    }

    method Withhold(request: RequestId)
      modifies this`withheld
      ensures View() == old(View()).(withheld := old(withheld) + {request})
    {
      withheld := withheld + {request};
    }

    method RecoverOnStartup()
      modifies this`committing
      ensures View() == OnRestart(old(View()))
    {
      committing := set i | 0 <= i < |rows| && rows[i].status == Received;
    }

    // ---- Payout --------------------------------------------------------------------------------------------

    /** Groups what may be paid by wallet: the sum of the rewards, and the requests that make it up. */
    method GroupByWallet() returns (groups: map<Wallet, (real, seq<RequestId>)>)
      ensures Grouped(View(), groups, |rows|)
    {
      groups := map[];
      NothingGrouped(View());
      for i := 0 to |rows|
        invariant Grouped(View(), groups, i)
      {
        var row := rows[i];
        if row.status == Published && !row.paid && row.request !in withheld && row.reward.Some? {
          var entry := if row.wallet in groups then groups[row.wallet] else (0.0, []);
          ghost var before := groups;
          groups := groups[row.wallet := (entry.0 + row.reward.value, entry.1 + [row.request])];
          GroupGrows(View(), before, i);
        } else {
          GroupStays(View(), groups, i);
        }
      }
    }

    /** Collects the payments in ascending wallet order, leaving out balances below the minimum. */
    method CollectPayments(groups: map<Wallet, (real, seq<RequestId>)>, minimum: real, feePercent: real)
      returns (payments: seq<Payment>, requests: set<RequestId>)
      requires Grouped(View(), groups, |rows|)
      ensures IsBatch(View(), minimum, feePercent, Batch(Factor(feePercent), payments))
      ensures requests == RequestsOf(rows, PaidRows(View(), minimum, feePercent))
      ensures payments == [] <==> PaidRows(View(), minimum, feePercent) == {}
    {
      hide IsPaid, PaidOf, PaidRows, PaidSoFar, Grouped, Balance, Factor, RequestsOf, IsBatch, AfterFee, Less;
      ghost var l := View();
      payments, requests := [], {};
      NothingPaid(l, minimum, feePercent);
      assert groups.Keys - groups.Keys == {};
      var rest := groups.Keys;
      while rest != {}
        invariant rest <= groups.Keys
        invariant PaidSoFar(l, minimum, feePercent, groups.Keys - rest, payments)
        invariant requests == RequestsOf(rows, PaidOf(l, minimum, feePercent, groups.Keys - rest))
        decreases |rest|
      {
        LeastExists(rest);
        ghost var least :| IsLeast(rest, least);
        var w :| w in rest && forall v | v in rest && v != w :: Less(w, v);
        var (balance, ids) := groups[w];
        ghost var seen := groups.Keys - rest;
        assert groups.Keys - (rest - {w}) == seen + {w};
        GroupTells(l, groups, minimum, feePercent, w);
        if balance >= minimum && AfterFee(balance, feePercent) > 0.0 {
          OneMorePaid(l, minimum, feePercent, seen, payments, w);
          payments := payments + [Payment(w, AfterFee(balance, feePercent))];
          requests := requests + (set r | r in ids);
        } else {
          NotPaid(l, minimum, feePercent, seen, payments, w);
        }
        rest := rest - {w};
      }
      assert groups.Keys - rest == groups.Keys;
      AllPaid(l, minimum, feePercent, groups, payments);
    }

    method MarkAllPaid(requests: set<RequestId>, batch: nat)
      modifies this`rows
      ensures rows == MarkPaid(old(rows), requests, batch)
    {
      for i := 0 to |rows|
        invariant |rows| == |old(rows)|
        invariant rows[..i] == MarkPaid(old(rows), requests, batch)[..i] && rows[i..] == old(rows)[i..]
      {
        if rows[i].request in requests {
          rows := rows[i := rows[i].(paid := true, payout := Some(batch))];
        }
      }
    }

    /** One payout tick: a single transaction for every wallet above the minimum, then all their rows marked. */
    method RunPayout(minimum: real, feePercent: real, sent: bool)
      modifies this`rows, this`batches
      ensures Pays(old(View()), minimum, feePercent, sent, View())
    {
      var groups := GroupByWallet();
      var payments, requests := CollectPayments(groups, minimum, feePercent);
      if payments == [] || !sent { return; }
      MarkAllPaid(requests, |batches|);
      batches := batches + [Batch(Factor(feePercent), payments)];
    }
  }

  // ---- Grouping -------------------------------------------------------------------------------------------------

  /** Every wallet's sum and requests over the first `n` rows. */
  ghost predicate Grouped(l: Ledger, groups: map<Wallet, (real, seq<RequestId>)>, n: nat)
    requires n <= |l.rows|
  {
    forall w :: (w in groups <==> RowsOf(l, w, n) != {}) && (w in groups ==> IsGroup(l, w, n, groups[w]))
  }

  ghost predicate IsGroup(l: Ledger, w: Wallet, n: nat, group: (real, seq<RequestId>))
    requires n <= |l.rows|
  {
    group.0 == Rewards(l.rows, RowsOf(l, w, n)) && (set r | r in group.1) == RequestsOf(l.rows, RowsOf(l, w, n))
  }

  lemma NothingGrouped(l: Ledger)
    ensures Grouped(l, map[], 0)
  {
  }

  lemma {:induction false} RewardsOfOne(rows: seq<Row>, i: nat)
    requires i < |rows| && rows[i].reward.Some?
    ensures Rewards(rows, {i}) == rows[i].reward.value
  {
    var n := |rows| - 1;
    if i == n { RewardsAgree([], {}, [], {}); RewardsBeyond(rows[..n], {i}); } else { RewardsOfOne(rows[..n], i); }
  }

  lemma {:induction false} RewardsBeyond(rows: seq<Row>, ids: set<nat>)
    requires forall i | i in ids :: i >= |rows|
    ensures Rewards(rows, ids) == 0.0
  {
    if rows != [] { RewardsBeyond(rows[..|rows| - 1], ids); }
  }

  lemma GroupGrows(l: Ledger, before: map<Wallet, (real, seq<RequestId>)>, i: nat)
    requires i < |l.rows| && Payable(l, i) && Grouped(l, before, i)
    ensures var row := l.rows[i];
            var entry := if row.wallet in before then before[row.wallet] else (0.0, []);
            Grouped(l, before[row.wallet := (entry.0 + row.reward.value, entry.1 + [row.request])], i + 1)
  {
    hide Rewards;
    var row := l.rows[i];
    var entry := if row.wallet in before then before[row.wallet] else (0.0, []);
    var own := RowsOf(l, row.wallet, i);
    assert RowsOf(l, row.wallet, i + 1) == own + {i};
    RewardsOfNone(l.rows);
    RewardsAdd(l.rows, own, {i});
    RewardsOfOne(l.rows, i);
    assert entry.0 == Rewards(l.rows, own);
    assert RequestsOf(l.rows, own + {i}) == RequestsOf(l.rows, own) + {row.request};
    assert (set r | r in entry.1 + [row.request]) == (set r | r in entry.1) + {row.request};
    forall w | w != row.wallet ensures RowsOf(l, w, i + 1) == RowsOf(l, w, i) { }
    assert i in RowsOf(l, row.wallet, i + 1);
  }

  lemma GroupStays(l: Ledger, groups: map<Wallet, (real, seq<RequestId>)>, i: nat)
    requires i < |l.rows| && !Payable(l, i) && Grouped(l, groups, i)
    ensures Grouped(l, groups, i + 1)
  {
    forall w ensures RowsOf(l, w, i + 1) == RowsOf(l, w, i) { }
  }

  // ---- Collecting ----------------------------------------------------------------------------------------------

  /** The covered rows of some wallets. */
  function PaidOf(l: Ledger, minimum: real, feePercent: real, ws: set<Wallet>): set<nat> {
    set i | i in PaidRows(l, minimum, feePercent) && i < |l.rows| && l.rows[i].wallet in ws
  }

  /** The payments made so far are those of the paid wallets among `ws`. */
  ghost predicate PaidSoFar(l: Ledger, minimum: real, feePercent: real, ws: set<Wallet>, payments: seq<Payment>) {
    && (forall i, j | 0 <= i < j < |payments| :: payments[i].wallet != payments[j].wallet)
    && (forall w :: (w in ws && IsPaid(l, minimum, feePercent, w)) <==>
        exists i :: 0 <= i < |payments| && payments[i].wallet == w)
    && (forall p | p in payments :: p.amount == AfterFee(Balance(l, p.wallet), feePercent))
  }

  lemma OneMorePaid(l: Ledger, minimum: real, feePercent: real, ws: set<Wallet>, payments: seq<Payment>, w: Wallet)
    requires PaidSoFar(l, minimum, feePercent, ws, payments) && w !in ws && IsPaid(l, minimum, feePercent, w)
    ensures PaidSoFar(l, minimum, feePercent, ws + {w}, payments + [Payment(w, AfterFee(Balance(l, w), feePercent))])
    ensures RequestsOf(l.rows, PaidOf(l, minimum, feePercent, ws + {w}))
         == RequestsOf(l.rows, PaidOf(l, minimum, feePercent, ws)) + RequestsOf(l.rows, RowsOf(l, w, |l.rows|))
  {
    hide Balance, Factor, AfterFee;
    assert PaidOf(l, minimum, feePercent, ws + {w}) == PaidOf(l, minimum, feePercent, ws) + RowsOf(l, w, |l.rows|);
    var more := payments + [Payment(w, AfterFee(Balance(l, w), feePercent))];
    assert more[|payments|].wallet == w;
    forall v ensures (v in ws + {w} && IsPaid(l, minimum, feePercent, v)) <==>
      exists i :: 0 <= i < |more| && more[i].wallet == v {
      if i :| 0 <= i < |payments| && payments[i].wallet == v { assert more[i].wallet == v; }
    }
  }

  lemma NothingPaid(l: Ledger, minimum: real, feePercent: real)
    ensures PaidSoFar(l, minimum, feePercent, {}, []) && RequestsOf(l.rows, PaidOf(l, minimum, feePercent, {})) == {}
  {
  }

  lemma GroupTells(l: Ledger, groups: map<Wallet, (real, seq<RequestId>)>, minimum: real, feePercent: real, w: Wallet)
    requires Grouped(l, groups, |l.rows|) && w in groups
    ensures groups[w].0 == Balance(l, w) && (set r | r in groups[w].1) == RequestsOf(l.rows, RowsOf(l, w, |l.rows|))
    ensures IsPaid(l, minimum, feePercent, w) <==> groups[w].0 >= minimum && AfterFee(groups[w].0, feePercent) > 0.0
  {
  }

  lemma NotPaid(l: Ledger, minimum: real, feePercent: real, ws: set<Wallet>, payments: seq<Payment>, w: Wallet)
    requires PaidSoFar(l, minimum, feePercent, ws, payments) && !IsPaid(l, minimum, feePercent, w)
    ensures PaidSoFar(l, minimum, feePercent, ws + {w}, payments)
    ensures PaidOf(l, minimum, feePercent, ws + {w}) == PaidOf(l, minimum, feePercent, ws)
  {
    hide IsPaid;
  }

  lemma AllPaid(l: Ledger, minimum: real, feePercent: real, groups: map<Wallet, (real, seq<RequestId>)>,
                payments: seq<Payment>)
    requires PaidSoFar(l, minimum, feePercent, groups.Keys, payments) && Grouped(l, groups, |l.rows|)
    ensures IsBatch(l, minimum, feePercent, Batch(Factor(feePercent), payments))
    ensures PaidOf(l, minimum, feePercent, groups.Keys) == PaidRows(l, minimum, feePercent)
    ensures payments == [] <==> PaidRows(l, minimum, feePercent) == {}
  {
    hide Balance, AfterFee, Factor, IsGroup, Rewards;
    forall i | i in PaidRows(l, minimum, feePercent) ensures l.rows[i].wallet in groups && payments != [] {
      assert i in RowsOf(l, l.rows[i].wallet, |l.rows|);
    }
    if payments != [] {
      var w := payments[0].wallet;
      var i :| i in RowsOf(l, w, |l.rows|);
      assert i in PaidRows(l, minimum, feePercent);
    }
  }
}
