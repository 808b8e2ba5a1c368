/** The expert dispatcher: its maps, and the methods that update them, proved against the fan-out machine. */
module ExpertDispatchers {
  import opened Common
  import opened Rosters
  import opened MinerRegistries
  import opened ExpertCombine
  import F = ExpertFanout

  ghost function NetOf(roster: Roster, sends: nat -> bool): nat -> F.Net {
    (k: nat) => F.Net(roster, sends(k))
  }

  datatype JoinError = ExpertFailed | CannotCombine(error: CombineError)

  /** One more planned host: what was picked, then the plan for the rest. */
  lemma PlanNext(r: Roster, experts: seq<F.Selected>, i: nat, used: seq<Wallet>, picked: seq<Wallet>)
    requires i < |experts|
    ensures var host := BestHost(r, experts[i].minVram, set w | w in used);
            Prepend(picked, F.PlanHosts(r, experts[i..], used)) ==
              if host.None? then None
              else Prepend(picked + [host.value], F.PlanHosts(r, experts[i + 1..], used + [host.value]))
  {
    hide BestHost;
    assert experts[i..][1..] == experts[i + 1..];
    var host := BestHost(r, experts[i].minVram, set w | w in used);
    if host.Some? {
      var rest := F.PlanHosts(r, experts[i + 1..], used + [host.value]);
      assert rest.Some? ==> picked + ([host.value] + rest.value) == (picked + [host.value]) + rest.value;
    }
  }

  class ExpertDispatcher {
    const registry: MinerRegistry
    var assignments: map<F.Key, Wallet>
    var pending: map<F.Key, nat>
    var recent: map<F.Key, Wallet>
    /** Every dispatch ever made, with the state of its reply channel. */
    var attempts: seq<F.Attempt>

    function View(): F.Switchboard
      reads this
    {
      F.Switchboard(assignments, pending, recent, attempts)
    }

    constructor (registry: MinerRegistry)
      ensures View() == F.Empty().sb && this.registry == registry
    {
      this.registry := registry;
      assignments, pending, recent, attempts := map[], map[], map[], [];
    }

    /** Removing a sender from the pending map drops it, which unblocks its waiter. */
    method RemovePending(key: F.Key)
      modifies this`pending, this`attempts
      ensures pending == old(pending) - {key} && attempts == F.DropPending(old(View()), key)
    {
      if key in pending {
        var id := pending[key];
        if id < |attempts| && attempts[id].channel.Open? {
          attempts := attempts[id := attempts[id].(channel := F.Dropped)];
        }
        pending := pending - {key};
      }
    }

    method Forget(key: F.Key)
      modifies this`assignments, this`pending, this`attempts
      ensures View() == F.Forget(old(View()), key)
    {
      assignments := assignments - {key};
      RemovePending(key);
    }

    /** Registers the attempt and writes the assignment to the wallet's line. */
    method DispatchOne(key: F.Key, token: nat, wallet: Wallet, sent: bool) returns (attempt: Option<nat>)
      modifies this
      ensures wallet !in registry.order ==> attempt.None? && View() == old(View())
      ensures wallet in registry.order && !sent ==>
              attempt.None? && View() == F.Forget(F.Register(old(View()), key, token, wallet, sent), key)
      ensures wallet in registry.order && sent ==>
              attempt == Some(|attempts| - 1) && View() == F.Register(old(View()), key, token, wallet, sent)
    {
      if wallet !in registry.order { return None; }
      RemovePending(key);
      attempts := attempts + [F.Attempt(key, token, wallet, sent, F.Open)];
      assignments := assignments[key := wallet];
      pending := pending[key := |attempts| - 1];
      recent := recent[key := wallet];
      assert View() == F.Register(old(View()), key, token, wallet, sent);
      if !sent {
        Forget(key);
        return None;
      }
      attempt := Some(|attempts| - 1);
    }

    method HandleExpertResult(wallet: Wallet, reply: F.Reply) returns (accepted: bool)
      modifies this`pending, this`attempts
      ensures accepted <==> F.Accepts(old(View()), wallet, reply.key)
      ensures View() == F.OnResult(old(View()), wallet, reply)
    {
      var key := reply.key;
      if key !in assignments || assignments[key] != wallet { return false; }
      accepted := true;
      if key !in pending { return; }
      var id := pending[key];
      pending := pending - {key};
      if id < |attempts| {
        attempts := attempts[id := attempts[id].(channel := F.Delivered(reply, wallet))];
      }
    }

    /** Fails every dispatch awaiting the wallet, one stale key at a time. */
    method OnDisconnect(wallet: Wallet)
      modifies this`assignments, this`pending, this`attempts
      ensures View() == F.OnDisconnect(old(View()), wallet)
    {
      hide F.Forget, F.DropKeys;
      var stale := set key | key in assignments && assignments[key] == wallet;
      ghost var all, before := stale, View();
      NothingDropped(before);
      assert all - stale == {};
      while stale != {}
        invariant stale <= all
        invariant View() == F.DropKeys(before, all - stale)
        decreases |stale|
      {
        var key :| key in stale;
        F.DropOneMore(before, all - stale, key);
        assert all - stale + {key} == all - (stale - {key});
        stale := stale - {key};
        Forget(key);
      }
      assert all - stale == all;
    }

    /** One more host for a task whose current one failed, or the end of it. */
    method NextHost(slot: F.Slot, ghost sends: nat -> bool) returns (next: F.Slot)
      requires registry.Valid() && !slot.outcome.Lost?
      ensures var net := NetOf(registry.View(), sends);
              F.Fail(View(), slot, net) == if next.outcome.Lost? then (View(), next) else F.Try(View(), next, net)
      ensures !next.outcome.Lost? ==> |next.tried| == |slot.tried| + 1 <= F.MAX_RETRIES
    {
      var tried := slot.tried + [slot.wallet];
      if |tried| > F.MAX_RETRIES { return slot.(tried := tried, outcome := F.Lost); }
      var exclude := slot.used + tried;
      var host := registry.PickExpertHost(0, exclude);
      if host.None? { return slot.(tried := tried, outcome := F.Lost); }
      next := slot.(tried := tried, used := slot.used + [host.value], wallet := host.value);
    }

    /** Dispatches the task's host, moving on to another host for as long as attempts fail at once. */
    method DispatchWithRetry(slot: F.Slot, sends: nat -> bool) returns (r: F.Slot)
      requires registry.Valid() && !slot.outcome.Lost?
      modifies this
      ensures (View(), r) == F.Try(old(View()), slot, NetOf(registry.View(), sends))
    {
      ghost var sb, net := View(), NetOf(registry.View(), sends);
      r := slot;
      while true
        invariant !r.outcome.Lost?
        invariant F.Try(sb, slot, net) == F.Try(View(), r, net)
        invariant r == slot || |r.tried| <= F.MAX_RETRIES
        decreases F.MAX_RETRIES + 1 - |r.tried|
      {
        var attempt := DispatchOne(r.key, r.token, r.wallet, sends(|r.tried|));
        if attempt.Some? {
          return r.(outcome := F.Waiting(attempt.value));
        }
        r := NextHost(r, sends);
        if r.outcome.Lost? { return; }
      }
    }

    /** Runs a task until it waits or is over: its first dispatch, or what its channel or its timer brought. */
    method RunTask(slot: F.Slot, timedOut: bool, sends: nat -> bool) returns (r: F.Slot)
      requires registry.Valid()
      modifies this
      ensures (View(), r) == F.Poll(old(View()), slot, timedOut, NetOf(registry.View(), sends))
    {
      r := slot;
      if slot.outcome.Planned? {
        r := DispatchWithRetry(slot, sends);
      } else if slot.outcome.Waiting? && slot.outcome.attempt < |attempts| {
        var channel := attempts[slot.outcome.attempt].channel;
        if channel.Delivered? {
          Forget(slot.key);
          r := slot.(outcome := F.Won(channel.reply));
        } else if channel.Dropped? || timedOut {
          Forget(slot.key);
          r := NextHost(slot, sends);
          if !r.outcome.Lost? {
            r := DispatchWithRetry(r, sends);
          }
        }
      }
    }

    /** Picks a host per expert up front, each outside those excluded and those already picked. */
    method PlanHosts(experts: seq<F.Selected>, pre: seq<Wallet>) returns (hosts: Option<seq<Wallet>>)
      requires registry.Valid()
      ensures hosts == F.PlanHosts(registry.View(), experts, pre)
    {
      hide BestHost;
      var picked: seq<Wallet> := [];
      var used := pre;
      ghost var all := F.PlanHosts(registry.View(), experts, pre);
      assert experts[0..] == experts && (all.Some? ==> [] + all.value == all.value);
      for i := 0 to |experts|
        invariant used == pre + picked
        invariant F.PlanHosts(registry.View(), experts, pre) ==
                  Prepend(picked, F.PlanHosts(registry.View(), experts[i..], used))
      {
        var host := registry.PickExpertHost(experts[i].minVram, used);
        PlanNext(registry.View(), experts, i, used, picked);
        hide F.PlanHosts;
        if host.None? { return None; }
        used := used + [host.value];
        picked := picked + [host.value];
      }
      assert experts[|experts|..] == [] && picked + [] == picked;
      hosts := Some(picked);
    }

    /** The join barrier: combines the outputs only if every task won. */
    method Join(slots: seq<F.Slot>) returns (r: Result<Combined, JoinError>)
      ensures r.Ok? ==> F.JoinsTo(slots, r.value)
      ensures r.Err? ==> forall sum :: !F.JoinsTo(slots, sum)
      ensures r == Err(ExpertFailed) <==> exists s :: s in slots && !s.outcome.Won?
    {
      var terms: seq<Term> := [];
      for i := 0 to |slots|
        invariant forall s | s in slots[..i] :: s.outcome.Won?
        invariant terms == F.TermsOf(slots[..i])
      {
        assert slots[i] in slots;
        if !slots[i].outcome.Won? { return Err(ExpertFailed); }
        assert slots[..i + 1] == slots[..i] + [slots[i]];
        terms := terms + [Term(slots[i].weight, slots[i].outcome.reply.output)];
      }
      assert slots[..|slots|] == slots;
      var sum := CombineWeighted(terms);
      r := if sum.Ok? then Ok(sum.value) else Err(CannotCombine(sum.error));
    }
  }

  ghost function Prepend(picked: seq<Wallet>, rest: Option<seq<Wallet>>): Option<seq<Wallet>> {
    if rest.None? then None else Some(picked + rest.value)
  }

  lemma NothingDropped(sb: F.Switchboard)
    ensures F.DropKeys(sb, {}) == sb
  {
    assert F.DropKeys(sb, {}).attempts == sb.attempts;
  }
}
