/** Expert fan-outs: planning hosts, dispatching every selected expert, retrying, and joining the outputs.

    `Switchboard` is what the dispatcher's maps hold; a `Slot` is one selected expert's own task. Any number of
    fan-outs, with the same or different keys, may be in flight at once. */
module ExpertFanout {
  import opened Common
  import opened Rosters
  import opened ExpertCombine

  const MAX_RETRIES := 2

  datatype Key = Key(request: RequestId, layerStart: nat, layerEnd: nat, layer: nat, expert: nat)

  /** `token` is the token the wallet computed the output for. The key does not include it. */
  datatype Reply = Reply(key: Key, token: nat, output: ExpertOutput)

  /** The one-shot channel a task waits on. `from` is the wallet whose reply was put through. */
  datatype Channel = Open | Delivered(reply: Reply, from: Wallet) | Dropped

  /** `sent` says whether the dispatch reached the wallet's line. */
  datatype Attempt = Attempt(key: Key, token: nat, wallet: Wallet, sent: bool, channel: Channel)

  datatype Switchboard = Switchboard(
    assignments: map<Key, Wallet>, pending: map<Key, nat>, recent: map<Key, Wallet>, attempts: seq<Attempt>)

  datatype Outcome = Planned | Waiting(attempt: nat) | Won(reply: Reply) | Lost

  /** `group` is the list of wallets its fan-out was planned with and excluded; `used` starts as the task's own
      copy of it and grows with every wallet the task claims. */
  datatype Slot = Slot(key: Key, token: nat, weight: real, wallet: Wallet, group: seq<Wallet>, used: seq<Wallet>,
                       tried: seq<Wallet>, outcome: Outcome)

  /** What an attempt finds: the registry, and whether the wallet's line could be written to. */
  datatype Net = Net(roster: Roster, sent: bool)

  // ---- The switchboard ---------------------------------------------------------------------------------

  /** Dropping the sender of an open channel unblocks whoever waits on it. */
  function Drop(attempts: seq<Attempt>, id: nat): seq<Attempt> {
    if id < |attempts| && attempts[id].channel.Open? then attempts[id := attempts[id].(channel := Dropped)]
    else attempts
  }

  function DropPending(sb: Switchboard, key: Key): seq<Attempt> {
    if key in sb.pending then Drop(sb.attempts, sb.pending[key]) else sb.attempts
  }

  /** Registers a new attempt, replacing whatever was registered under the same key. */
  function Register(sb: Switchboard, key: Key, token: nat, wallet: Wallet, sent: bool): Switchboard {
    var attempts := DropPending(sb, key) + [Attempt(key, token, wallet, sent, Open)];
    Switchboard(sb.assignments[key := wallet], sb.pending[key := |attempts| - 1], sb.recent[key := wallet], attempts)
  }

  function Forget(sb: Switchboard, key: Key): Switchboard {
    sb.(assignments := sb.assignments - {key}, pending := sb.pending - {key}, attempts := DropPending(sb, key))
  }

  predicate Accepts(sb: Switchboard, wallet: Wallet, key: Key) {
    key in sb.assignments && sb.assignments[key] == wallet
  }

  function OnResult(sb: Switchboard, wallet: Wallet, reply: Reply): Switchboard {
    var key := reply.key;
    if !Accepts(sb, wallet, key) || key !in sb.pending then sb
    else
      var id := sb.pending[key];
      sb.(pending := sb.pending - {key},
          attempts := if id < |sb.attempts|
            then sb.attempts[id := sb.attempts[id].(channel := Delivered(reply, wallet))] else sb.attempts)
  }

  /** The channel was registered under one of the keys and is still open. */
  ghost predicate Unblocked(sb: Switchboard, keys: set<Key>, i: nat) {
    i < |sb.attempts| && sb.attempts[i].channel.Open? && exists key ::
      key in keys && key in sb.pending && sb.pending[key] == i
  }

  ghost function DropKeys(sb: Switchboard, keys: set<Key>): Switchboard {
    sb.(assignments := sb.assignments - keys, pending := sb.pending - keys,
        attempts := seq(|sb.attempts|, i requires 0 <= i < |sb.attempts| =>
          if Unblocked(sb, keys, i) then sb.attempts[i].(channel := Dropped) else sb.attempts[i]))
  }

  lemma DropOneMore(sb: Switchboard, keys: set<Key>, key: Key)
    requires key !in keys
    ensures Forget(DropKeys(sb, keys), key) == DropKeys(sb, keys + {key})
  {
    var a, b := Forget(DropKeys(sb, keys), key), DropKeys(sb, keys + {key});
    assert a.assignments == b.assignments && a.pending == b.pending;
    forall i | 0 <= i < |sb.attempts| ensures a.attempts[i] == b.attempts[i] {
      assert Unblocked(sb, keys + {key}, i) <==>
        Unblocked(sb, keys, i) || (key in sb.pending && sb.pending[key] == i && sb.attempts[i].channel.Open?);
    }
  }

  /** Every dispatch awaiting a lost wallet fails at once. */
  ghost function OnDisconnect(sb: Switchboard, wallet: Wallet): Switchboard {
    DropKeys(sb, set key | key in sb.assignments && sb.assignments[key] == wallet)
  }

  // ---- One expert's task -----------------------------------------------------------------------------------

  /** Dispatches the slot's wallet; whatever goes wrong at once counts as a failed attempt. */
  ghost function Try(sb: Switchboard, slot: Slot, net: nat -> Net): (r: (Switchboard, Slot))
    decreases MAX_RETRIES + 1 - |slot.tried|, 1
  {
    var n := net(|slot.tried|);
    if slot.wallet !in n.roster.order then Fail(sb, slot, net)
    else
      var sb1 := Register(sb, slot.key, slot.token, slot.wallet, n.sent);
      if !n.sent then Fail(Forget(sb1, slot.key), slot, net)
      else (sb1, slot.(outcome := Waiting(|sb1.attempts| - 1)))
  }

  /** Whom a task that has failed on all of `tried` would turn to. */
  ghost function RetryHost(slot: Slot, tried: seq<Wallet>, r: Roster): (host: Option<Wallet>)
    ensures host.Some? ==>
              && host.value in r.order && host.value !in r.banned
              && host.value !in slot.used && host.value !in tried
  {
    BestHost(r, 0, set w | w in slot.used + tried)
  }

  /** The task once it has failed on its wallet and claimed another one, if there is one. */
  ghost function Retried(slot: Slot, r: Roster): Option<Slot> {
    var tried := slot.tried + [slot.wallet];
    var host := RetryHost(slot, tried, r);
    if host.None? then None
    else Some(slot.(tried := tried, used := slot.used + [host.value], wallet := host.value))
  }

  /** Gives up after the allowed retries, or picks another host outside the group's and the task's own wallets.
      No memory floor applies to a retry. */
  ghost function Fail(sb: Switchboard, slot: Slot, net: nat -> Net): (r: (Switchboard, Slot))
    decreases MAX_RETRIES + 1 - |slot.tried|, 0
  {
    var tried := slot.tried + [slot.wallet];
    if |tried| > MAX_RETRIES then (sb, slot.(tried := tried, outcome := Lost))
    else
      var next := Retried(slot, net(|tried|).roster);
      if next.None? then (sb, slot.(tried := tried, outcome := Lost)) else Try(sb, next.value, net)
  }

  /** Runs a task until it has to wait or is over. */
  ghost function Poll(sb: Switchboard, slot: Slot, timedOut: bool, net: nat -> Net): (Switchboard, Slot) {
    match slot.outcome
    case Planned => Try(sb, slot, net)
    case Waiting(id) =>
      if id >= |sb.attempts| then (sb, slot)
      else (
        match sb.attempts[id].channel
        case Delivered(reply, _) => (Forget(sb, slot.key), slot.(outcome := Won(reply)))
        case Dropped => Fail(Forget(sb, slot.key), slot, net)
        case Open => if timedOut then Fail(Forget(sb, slot.key), slot, net) else (sb, slot))
    case Won(_) => (sb, slot)
    case Lost => (sb, slot)
  }

  // ---- Planning ------------------------------------------------------------------------------------------------

  datatype Selected = Selected(expert: nat, weight: real, minVram: nat)

  /** One host after the other, each outside all wallets used so far; a single expert without a host abandons all. */
  ghost function PlanHosts(r: Roster, experts: seq<Selected>, used: seq<Wallet>): Option<seq<Wallet>>
    decreases |experts|
  {
    if experts == [] then Some([])
    else
      var host := BestHost(r, experts[0].minVram, set w | w in used);
      if host.None? then None
      else
        var rest := PlanHosts(r, experts[1..], used + [host.value]);
        if rest.None? then None else Some([host.value] + rest.value)
  }

  function KeyOf(at: Key, e: Selected): Key {
    at.(expert := e.expert)
  }

  /** The tasks of a planned group, every one with its own copy of the group's used wallets. */
  function SlotsOf(at: Key, token: nat, experts: seq<Selected>, hosts: seq<Wallet>, pre: seq<Wallet>): seq<Slot>
    requires |hosts| == |experts|
  {
    seq(|experts|, i requires 0 <= i < |experts| =>
      Slot(KeyOf(at, experts[i]), token, experts[i].weight, hosts[i], pre + hosts, pre + hosts, [], Planned))
  }

  /** Planned hosts are pairwise distinct, connected, unbanned, above their floor, and outside the excluded wallets. */
  lemma {:induction false} PlannedHostsAreEligible(r: Roster, experts: seq<Selected>, used: seq<Wallet>)
    requires PlanHosts(r, experts, used).Some?
    ensures var hosts := PlanHosts(r, experts, used).value;
            && |hosts| == |experts|
            && (forall i | 0 <= i < |hosts| ::
                  && hosts[i] in r.order && hosts[i] !in r.banned && hosts[i] !in used
                  && hosts[i] in r.expertVram && r.expertVram[hosts[i]] >= experts[i].minVram)
            && (forall i, j | 0 <= i < j < |hosts| :: hosts[i] != hosts[j])
    decreases |experts|
  {
    if experts != [] {
      var host := BestHost(r, experts[0].minVram, set w | w in used).value;
      PlannedHostsAreEligible(r, experts[1..], used + [host]);
      var rest := PlanHosts(r, experts[1..], used + [host]).value;
      forall i | 0 <= i < |rest| ensures rest[i] != host {
        assert rest[i] !in used + [host];
      }
    }
  }

  // ---- The world: all tasks of all fan-outs ----------------------------------------------------------------------

  /** `answered` are the attempts whose wallet's answer has arrived, whatever became of it. */
  datatype World = World(sb: Switchboard, slots: seq<Slot>, answered: set<nat>)

  datatype Event =
    | Plan(at: Key, token: nat, experts: seq<Selected>, pre: seq<Wallet>, roster: Roster)
    | Result(wallet: Wallet, reply: Reply, origin: nat)
    | Disconnect(wallet: Wallet)
    | Run(slot: nat, timedOut: bool, net: nat -> Net)
    | Cancel(slot: nat)

  ghost function Step(w: World, e: Event): World {
    match e
    case Plan(at, token, experts, pre, roster) => (
      var hosts := PlanHosts(roster, experts, pre);
      if hosts.None? then w
      else
        PlannedHostsAreEligible(roster, experts, pre);
        w.(slots := w.slots + SlotsOf(at, token, experts, hosts.value, pre)))
    case Result(wallet, reply, origin) => w.(sb := OnResult(w.sb, wallet, reply), answered := w.answered + {origin})
    case Disconnect(wallet) => w.(sb := OnDisconnect(w.sb, wallet))
    case Run(i, timedOut, net) =>
      if i >= |w.slots| then w
      else var (sb, slot) := Poll(w.sb, w.slots[i], timedOut, net); w.(sb := sb, slots := w.slots[i := slot])
    case Cancel(i) =>
      if i >= |w.slots| then w else w.(slots := w.slots[i := w.slots[i].(outcome := Lost)])
  }

  // ---- What holds of every reachable world -----------------------------------------------------------------------

  /** A registered channel is open and belongs to the wallet recorded for its key; a reply came from the wallet
      its attempt was sent to, for exactly its key. */
  ghost predicate Wired(sb: Switchboard) {
    && (forall key | key in sb.pending ::
          && sb.pending[key] < |sb.attempts| && key in sb.assignments
          && sb.attempts[sb.pending[key]].key == key && sb.attempts[sb.pending[key]].wallet == sb.assignments[key]
          && sb.attempts[sb.pending[key]].channel.Open?)
    && (forall i | 0 <= i < |sb.attempts| && sb.attempts[i].channel.Delivered? ::
          sb.attempts[i].channel.from == sb.attempts[i].wallet
            && sb.attempts[i].channel.reply.key == sb.attempts[i].key)
  }

  /** A reply to this key from this wallet was put through to an attempt for this key and token, sent to that wallet. */
  ghost predicate PutThrough(sb: Switchboard, key: Key, token: nat, wallet: Wallet, reply: Reply) {
    exists i :: 0 <= i < |sb.attempts| && TookReply(sb.attempts[i], key, token, wallet, reply)
  }

  ghost predicate TookReply(a: Attempt, key: Key, token: nat, wallet: Wallet, reply: Reply) {
    a.key == key && a.token == token && a.wallet == wallet && a.channel == Delivered(reply, wallet) && reply.key == key
  }

  /** The wallets a task has been or is on, in order. */
  function Hosts(slot: Slot): seq<Wallet> {
    if slot.outcome.Lost? then slot.tried else slot.tried + [slot.wallet]
  }

  /** A task's hosts are distinct, at most three, and all but the first lie outside the wallets its group was
      planned with and excluded. */
  ghost predicate Disciplined(slot: Slot) {
    var hosts := Hosts(slot);
    && |hosts| <= MAX_RETRIES + 1
    && (forall i, j | 0 <= i < j < |hosts| :: hosts[i] != hosts[j])
    && (forall i | 0 < i < |hosts| :: hosts[i] !in slot.group)
    && (forall w | w in slot.group :: w in slot.used)
  }

  ghost predicate SlotInv(sb: Switchboard, slot: Slot) {
    match slot.outcome
    case Waiting(id) =>
      && id < |sb.attempts| && sb.attempts[id].key == slot.key && sb.attempts[id].wallet == slot.wallet
      && sb.attempts[id].token == slot.token
    case Won(reply) => PutThrough(sb, slot.key, slot.token, slot.wallet, reply)
    case Planned => true
    case Lost => true
  }

  ghost predicate Inv(w: World) {
    Wired(w.sb) && forall i | 0 <= i < |w.slots| :: SlotInv(w.sb, w.slots[i]) && Disciplined(w.slots[i])
  }

  /** Attempts are never removed or reassigned, and a delivered reply stays delivered. */
  ghost predicate Extends(sb: Switchboard, sb2: Switchboard) {
    && |sb.attempts| <= |sb2.attempts|
    && forall i | 0 <= i < |sb.attempts| ::
         && sb2.attempts[i] == sb.attempts[i].(channel := sb2.attempts[i].channel)
         && (sb.attempts[i].channel.Delivered? ==> sb2.attempts[i] == sb.attempts[i])
  }

  lemma ExtensionKeeps(sb: Switchboard, sb2: Switchboard, slot: Slot)
    requires Extends(sb, sb2) && SlotInv(sb, slot)
    ensures SlotInv(sb2, slot)
  {
    if slot.outcome.Won? {
      var i :| 0 <= i < |sb.attempts|
        && TookReply(sb.attempts[i], slot.key, slot.token, slot.wallet, slot.outcome.reply);
      assert sb2.attempts[i] == sb.attempts[i];
    }
  }

  lemma RegisterKeeps(sb: Switchboard, key: Key, token: nat, wallet: Wallet, sent: bool)
    requires Wired(sb)
    ensures var sb2 := Register(sb, key, token, wallet, sent);
            && Wired(sb2) && Extends(sb, sb2)
            && sb2.attempts[|sb2.attempts| - 1] == Attempt(key, token, wallet, sent, Open)
  {
  }

  lemma ForgetKeeps(sb: Switchboard, key: Key)
    requires Wired(sb)
    ensures Wired(Forget(sb, key)) && Extends(sb, Forget(sb, key))
  {
  }

  lemma ResultKeeps(sb: Switchboard, wallet: Wallet, reply: Reply)
    requires Wired(sb)
    ensures Wired(OnResult(sb, wallet, reply)) && Extends(sb, OnResult(sb, wallet, reply))
  {
  }

  lemma DisconnectKeeps(sb: Switchboard, wallet: Wallet)
    requires Wired(sb)
    ensures Wired(OnDisconnect(sb, wallet)) && Extends(sb, OnDisconnect(sb, wallet))
  {
  }

  lemma {:induction false} TryKeeps(sb: Switchboard, slot: Slot, net: nat -> Net)
    requires Wired(sb)
    ensures var r := Try(sb, slot, net); Wired(r.0) && Extends(sb, r.0) && SlotInv(r.0, r.1)
    decreases MAX_RETRIES + 1 - |slot.tried|, 1
  {
    hide Register, Forget, BestHost;
    var n := net(|slot.tried|);
    if slot.wallet !in n.roster.order {
      FailKeeps(sb, slot, net);
    } else {
      RegisterKeeps(sb, slot.key, slot.token, slot.wallet, n.sent);
      var sb1 := Register(sb, slot.key, slot.token, slot.wallet, n.sent);
      if !n.sent {
        ForgetKeeps(sb1, slot.key);
        FailKeeps(Forget(sb1, slot.key), slot, net);
      }
    }
  }

  lemma {:induction false} FailKeeps(sb: Switchboard, slot: Slot, net: nat -> Net)
    requires Wired(sb)
    ensures var r := Fail(sb, slot, net); Wired(r.0) && Extends(sb, r.0) && SlotInv(r.0, r.1)
    decreases MAX_RETRIES + 1 - |slot.tried|, 0
  {
    var tried := slot.tried + [slot.wallet];
    if |tried| <= MAX_RETRIES {
      var host := RetryHost(slot, tried, net(|tried|).roster);
      if host.Some? {
        TryKeeps(sb, slot.(tried := tried, used := slot.used + [host.value], wallet := host.value), net);
      }
    }
  }

  lemma PollKeeps(sb: Switchboard, slot: Slot, timedOut: bool, net: nat -> Net)
    requires Wired(sb) && SlotInv(sb, slot)
    ensures var r := Poll(sb, slot, timedOut, net); Wired(r.0) && Extends(sb, r.0) && SlotInv(r.0, r.1)
  {
    hide Try, Fail, Forget;
    if slot.outcome.Planned? {
      TryKeeps(sb, slot, net);
    } else if slot.outcome.Waiting? {
      ForgetKeeps(sb, slot.key);
      FailKeeps(Forget(sb, slot.key), slot, net);
    }
  }

  lemma {:induction false} TryStaysDisciplined(sb: Switchboard, slot: Slot, net: nat -> Net)
    requires Disciplined(slot) && !slot.outcome.Lost?
    ensures Disciplined(Try(sb, slot, net).1)
    decreases MAX_RETRIES + 1 - |slot.tried|, 1
  {
    hide Register, Forget;
    if slot.wallet !in net(|slot.tried|).roster.order {
      FailStaysDisciplined(sb, slot, net);
    } else if !net(|slot.tried|).sent {
      FailStaysDisciplined(Forget(Register(sb, slot.key, slot.token, slot.wallet, false), slot.key), slot, net);
    }
  }

  lemma {:induction false} FailStaysDisciplined(sb: Switchboard, slot: Slot, net: nat -> Net)
    requires Disciplined(slot) && !slot.outcome.Lost?
    ensures Disciplined(Fail(sb, slot, net).1)
    decreases MAX_RETRIES + 1 - |slot.tried|, 0
  {
    var tried := slot.tried + [slot.wallet];
    var host := RetryHost(slot, tried, net(|tried|).roster);
    if |tried| <= MAX_RETRIES && host.Some? {
      assert host.value !in slot.used + tried;
      var next := slot.(tried := tried, used := slot.used + [host.value], wallet := host.value);
      assert Hosts(next) == Hosts(slot) + [host.value];
      TryStaysDisciplined(sb, next, net);
    }
  }

  lemma PollStaysDisciplined(sb: Switchboard, slot: Slot, timedOut: bool, net: nat -> Net)
    requires Disciplined(slot)
    ensures Disciplined(Poll(sb, slot, timedOut, net).1)
  {
    hide Try, Fail, Forget;
    if slot.outcome.Planned? {
      TryStaysDisciplined(sb, slot, net);
    } else if slot.outcome.Waiting? {
      FailStaysDisciplined(Forget(sb, slot.key), slot, net);
    }
  }

  lemma CancelStaysDisciplined(slot: Slot)
    requires Disciplined(slot)
    ensures Disciplined(slot.(outcome := Lost))
  {
    assert slot.tried == Hosts(slot)[..|slot.tried|];
  }

  lemma StepKeeps(w: World, e: Event)
    requires Inv(w)
    ensures Inv(Step(w, e)) && Extends(w.sb, Step(w, e).sb)
  {
    hide OnResult, OnDisconnect, Poll, PlanHosts, Wired;
    match e
    case Plan(_, _, _, _, _) =>
      forall i | |w.slots| <= i < |Step(w, e).slots| ensures Disciplined(Step(w, e).slots[i]) {
        assert Hosts(Step(w, e).slots[i]) == [Step(w, e).slots[i].wallet];
      }
    case Result(wallet, reply, _) => ResultKeeps(w.sb, wallet, reply);
    case Disconnect(wallet) => DisconnectKeeps(w.sb, wallet);
    case Run(i, timedOut, net) =>
      if i < |w.slots| {
        PollKeeps(w.sb, w.slots[i], timedOut, net);
        PollStaysDisciplined(w.sb, w.slots[i], timedOut, net);
      }
    case Cancel(_) =>
    var w2 := Step(w, e);
    forall i | 0 <= i < |w2.slots| ensures SlotInv(w2.sb, w2.slots[i]) && Disciplined(w2.slots[i]) {
      if i < |w.slots| {
        ExtensionKeeps(w.sb, w2.sb, w.slots[i]);
        CancelStaysDisciplined(w.slots[i]);
      }
    }
  }

  function Empty(): World {
    World(Switchboard(map[], map[], map[], []), [], {})
  }

  ghost function Follow(w: World, run: seq<Event>): World
    decreases |run|
  {
    if run == [] then w else Follow(Step(w, run[0]), run[1..])
  }

  lemma {:induction false} RunKeeps(w: World, run: seq<Event>)
    requires Inv(w)
    ensures Inv(Follow(w, run))
    decreases |run|
  {
    if run != [] {
      StepKeeps(w, run[0]);
      RunKeeps(Step(w, run[0]), run[1..]);
    }
  }

  // ---- The join ------------------------------------------------------------------------------------------------

  function TermsOf(slots: seq<Slot>): seq<Term>
    requires forall s | s in slots :: s.outcome.Won?
  {
    seq(|slots|, i requires 0 <= i < |slots| => Term(slots[i].weight, slots[i].outcome.reply.output))
  }

  /** All or nothing: the outputs are combined only when every task won. */
  ghost predicate JoinsTo(slots: seq<Slot>, sum: Combined) {
    && (forall s | s in slots :: s.outcome.Won?)
    && Combinable(TermsOf(slots)) && IsSum(TermsOf(slots), sum)
  }

  /** Join barrier: in any run, a group that joined has for every selected expert a reply to exactly that expert's
      key, put through from the very wallet to which an attempt for that key and the group's token had been sent. */
  lemma JoinBarrier(run: seq<Event>, from: nat, to: nat, sum: Combined, i: nat)
    requires from <= i < to <= |Follow(Empty(), run).slots| && JoinsTo(Follow(Empty(), run).slots[from..to], sum)
    ensures var w := Follow(Empty(), run);
            && w.slots[i].outcome.Won?
            && PutThrough(w.sb, w.slots[i].key, w.slots[i].token, w.slots[i].wallet, w.slots[i].outcome.reply)
  {
    RunKeeps(Empty(), run);
    var w := Follow(Empty(), run);
    assert w.slots[i] == w.slots[from..to][i - from];
    assert w.slots[i] in w.slots[from..to];
    assert SlotInv(w.sb, w.slots[i]);
  }

  /** A reply gets through only when it comes from the wallet recorded at that moment for exactly its key. */
  lemma RepliesComeFromTheRecordedWallet(w: World, e: Event, i: nat)
    requires Inv(w) && i < |Step(w, e).sb.attempts| && Step(w, e).sb.attempts[i].channel.Delivered?
    requires i < |w.sb.attempts| ==> !w.sb.attempts[i].channel.Delivered?
    ensures e.Result? && Accepts(w.sb, e.wallet, e.reply.key)
    ensures Step(w, e).sb.attempts[i].channel == Delivered(e.reply, e.wallet)
    ensures e.reply.key in w.sb.pending && w.sb.pending[e.reply.key] == i
  {
    if e.Run? && e.slot < |w.slots| {
      PollDeliversNothing(w.sb, w.slots[e.slot], e.timedOut, e.net, i);
    }
  }

  /** Nothing but a delivery makes a channel delivered. */
  ghost predicate Undelivered(sb: Switchboard, i: nat) {
    i < |sb.attempts| ==> !sb.attempts[i].channel.Delivered?
  }

  lemma {:induction false} TryDeliversNothing(sb: Switchboard, slot: Slot, net: nat -> Net, i: nat)
    requires Undelivered(sb, i)
    ensures Undelivered(Try(sb, slot, net).0, i)
    decreases MAX_RETRIES + 1 - |slot.tried|, 1
  {
    var n := net(|slot.tried|);
    if slot.wallet !in n.roster.order {
      FailDeliversNothing(sb, slot, net, i);
    } else if !n.sent {
      FailDeliversNothing(Forget(Register(sb, slot.key, slot.token, slot.wallet, false), slot.key), slot, net, i);
    }
  }

  lemma {:induction false} FailDeliversNothing(sb: Switchboard, slot: Slot, net: nat -> Net, i: nat)
    requires Undelivered(sb, i)
    ensures Undelivered(Fail(sb, slot, net).0, i)
    decreases MAX_RETRIES + 1 - |slot.tried|, 0
  {
    var tried := slot.tried + [slot.wallet];
    var host := RetryHost(slot, tried, net(|tried|).roster);
    if |tried| <= MAX_RETRIES && host.Some? {
      TryDeliversNothing(sb, slot.(tried := tried, used := slot.used + [host.value], wallet := host.value), net, i);
    }
  }

  lemma PollDeliversNothing(sb: Switchboard, slot: Slot, timedOut: bool, net: nat -> Net, i: nat)
    requires Undelivered(sb, i)
    ensures Undelivered(Poll(sb, slot, timedOut, net).0, i)
  {
    hide Try, Fail;
    if slot.outcome.Planned? {
      TryDeliversNothing(sb, slot, net, i);
    } else if slot.outcome.Waiting? {
      FailDeliversNothing(Forget(sb, slot.key), slot, net, i);
    }
  }

  /** In any run every task stays within its bounds: at most three hosts, all different, and every retry outside
      the wallets its group was planned with or told to avoid. */
  lemma RetriesAreBoundedAndDisjoint(run: seq<Event>, i: nat)
    requires i < |Follow(Empty(), run).slots|
    ensures Disciplined(Follow(Empty(), run).slots[i])
  {
    RunKeeps(Empty(), run);
  }

  // ---- What retries do not promise ---------------------------------------------------------------------------------

  /** The task after one failure under each of the registries. */
  ghost function AfterFailures(slot: Slot, rosters: seq<Roster>): Option<Slot> {
    if rosters == [] then Some(slot)
    else
      var before := AfterFailures(slot, rosters[..|rosters| - 1]);
      if before.None? then None else Retried(before.value, rosters[|rosters| - 1])
  }

  function Claimed(slot: Slot): set<Wallet> {
    set w | w in slot.used + (slot.tried + [slot.wallet])
  }

  /** Siblings exclude the same wallets whenever they have failed equally often, so they always turn to the same one. */
  ghost predicate Alike(a: Option<Slot>, b: Option<Slot>) {
    (a.None? <==> b.None?) && (a.Some? && b.Some? ==> Claimed(a.value) == Claimed(b.value))
  }

  lemma {:induction false} SiblingsStayAlike(a: Slot, b: Slot, rosters: seq<Roster>)
    requires Claimed(a) == Claimed(b)
    ensures Alike(AfterFailures(a, rosters), AfterFailures(b, rosters))
    ensures rosters != [] && AfterFailures(a, rosters).Some? ==>
              AfterFailures(a, rosters).value.wallet == AfterFailures(b, rosters).value.wallet
  {
    hide BestHost;
    if rosters != [] {
      var init := rosters[..|rosters| - 1];
      SiblingsStayAlike(a, b, init);
      if AfterFailures(a, init).Some? {
        var x, y, r := AfterFailures(a, init).value, AfterFailures(b, init).value, rosters[|rosters| - 1];
        RetriedClaims(x, r);
        RetriedClaims(y, r);
      }
    }
  }

  lemma RetriedClaims(slot: Slot, r: Roster)
    ensures Retried(slot, r).None? <==> BestHost(r, 0, Claimed(slot)).None?
    ensures Retried(slot, r).Some? ==>
              && BestHost(r, 0, Claimed(slot)) == Some(Retried(slot, r).value.wallet)
              && Claimed(Retried(slot, r).value) == Claimed(slot) + {Retried(slot, r).value.wallet}
  {
    hide BestHost;
    assert Claimed(slot) == set w | w in slot.used + (slot.tried + [slot.wallet]);
  }

  /** Each task retries with its own copy of the group's list. So two experts of one group that have failed equally
      often, under the same registries, have always turned to the same host, or both found none. */
  lemma RetriesOfSiblingsCollide(at: Key, token: nat, experts: seq<Selected>, pre: seq<Wallet>, planned: Roster,
                                 rosters: seq<Roster>, i: nat, j: nat)
    requires PlanHosts(planned, experts, pre).Some? && i < |experts| && j < |experts| && rosters != []
    ensures var hosts := PlanHosts(planned, experts, pre).value;
            && |hosts| == |experts|
            && var slots := SlotsOf(at, token, experts, hosts, pre);
               var a, b := AfterFailures(slots[i], rosters), AfterFailures(slots[j], rosters);
               (a.None? <==> b.None?) && (a.Some? && b.Some? ==> a.value.wallet == b.value.wallet)
  {
    PlannedHostsAreEligible(planned, experts, pre);
    var hosts := PlanHosts(planned, experts, pre).value;
    var slots := SlotsOf(at, token, experts, hosts, pre);
    assert Claimed(slots[i]) == (set w | w in pre + hosts) == Claimed(slots[j]);
    SiblingsStayAlike(slots[i], slots[j], rosters);
  }

  /** Dropping the memory floor on a retry matters only when nobody left meets it. */
  lemma RetryMeetsFloorIffSomeoneDoes(r: Roster, floor: nat, exclude: set<Wallet>)
    requires BestHost(r, 0, exclude).Some?
    ensures r.expertVram[BestHost(r, 0, exclude).value] >= floor <==> BestHost(r, floor, exclude).Some?
    ensures BestHost(r, floor, exclude).Some? ==> BestHost(r, floor, exclude) == BestHost(r, 0, exclude)
  {
    var best := BestHost(r, 0, exclude).value;
    var pool, able := r.ExpertHosts(0, exclude), r.ExpertHosts(floor, exclude);
    assert able <= pool;
    if r.expertVram[best] >= floor { assert best in able; }
    if BestHost(r, floor, exclude).Some? {
      var w := BestHost(r, floor, exclude).value;
      assert w in pool;
      assert w != best ==> Ahead(r.expertVram, best, w);
      assert best in able;
      BestUnique(r.expertVram, able, w, best);
    }
  }

  // ---- Losing a host, and replies that come too late -------------------------------------------------------------

  /** A lost wallet keeps no assignment, every task that waited on it is unblocked, and no other task is. */
  lemma DisconnectFailsExactlyItsWaiters(sb: Switchboard, wallet: Wallet)
    requires Wired(sb)
    ensures var sb2 := OnDisconnect(sb, wallet);
            && (forall key :: key in sb2.assignments <==> key in sb.assignments && sb.assignments[key] != wallet)
            && (forall key | key in sb.pending ::
                  sb2.attempts[sb.pending[key]].channel == if sb.assignments[key] == wallet then Dropped else Open)
  {
    var sb2 := OnDisconnect(sb, wallet);
    forall key | key in sb.pending
      ensures sb2.attempts[sb.pending[key]].channel == if sb.assignments[key] == wallet then Dropped else Open
    {
      var i := sb.pending[key];
      assert forall other | other in sb.pending && sb.pending[other] == i :: sb.attempts[i].key == other;
    }
  }
}
