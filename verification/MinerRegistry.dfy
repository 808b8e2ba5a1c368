/** The registry of connected miners. */
module MinerRegistries {
  import opened Common
  import opened Attribution
  import opened Rosters

  /** Removing one place from a list of distinct wallets removes that wallet, and leaves a list of distinct wallets. */
  lemma WithoutOne(order: seq<Wallet>, i: nat)
    requires i < |order| && forall j, k | 0 <= j < k < |order| :: order[j] != order[k]
    ensures var shifted := order[..i] + order[i + 1..];
            && (forall w :: w in shifted <==> w in order && w != order[i])
            && (forall j, k | 0 <= j < k < |shifted| :: shifted[j] != shifted[k])
  {
    var shifted := order[..i] + order[i + 1..];
    forall w ensures w in shifted <==> w in order && w != order[i] {
      if w in order && w != order[i] {
        var j :| 0 <= j < |order| && order[j] == w;
        assert j < i ==> shifted[j] == w;
        assert j > i ==> shifted[j - 1] == w;
      }
    }
  }

  class MinerRegistry {
    var order: seq<Wallet>
    var draftCapable: set<Wallet>
    var banned: set<Wallet>
    var expertVram: map<Wallet, nat>

    function View(): Roster
      reads this
    {
      Roster(order, banned, draftCapable, expertVram)
    }

    ghost predicate Valid()
      reads this
    {
      View().Valid()
    }

    constructor ()
      ensures Valid() && View() == Roster([], {}, {}, map[])
    {
      order, draftCapable, banned, expertVram := [], {}, {}, map[];
    }

    /** A reconnecting wallet keeps its place in the round. */
    method Register(wallet: Wallet)
      requires Valid()
      modifies this
      ensures Valid()
      ensures View() == old(View()).(order := if wallet in old(order) then old(order) else old(order) + [wallet])
    {
      if wallet !in order {
        order := order + [wallet];
      }
    }

    /** Forgets the wallet and its announced capabilities; a ban survives. */
    method Unregister(wallet: Wallet)
      requires Valid()
      modifies this
      ensures Valid()
      ensures wallet !in order && wallet !in draftCapable && wallet !in expertVram
      ensures banned == old(banned) && draftCapable == old(draftCapable) - {wallet}
      ensures expertVram == old(expertVram) - {wallet}
      ensures forall w :: w in order <==> w in old(order) && w != wallet
      ensures wallet !in old(order) ==> order == old(order)
      ensures forall i | 0 <= i < |old(order)| && old(order)[i] == wallet ::
              order == old(order)[..i] + old(order)[i + 1..]
    {
      var i := IndexOf(order, wallet);
      if i.Some? {
        IndexOfDistinct(order, i.value);
        WithoutOne(order, i.value);
        order := order[..i.value] + order[i.value + 1..];
      }
      draftCapable := draftCapable - {wallet};
      expertVram := expertVram - {wallet};
    }

    method Ban(wallet: Wallet)
      requires Valid()
      modifies this
      ensures Valid() && View() == old(View()).(banned := old(banned) + {wallet})
    {
      banned := banned + {wallet};
    }

    method MarkDraftCapable(wallet: Wallet)
      requires Valid()
      modifies this
      ensures Valid()
      ensures View() == old(View()).(draftCapable := old(draftCapable) + if wallet in old(order) then {wallet} else {})
    {
      if wallet in order {
        draftCapable := draftCapable + {wallet};
      }
    }

    method MarkExpertCapable(wallet: Wallet, vramMb: nat)
      requires Valid()
      modifies this
      ensures Valid()
      ensures View() == old(View()).(expertVram := if wallet in old(order) then old(expertVram)[wallet := vramMb]
                                     else old(expertVram))
    {
      if wallet in order {
        expertVram := expertVram[wallet := vramMb];
      }
    }

    /** Collects the eligible wallets in whatever order the map yields them, keeps the vector sorted by
        memory and address, and returns its first `n` entries. */
    method PickExpertHostsTopN(minVramMb: nat, exclude: seq<Wallet>, n: nat) returns (hosts: seq<Wallet>)
      requires Valid()
      ensures TopN(expertVram, View().ExpertHosts(minVramMb, set w | w in exclude), n, hosts)
    {
      ghost var all := View().ExpertHosts(minVramMb, set w | w in exclude);
      var ranked: seq<Wallet> := [];
      var rest := expertVram.Keys;
      while rest != {}
        invariant rest <= expertVram.Keys
        invariant Ranking(expertVram, all - rest, ranked)
        decreases |rest|
      {
        var w :| w in rest;
        if expertVram[w] >= minVramMb && w in order && w !in banned && w !in exclude {
          InsertNext(expertVram, all, rest, ranked, w);
          ranked := Insert(expertVram, ranked, w);
        } else {
          assert all - (rest - {w}) == all - rest;
        }
        rest := rest - {w};
      }
      assert all - rest == all;
      hosts := if n < |ranked| then ranked[..n] else ranked;
    }

    method PickExpertHost(minVramMb: nat, exclude: seq<Wallet>) returns (host: Option<Wallet>)
      requires Valid()
      ensures host == BestHost(View(), minVramMb, set w | w in exclude)
    {
      var hosts := PickExpertHostsTopN(minVramMb, exclude, 1);
      ghost var pool := View().ExpertHosts(minVramMb, set w | w in exclude);
      ghost var ranking :| Ranking(expertVram, pool, ranking) && hosts == if 1 < |ranking| then ranking[..1]
        else ranking;
      HeadIsBest(expertVram, pool, ranking);
      host := if hosts == [] then None else Some(hosts[0]);
    }
  }

  lemma HeadIsBest(vram: map<Wallet, nat>, pool: set<Wallet>, ranking: seq<Wallet>)
    requires Ranking(vram, pool, ranking)
    ensures ranking == [] <==> pool == {}
    ensures ranking != [] ==> IsBest(vram, pool, ranking[0]) && forall w | IsBest(vram, pool, w) :: w == ranking[0]
  {
    if ranking == [] {
      assert forall w :: w in ranking <==> w in pool;
    } else {
      assert ranking[0] in pool;
      forall v | v in pool && v != ranking[0] ensures Ahead(vram, ranking[0], v) {
        var i :| 0 <= i < |ranking| && ranking[i] == v;
      }
      assert IsBest(vram, pool, ranking[0]);
      forall w | IsBest(vram, pool, w) ensures w == ranking[0] { BestUnique(vram, pool, w, ranking[0]); }
    }
  }

  /** Inserts `w` at its place in a ranked vector. */
  function Insert(vram: map<Wallet, nat>, hosts: seq<Wallet>, w: Wallet): seq<Wallet>
    requires w in vram && forall v | v in hosts :: v in vram
  {
    if hosts == [] then [w]
    else if Ahead(vram, w, hosts[0]) then [w] + hosts
    else [hosts[0]] + Insert(vram, hosts[1..], w)
  }

  lemma {:induction false} InsertKeepsRanking(vram: map<Wallet, nat>, pool: set<Wallet>, hosts: seq<Wallet>, w: Wallet)
    requires w in vram && w !in pool && Ranking(vram, pool, hosts)
    ensures Ranking(vram, pool + {w}, Insert(vram, hosts, w))
    decreases |hosts|
  {
    if hosts != [] {
      var head := hosts[0];
      assert head in pool;
      LessTotal(w, head);
      RestRanking(vram, pool, hosts);
      assert hosts == [head] + hosts[1..];
      if Ahead(vram, w, head) {
        forall i | 0 <= i < |hosts| ensures Ahead(vram, w, hosts[i]) {
          if i > 0 { AheadTransitive(vram, w, head, hosts[i]); }
        }
      } else {
        InsertKeepsRanking(vram, pool - {head}, hosts[1..], w);
        var tail := Insert(vram, hosts[1..], w);
        forall i | 0 <= i < |tail| ensures Ahead(vram, head, tail[i]) {
          assert tail[i] in (pool - {head}) + {w};
          if tail[i] != w {
            var j :| 0 <= j < |hosts| && hosts[j] == tail[i];
          }
        }
        var all := [head] + tail;
        assert Insert(vram, hosts, w) == all;
        forall v ensures v in all <==> v in pool + {w} {
          assert v in all <==> v == head || v in tail;
        }
      }
    }
  }

  lemma InsertNext(vram: map<Wallet, nat>, all: set<Wallet>, rest: set<Wallet>, hosts: seq<Wallet>, w: Wallet)
    requires w in vram && w in all && w in rest && Ranking(vram, all - rest, hosts)
    ensures Ranking(vram, all - (rest - {w}), Insert(vram, hosts, w))
  {
    InsertKeepsRanking(vram, all - rest, hosts, w);
    assert all - (rest - {w}) == (all - rest) + {w};
  }
}
