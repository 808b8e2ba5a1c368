/** Who is connected, who is excluded, and whom the registry picks next. */
module Rosters {
  import opened Common
  import opened Attribution

  /** `order` lists the connected wallets in registration order. */
  datatype Roster = Roster(order: seq<Wallet>, banned: set<Wallet>, draftCapable: set<Wallet>,
                           expertVram: map<Wallet, nat>) {
    ghost predicate Valid() {
      && (forall i, j | 0 <= i < j < |order| :: order[i] != order[j])
      && (forall w | w in draftCapable :: w in order)
      && (forall w | w in expertVram :: w in order)
    }

    function Connected(): set<Wallet> {
      set w | w in order
    }

    function Unbanned(): set<Wallet> {
      set w | w in order && w !in banned
    }

    function DraftHosts(): set<Wallet> {
      set w | w in order && w in draftCapable && w !in banned
    }

    function ExpertHosts(minVram: nat, exclude: set<Wallet>): set<Wallet> {
      set w | w in expertVram && expertVram[w] >= minVram && w in order && w !in banned && w !in exclude
    }

    /** Round-robin over the unbanned wallets. */
    function PickNext(last: Option<Wallet>): Option<Wallet> {
      NextAfter(order, Unbanned(), last)
    }

    function PickDraftCapable(last: Option<Wallet>): Option<Wallet> {
      NextAfter(order, DraftHosts(), last)
    }
  }

  function IndexOf(order: seq<Wallet>, w: Wallet): (i: Option<nat>)
    ensures i.Some? ==> i.value < |order| && order[i.value] == w
    ensures i.None? ==> w !in order
  {
    if order == [] then None
    else if order[0] == w then Some(0)
    else
      var i := IndexOf(order[1..], w);
      if i.None? then None else Some(i.value + 1)
  }

  /** `i` modulo `n`, for an index at most one lap ahead. */
  function Wrap(i: nat, n: nat): (r: nat)
    requires i < 2 * n
    ensures r < n
  {
    if i < n then i else i - n
  }

  function StartIndex(order: seq<Wallet>, last: Option<Wallet>): (start: nat)
    requires order != []
    ensures start < |order|
  {
    if last.None? then 0 else
      var i := IndexOf(order, last.value);
      if i.None? then 0 else Wrap(i.value + 1, |order|)
  }

  /** The first eligible index at cyclic distance `offset` or more from `start`. */
  function Scan(order: seq<Wallet>, eligible: set<Wallet>, start: nat, offset: nat): (i: Option<nat>)
    requires start < |order| && offset <= |order|
    ensures i.Some? ==> i.value < |order| && order[i.value] in eligible
    decreases |order| - offset
  {
    if offset == |order| then None
    else
      var i := Wrap(start + offset, |order|);
      if order[i] in eligible then Some(i) else Scan(order, eligible, start, offset + 1)
  }

  function NextAfter(order: seq<Wallet>, eligible: set<Wallet>, last: Option<Wallet>): (w: Option<Wallet>)
    ensures w.Some? ==> w.value in eligible && w.value in order
  {
    if order == [] then None else
      var i := Scan(order, eligible, StartIndex(order, last), 0);
      if i.None? then None else Some(order[i.value])
  }

  // ---- Round-robin fairness -------------------------------------------------------------------------

  /** Each pick becomes the `last` of the next one. */
  function Picks(order: seq<Wallet>, eligible: set<Wallet>, last: Option<Wallet>, n: nat): seq<Wallet>
    decreases n
  {
    if n == 0 then [] else
      var w := NextAfter(order, eligible, last);
      if w.None? then [] else [w.value] + Picks(order, eligible, w, n - 1)
  }

  /** The eligible wallets, in registration order. */
  function Line(order: seq<Wallet>, eligible: set<Wallet>): seq<Wallet> {
    if order == [] then []
    else (if order[0] in eligible then [order[0]] else []) + Line(order[1..], eligible)
  }

  /** How many eligible wallets stand before index `k`. */
  function Rank(order: seq<Wallet>, eligible: set<Wallet>, k: nat): nat
    requires k <= |order|
  {
    if k == 0 then 0 else Rank(order, eligible, k - 1) + if order[k - 1] in eligible then 1 else 0
  }

  lemma {:induction false} LineSplit(order: seq<Wallet>, eligible: set<Wallet>, k: nat)
    requires k <= |order|
    ensures Line(order, eligible) == Line(order[..k], eligible) + Line(order[k..], eligible)
  {
    if k == 0 {
      assert order[..0] == [] && order[0..] == order;
    } else {
      LineSplit(order[1..], eligible, k - 1);
      assert order[..k][1..] == order[1..][..k - 1];
      assert order[1..][k - 1..] == order[k..];
    }
  }

  lemma {:induction false} RankIsLineLength(order: seq<Wallet>, eligible: set<Wallet>, k: nat)
    requires k <= |order|
    ensures Rank(order, eligible, k) == |Line(order[..k], eligible)|
  {
    if k > 0 {
      RankIsLineLength(order, eligible, k - 1);
      LineSplit(order[..k], eligible, k - 1);
      assert order[..k][..k - 1] == order[..k - 1];
      assert order[..k][k - 1..] == [order[k - 1]];
      assert Line([order[k - 1]], eligible) == if order[k - 1] in eligible then [order[k - 1]] else [];
    } else {
      assert order[..0] == [];
    }
  }

  lemma LineAtRank(order: seq<Wallet>, eligible: set<Wallet>, k: nat)
    requires k < |order| && order[k] in eligible
    ensures Rank(order, eligible, k) < |Line(order, eligible)|
    ensures Line(order, eligible)[Rank(order, eligible, k)] == order[k]
  {
    LineSplit(order, eligible, k);
    RankIsLineLength(order, eligible, k);
    assert order[k..][0] == order[k];
  }

  lemma {:induction false} RankFlat(order: seq<Wallet>, eligible: set<Wallet>, a: nat, b: nat)
    requires a <= b <= |order|
    requires forall i | a <= i < b :: order[i] !in eligible
    ensures Rank(order, eligible, a) == Rank(order, eligible, b)
  {
    if a < b {
      RankFlat(order, eligible, a, b - 1);
    }
  }

  /** The indices at cyclic distance less than `offset` from `start` hold nobody eligible. */
  ghost predicate Skipped(order: seq<Wallet>, eligible: set<Wallet>, start: nat, offset: nat)
    requires start < |order| && offset <= |order|
  {
    forall i | 0 <= i < |order| ::
      start <= i < start + offset || i + |order| < start + offset ==> order[i] !in eligible
  }

  /** The scan stops at the eligible wallet whose rank follows the start. */
  lemma {:induction false} ScanRank(order: seq<Wallet>, eligible: set<Wallet>, start: nat, offset: nat)
    requires start < |order| && offset <= |order|
    requires Skipped(order, eligible, start, offset)
    ensures var i := Scan(order, eligible, start, offset);
            var m := |Line(order, eligible)|;
            && Rank(order, eligible, start) <= m
            && (i.None? ==> m == 0)
            && (i.Some? ==> m > 0 && Rank(order, eligible, i.value) == Wrap(Rank(order, eligible, start), m))
    decreases |order| - offset
  {
    var n := |order|;
    TotalRank(order, eligible, start);
    if offset == n {
      RankFlat(order, eligible, 0, n);
    } else {
      var i := Wrap(start + offset, n);
      if order[i] in eligible {
        LineAtRank(order, eligible, i);
        if start <= i {
          RankFlat(order, eligible, start, i);
        } else {
          RankFlat(order, eligible, start, n);
          RankFlat(order, eligible, 0, i);
        }
      } else {
        ScanRank(order, eligible, start, offset + 1);
      }
    }
  }

  lemma {:induction false} RankMonotone(order: seq<Wallet>, eligible: set<Wallet>, a: nat, b: nat)
    requires a <= b <= |order|
    ensures Rank(order, eligible, a) <= Rank(order, eligible, b)
  {
    if a < b {
      RankMonotone(order, eligible, a, b - 1);
    }
  }

  lemma TotalRank(order: seq<Wallet>, eligible: set<Wallet>, k: nat)
    requires k <= |order|
    ensures Rank(order, eligible, k) <= Rank(order, eligible, |order|) == |Line(order, eligible)|
  {
    RankIsLineLength(order, eligible, |order|);
    assert order[..|order|] == order;
    RankMonotone(order, eligible, k, |order|);
  }

  lemma {:induction false} IndexOfDistinct(order: seq<Wallet>, k: nat)
    requires k < |order| && forall i, j | 0 <= i < j < |order| :: order[i] != order[j]
    ensures IndexOf(order, order[k]) == Some(k)
  {
    if k > 0 {
      assert order[0] != order[k];
      IndexOfDistinct(order[1..], k - 1);
    }
  }

  /** After the wallet at place `r` of the line comes the one at place `r + 1`, cyclically. */
  lemma NextInLine(order: seq<Wallet>, eligible: set<Wallet>, k: nat) returns (k': nat)
    requires forall i, j | 0 <= i < j < |order| :: order[i] != order[j]
    requires k < |order| && order[k] in eligible
    ensures Rank(order, eligible, k) < |Line(order, eligible)|
    ensures k' < |order| && order[k'] in eligible
    ensures NextAfter(order, eligible, Some(order[k])) == Some(order[k'])
    ensures Rank(order, eligible, k') == Wrap(Rank(order, eligible, k) + 1, |Line(order, eligible)|)
  {
    IndexOfDistinct(order, k);
    LineAtRank(order, eligible, k);
    TotalRank(order, eligible, k);
    var start := Wrap(k + 1, |order|);
    ScanRank(order, eligible, start, 0);
    k' := Scan(order, eligible, start, 0).value;
  }

  lemma {:induction false} PicksFollowLine(order: seq<Wallet>, eligible: set<Wallet>, k: nat, n: nat)
    requires forall i, j | 0 <= i < j < |order| :: order[i] != order[j]
    requires k < |order| && order[k] in eligible && n < |Line(order, eligible)|
    ensures var line, r := Line(order, eligible), Rank(order, eligible, k);
            var picks := Picks(order, eligible, Some(order[k]), n);
            && r < |line| && |picks| == n
            && forall i | 0 <= i < n :: picks[i] == line[Wrap(r + 1 + i, |line|)]
    decreases n
  {
    hide Line, Rank, NextAfter;
    var k' := NextInLine(order, eligible, k);
    if n > 0 {
      LineAtRank(order, eligible, k');
      PicksFollowLine(order, eligible, k', n - 1);
    }
  }

  lemma RotationIsPermutation(line: seq<Wallet>, s: nat, window: seq<Wallet>)
    requires s < |line| == |window|
    requires forall i | 0 <= i < |line| :: window[i] == line[Wrap(s + i, |line|)]
    ensures multiset(window) == multiset(line)
  {
    assert window == line[s..] + line[..s];
    assert line == line[..s] + line[s..];
  }

  lemma {:induction false} LineIsEligible(order: seq<Wallet>, eligible: set<Wallet>)
    requires forall i, j | 0 <= i < j < |order| :: order[i] != order[j]
    ensures forall w :: w in Line(order, eligible) <==> w in order && w in eligible
    ensures forall w :: multiset(Line(order, eligible))[w] == if w in order && w in eligible then 1 else 0
  {
    if order != [] {
      LineIsEligible(order[1..], eligible);
      assert order == [order[0]] + order[1..];
    }
  }

  /** Dropping the first `a` picks leaves the picks that follow a later `last`. */
  lemma {:induction false} PicksSplit(order: seq<Wallet>, eligible: set<Wallet>, last: Option<Wallet>, a: nat, n: nat)
    returns (from: Option<Wallet>)
    requires |Picks(order, eligible, last, a + n)| == a + n
    ensures Picks(order, eligible, last, a + n)[a..] == Picks(order, eligible, from, n)
    decreases a
  {
    if a == 0 {
      from := last;
    } else {
      from := PicksSplit(order, eligible, NextAfter(order, eligible, last), a - 1, n);
    }
  }

  lemma {:induction false} PicksNeverDry(order: seq<Wallet>, eligible: set<Wallet>, last: Option<Wallet>, n: nat)
    requires exists w :: w in order && w in eligible
    ensures |Picks(order, eligible, last, n)| == n
    decreases n
  {
    if n > 0 {
      var start := StartIndex(order, last);
      ScanRank(order, eligible, start, 0);
      LineOfSome(order, eligible);
      PicksNeverDry(order, eligible, NextAfter(order, eligible, last), n - 1);
    }
  }

  lemma LineOfSome(order: seq<Wallet>, eligible: set<Wallet>)
    requires exists w :: w in order && w in eligible
    ensures Line(order, eligible) != []
  {
    var w :| w in order && w in eligible;
    var k :| 0 <= k < |order| && order[k] == w;
    LineAtRank(order, eligible, k);
  }

  lemma OneLapIsFair(order: seq<Wallet>, eligible: set<Wallet>, last: Option<Wallet>)
    requires forall i, j | 0 <= i < j < |order| :: order[i] != order[j]
    requires exists w :: w in order && w in eligible
    ensures multiset(Picks(order, eligible, last, |Line(order, eligible)|)) == multiset(Line(order, eligible))
  {
    hide Line, Rank, Scan;
    var line := Line(order, eligible);
    LineOfSome(order, eligible);
    var start := StartIndex(order, last);
    ScanRank(order, eligible, start, 0);
    var k := Scan(order, eligible, start, 0).value;
    LineAtRank(order, eligible, k);
    PicksFollowLine(order, eligible, k, |line| - 1);
    RotationIsPermutation(line, Rank(order, eligible, k), Picks(order, eligible, last, |line|));
  }

  lemma WindowIsOneLap(order: seq<Wallet>, eligible: set<Wallet>, last: Option<Wallet>, a: nat)
    requires forall i, j | 0 <= i < j < |order| :: order[i] != order[j]
    requires exists w :: w in order && w in eligible
    ensures var m := |Line(order, eligible)|;
            && |Picks(order, eligible, last, a + m)| == a + m
            && multiset(Picks(order, eligible, last, a + m)[a..]) == multiset(Line(order, eligible))
  {
    hide Line, Picks;
    var m := |Line(order, eligible)|;
    PicksNeverDry(order, eligible, last, a + m);
    var from := PicksSplit(order, eligible, last, a, m);
    OneLapIsFair(order, eligible, from);
  }

  /** Fairness: with registrations and bans fixed, any window of as many consecutive picks as there are
      eligible wallets serves each of them exactly once, wherever the round-robin currently stands. */
  lemma RoundRobinIsFair(order: seq<Wallet>, eligible: set<Wallet>, last: Option<Wallet>, a: nat, w: Wallet)
    requires forall i, j | 0 <= i < j < |order| :: order[i] != order[j]
    requires exists v :: v in order && v in eligible
    ensures var m := |Line(order, eligible)|;
            var picks := Picks(order, eligible, last, a + m);
            && |picks| == a + m && m > 0
            && multiset(picks[a..])[w] == if w in order && w in eligible then 1 else 0
  {
    LineOfSome(order, eligible);
    LineIsEligible(order, eligible);
    WindowIsOneLap(order, eligible, last, a);
  }

  // ---- Expert hosts ------------------------------------------------------------------------------------

  /** More memory first, then the smaller address. */
  predicate Ahead(vram: map<Wallet, nat>, a: Wallet, b: Wallet)
    requires a in vram && b in vram
  {
    vram[a] > vram[b] || (vram[a] == vram[b] && Less(a, b))
  }

  lemma AheadTransitive(vram: map<Wallet, nat>, a: Wallet, b: Wallet, c: Wallet)
    requires a in vram && b in vram && c in vram && Ahead(vram, a, b) && Ahead(vram, b, c)
    ensures Ahead(vram, a, c)
  {
    if vram[a] == vram[b] == vram[c] { LessTransitive(a, b, c); }
  }

  /** `hosts` ranks exactly the wallets of `pool`. */
  ghost predicate Ranking(vram: map<Wallet, nat>, pool: set<Wallet>, hosts: seq<Wallet>) {
    && pool <= vram.Keys
    && (forall w :: w in hosts <==> w in pool)
    && (forall i, j | 0 <= i < j < |hosts| :: hosts[i] in vram && hosts[j] in vram && Ahead(vram, hosts[i], hosts[j]))
  }

  /** The `n` best wallets of `pool`, best first. */
  ghost predicate TopN(vram: map<Wallet, nat>, pool: set<Wallet>, n: nat, hosts: seq<Wallet>) {
    exists ranking :: Ranking(vram, pool, ranking) && hosts == if n < |ranking| then ranking[..n] else ranking
  }

  lemma SomeMember(hosts: seq<Wallet>)
    ensures hosts == [] || exists w :: w in hosts
  {
    if hosts != [] { assert hosts[0] in hosts; }
  }

  lemma {:induction false} RankingUnique(vram: map<Wallet, nat>, pool: set<Wallet>, a: seq<Wallet>, b: seq<Wallet>)
    requires Ranking(vram, pool, a) && Ranking(vram, pool, b)
    ensures a == b
    decreases |a|
  {
    SomeMember(a);
    SomeMember(b);
    if a != [] && b != [] {
      assert a[0] in pool;
      var k :| 0 <= k < |b| && b[k] == a[0];
      assert b[0] in pool;
      var j :| 0 <= j < |a| && a[j] == b[0];
      LessIrreflexive(a[0]);
      if k > 0 && j > 0 {
        AheadTransitive(vram, a[0], b[0], a[0]);
      }
      assert a[0] == b[0];
      RestRanking(vram, pool, a);
      RestRanking(vram, pool, b);
      RankingUnique(vram, pool - {a[0]}, a[1..], b[1..]);
    }
  }

  lemma RestRanking(vram: map<Wallet, nat>, pool: set<Wallet>, a: seq<Wallet>)
    requires Ranking(vram, pool, a) && a != []
    ensures Ranking(vram, pool - {a[0]}, a[1..])
  {
    LessIrreflexive(a[0]);
    forall w ensures w in a[1..] <==> w in pool - {a[0]} {
      assert a == [a[0]] + a[1..];
      if w in a[1..] {
        var i :| 0 <= i < |a[1..]| && a[1..][i] == w;
        assert Ahead(vram, a[0], a[i + 1]);
      }
    }
  }

  // ---- The single best host ------------------------------------------------------------------------------

  ghost predicate IsBest(vram: map<Wallet, nat>, pool: set<Wallet>, w: Wallet)
    requires pool <= vram.Keys
  {
    w in pool && forall v | v in pool && v != w :: Ahead(vram, w, v)
  }

  lemma {:induction false} BestExists(vram: map<Wallet, nat>, pool: set<Wallet>)
    requires pool <= vram.Keys && pool != {}
    ensures exists w :: IsBest(vram, pool, w)
    decreases |pool|
  {
    hide Ahead;
    var u :| u in pool;
    if pool == {u} {
      assert IsBest(vram, pool, u);
    } else {
      BestExists(vram, pool - {u});
      var w :| IsBest(vram, pool - {u}, w);
      AheadTotal(vram, u, w);
      if Ahead(vram, u, w) {
        forall v | v in pool && v != u ensures Ahead(vram, u, v) {
          if v != w { AheadTransitive(vram, u, w, v); }
        }
        assert IsBest(vram, pool, u);
      } else {
        assert IsBest(vram, pool, w);
      }
    }
  }

  lemma AheadTotal(vram: map<Wallet, nat>, a: Wallet, b: Wallet)
    requires a in vram && b in vram && a != b
    ensures Ahead(vram, a, b) || Ahead(vram, b, a)
  {
    LessTotal(a, b);
  }

  lemma BestUnique(vram: map<Wallet, nat>, pool: set<Wallet>, a: Wallet, b: Wallet)
    requires pool <= vram.Keys && IsBest(vram, pool, a) && IsBest(vram, pool, b)
    ensures a == b
  {
    if a != b {
      AheadTransitive(vram, a, b, a);
      LessIrreflexive(a);
    }
  }

  /** The eligible wallet with the most memory, the smallest address among equals; none if no wallet is eligible. */
  ghost function BestHost(r: Roster, minVram: nat, exclude: set<Wallet>): (host: Option<Wallet>)
    ensures var pool := r.ExpertHosts(minVram, exclude);
            && (host.None? <==> pool == {})
            && (host.Some? ==> IsBest(r.expertVram, pool, host.value))
  {
    var pool := r.ExpertHosts(minVram, exclude);
    if pool == {} then None
    else
      BestExists(r.expertVram, pool);
      var w :| IsBest(r.expertVram, pool, w);
      Some(w)
  }
}
