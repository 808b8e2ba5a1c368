/** Wallet ordering and the payout-attribution rule shared by both pipelines. */
module Attribution {
  import opened Common

  /** Lexicographic order on addresses. */
  predicate Less(a: Wallet, b: Wallet) {
    if b == [] then false
    else if a == [] then true
    else a[0] < b[0] || (a[0] == b[0] && Less(a[1..], b[1..]))
  }

  lemma {:induction false} LessIrreflexive(a: Wallet)
    ensures !Less(a, a)
  {
    if a != [] { LessIrreflexive(a[1..]); }
  }

  lemma {:induction false} LessTransitive(a: Wallet, b: Wallet, c: Wallet)
    requires Less(a, b) && Less(b, c)
    ensures Less(a, c)
  {
    if a != [] && a[0] == b[0] && b[0] == c[0] {
      LessTransitive(a[1..], b[1..], c[1..]);
    }
  }

  lemma {:induction false} LessTotal(a: Wallet, b: Wallet)
    ensures a == b || Less(a, b) || Less(b, a)
  {
    if a != [] && b != [] && a[0] == b[0] {
      LessTotal(a[1..], b[1..]);
      assert a == [a[0]] + a[1..] && b == [b[0]] + b[1..];
    }
  }

  /** `w` delivered the most steps; among equals it has the greatest address. */
  ghost predicate IsWinner(steps: map<Wallet, nat>, w: Wallet) {
    && w in steps
    && forall v | v in steps && v != w :: steps[v] < steps[w] || (steps[v] == steps[w] && Less(v, w))
  }

  lemma WinnerUnique(steps: map<Wallet, nat>, v: Wallet, w: Wallet)
    requires IsWinner(steps, v) && IsWinner(steps, w)
    ensures v == w
  {
    if v != w {
      LessTransitive(v, w, v);
      LessIrreflexive(v);
    }
  }

  ghost predicate IsLeast(ws: set<Wallet>, w: Wallet) {
    w in ws && forall v | v in ws && v != w :: Less(w, v)
  }

  lemma {:induction false} LeastExists(ws: set<Wallet>)
    requires ws != {}
    ensures exists w :: IsLeast(ws, w)
    decreases |ws|
  {
    var u :| u in ws;
    if ws == {u} {
      assert IsLeast(ws, u);
    } else {
      LeastExists(ws - {u});
      var w :| IsLeast(ws - {u}, w);
      LessTotal(u, w);
      if Less(u, w) {
        forall v | v in ws && v != u ensures Less(u, v) {
          if v != w { LessTransitive(u, w, v); }
        }
        assert IsLeast(ws, u);
      } else {
        assert IsLeast(ws, w);
      }
    }
  }

  /** Walks the contributions in ascending address order and keeps the last maximum. */
  method SelectWinningWallet(steps: map<Wallet, nat>) returns (winner: Option<Wallet>)
    ensures winner.None? <==> steps == map[]
    ensures winner.Some? ==> IsWinner(steps, winner.value)
    ensures winner == Winner(steps)
  {
    winner := None;
    var rest := steps.Keys;
    while rest != {}
      invariant rest <= steps.Keys
      invariant winner.None? <==> rest == steps.Keys
      invariant winner.Some? ==> winner.value in steps.Keys - rest
      invariant winner.Some? ==>
        forall v | v in steps.Keys - rest && v != winner.value ::
          steps[v] < steps[winner.value] || (steps[v] == steps[winner.value] && Less(v, winner.value))
      invariant forall u, v | u in steps.Keys - rest && v in rest :: Less(u, v)
      decreases |rest|
    {
      LeastExists(rest);
      ghost var least :| IsLeast(rest, least);
      var w :| w in rest && forall v | v in rest && v != w :: Less(w, v);
      if winner.None? || steps[w] >= steps[winner.value] {
        winner := Some(w);
      }
      rest := rest - {w};
    }
    if winner.Some? {
      WinnerUnique(steps, winner.value, Winner(steps).value);
    } else {
      assert steps.Keys == {};
    }
  }

  lemma {:induction false} WinnerExists(steps: map<Wallet, nat>)
    requires steps != map[]
    ensures exists w :: IsWinner(steps, w)
    decreases |steps|
  {
    var u :| u in steps.Keys;
    var others := steps - {u};
    if others == map[] {
      assert forall v | v in steps :: v !in others ==> v == u;
      assert IsWinner(steps, u);
    } else {
      assert others.Keys < steps.Keys;
      WinnerExists(others);
      var w :| IsWinner(others, w);
      LessTotal(u, w);
      if steps[u] < steps[w] || (steps[u] == steps[w] && Less(u, w)) {
        assert forall v | v in steps :: v == u || v in others;
        assert IsWinner(steps, w);
      } else {
        forall v | v in steps && v != u
          ensures steps[v] < steps[u] || (steps[v] == steps[u] && Less(v, u))
        {
          assert v in others;
          if v != w && steps[v] == steps[u] { LessTransitive(v, w, u); }
        }
        assert IsWinner(steps, u);
      }
    }
  }

  ghost function Winner(steps: map<Wallet, nat>): (w: Option<Wallet>)
    ensures w.None? <==> steps == map[]
    ensures w.Some? ==> IsWinner(steps, w.value)
  {
    if steps == map[] then None else
      WinnerExists(steps);
      var w :| IsWinner(steps, w);
      Some(w)
  }
}
