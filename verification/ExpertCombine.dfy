/** The combine step of a fan-out: the router-weighted sum of the experts' outputs, element by element, over reals. */
module ExpertCombine {
  import opened Common

  /** `values` is absent when the text an expert sent does not decode to floats. */
  datatype ExpertOutput = ExpertOutput(shape: seq<nat>, values: Option<seq<real>>)

  datatype Term = Term(weight: real, output: ExpertOutput)

  datatype CombineError = NoOutputs | ShapeMismatch | BadData | LengthMismatch

  datatype Combined = Combined(shape: seq<nat>, values: seq<real>)

  function Length(shape: seq<nat>): nat {
    if shape == [] then 1 else Length(shape[..|shape| - 1]) * shape[|shape| - 1]
  }

  /** A term that can be added to a sum of the given shape. */
  ghost predicate Fits(shape: seq<nat>, t: Term) {
    t.output.shape == shape && t.output.values.Some? && |t.output.values.value| == Length(shape)
  }

  ghost predicate Reaches(terms: seq<Term>, j: nat) {
    forall t | t in terms :: t.output.values.Some? && j < |t.output.values.value|
  }

  function Share(t: Term, j: nat): real
    requires t.output.values.Some? && j < |t.output.values.value|
  {
    t.weight * t.output.values.value[j]
  }

  /** Element `j` of the weighted sum. */
  ghost function At(terms: seq<Term>, j: nat): real
    requires Reaches(terms, j)
  {
    if terms == [] then 0.0 else At(terms[..|terms| - 1], j) + Share(terms[|terms| - 1], j)
  }

  /** All terms share one shape and carry exactly that many values. */
  ghost predicate Combinable(terms: seq<Term>) {
    terms != [] && forall t | t in terms :: Fits(terms[0].output.shape, t)
  }

  ghost predicate IsSum(terms: seq<Term>, sum: Combined)
    requires Combinable(terms)
  {
    && sum.shape == terms[0].output.shape && |sum.values| == Length(sum.shape)
    && forall j | 0 <= j < |sum.values| :: sum.values[j] == At(terms, j)
  }

  /** Accumulates every output in place; the first one that does not fit aborts the whole combine. */
  method CombineWeighted(terms: seq<Term>) returns (r: Result<Combined, CombineError>)
    ensures r.Ok? <==> Combinable(terms)
    ensures r.Ok? ==> IsSum(terms, r.value)
    ensures r == Err(NoOutputs) <==> terms == []
  {
    if terms == [] { return Err(NoOutputs); }
    var shape := terms[0].output.shape;
    var expected := 1;
    for i := 0 to |shape|
      invariant expected == Length(shape[..i])
    {
      assert shape[..i + 1][..i] == shape[..i];
      expected := expected * shape[i];
    }
    assert shape[..|shape|] == shape;
    var acc := new real[expected](_ => 0.0);
    for i := 0 to |terms|
      invariant forall t | t in terms[..i] :: Fits(shape, t)
      invariant forall j | 0 <= j < expected :: acc[j] == At(terms[..i], j)
    {
      var output := terms[i].output;
      assert terms[i] in terms;
      if output.shape != shape { return Err(ShapeMismatch); }
      if output.values.None? { return Err(BadData); }
      if |output.values.value| != expected { return Err(LengthMismatch); }
      assert terms[..i + 1] == terms[..i] + [terms[i]];
      AddTerm(acc, terms[..i], terms[i]);
    }
    assert terms[..|terms|] == terms;
    r := Ok(Combined(shape, acc[..]));
  }

  method AddTerm(acc: array<real>, before: seq<Term>, t: Term)
    requires t.output.values.Some? && |t.output.values.value| == acc.Length
    requires forall u | u in before :: u.output.values.Some? && |u.output.values.value| == acc.Length
    requires forall j | 0 <= j < acc.Length :: acc[j] == At(before, j)
    modifies acc
    ensures forall j | 0 <= j < acc.Length :: acc[j] == At(before + [t], j)
  {
    assert (before + [t])[..|before|] == before;
    for k := 0 to acc.Length
      invariant forall j | 0 <= j < k :: acc[j] == At(before + [t], j)
      invariant forall j | k <= j < acc.Length :: acc[j] == At(before, j)
    {
      acc[k] := acc[k] + t.weight * t.output.values.value[k];
    }
  }

  // ---- Order does not matter ------------------------------------------------------------------------------

  lemma {:induction false} TakeOut(terms: seq<Term>, i: nat, j: nat)
    requires i < |terms| && Reaches(terms, j)
    ensures At(terms, j) == At(terms[..i] + terms[i + 1..], j) + Share(terms[i], j)
    decreases |terms|
  {
    var n := |terms| - 1;
    if i == n {
      assert terms[..i] + terms[i + 1..] == terms[..n];
    } else {
      var rest := terms[..i] + terms[i + 1..];
      assert rest[..|rest| - 1] == terms[..n][..i] + terms[..n][i + 1..];
      assert rest[|rest| - 1] == terms[n];
      TakeOut(terms[..n], i, j);
    }
  }

  lemma {:induction false} SumIgnoresOrder(a: seq<Term>, b: seq<Term>, j: nat)
    requires multiset(a) == multiset(b)
    requires Reaches(a, j) && Reaches(b, j)
    ensures At(a, j) == At(b, j)
    decreases |a|
  {
    hide Share;
    if a == [] {
      assert |multiset(b)| == 0;
    } else {
      var n := |a| - 1;
      assert a == a[..n] + [a[n]];
      assert a[n] in multiset(b);
      var i :| 0 <= i < |b| && b[i] == a[n];
      var rest := b[..i] + b[i + 1..];
      Without(b, i);
      Without(a, n);
      assert a[..n] + a[n + 1..] == a[..n];
      SumIgnoresOrder(a[..n], rest, j);
      TakeOut(b, i, j);
    }
  }

  lemma Without(b: seq<Term>, i: nat)
    requires i < |b|
    ensures multiset(b[..i] + b[i + 1..]) == multiset(b) - multiset{b[i]}
    ensures forall t | t in b[..i] + b[i + 1..] :: t in b
  {
    assert b == b[..i] + [b[i]] + b[i + 1..];
  }

  /** Permuting the experts changes neither whether they combine nor the result. */
  lemma CombineIgnoresOrder(a: seq<Term>, b: seq<Term>, sum: Combined)
    requires multiset(a) == multiset(b)
    ensures Combinable(a) <==> Combinable(b)
    ensures Combinable(a) ==> (IsSum(a, sum) <==> IsSum(b, sum))
  {
    assert forall t :: t in a <==> t in multiset(a);
    assert forall t :: t in b <==> t in multiset(b);
    assert a == [] <==> b == [] by {
      assert |multiset(a)| == |a| && |multiset(b)| == |b|;
    }
    if a != [] && b != [] {
      assert a[0] in b && b[0] in a;
      if Combinable(a) {
        forall j | 0 <= j < Length(a[0].output.shape) ensures At(a, j) == At(b, j) {
          SumIgnoresOrder(a, b, j);
        }
      }
    }
  }
}
