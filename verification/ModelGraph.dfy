/** Splitting a model execution graph into the dense shards, in order, and the experts of each layer range. */
module ModelGraphs {
  import opened Common
  import S = ShardSession

  datatype Kind = Dense | Expert | Other

  datatype Node = Node(kind: Kind, index: u32, layerStart: Option<nat>, layerEnd: Option<nat>, expertId: Option<nat>)

  function OrZero(n: Option<nat>): nat {
    if n.Some? then n.value else 0
  }

  function ShardOf(n: Node): S.Shard {
    S.Shard(n.index, OrZero(n.layerStart), OrZero(n.layerEnd))
  }

  function RangeOf(n: Node): (nat, nat) {
    (OrZero(n.layerStart), OrZero(n.layerEnd))
  }

  /** The dense nodes in the order of the graph. */
  function DenseOf(nodes: seq<Node>): seq<S.Shard> {
    if nodes == [] then []
    else
      var last := nodes[|nodes| - 1];
      DenseOf(nodes[..|nodes| - 1]) + if last.kind.Dense? then [ShardOf(last)] else []
  }

  /** The expert ids of one layer range in the order of the graph. */
  function ExpertsOf(nodes: seq<Node>, range: (nat, nat)): seq<nat> {
    if nodes == [] then []
    else
      var last := nodes[|nodes| - 1];
      ExpertsOf(nodes[..|nodes| - 1], range) + if last.kind.Expert? && RangeOf(last) == range
        then [OrZero(last.expertId)] else []
  }

  ghost predicate Sorted(shards: seq<S.Shard>) {
    forall i, j | 0 <= i < j < |shards| :: shards[i].index <= shards[j].index
  }

  /** The shards that carry one index, in order; a stable sort keeps them as they were. */
  function WithIndex(shards: seq<S.Shard>, index: u32): seq<S.Shard> {
    if shards == [] then []
    else WithIndex(shards[..|shards| - 1], index) + if shards[|shards| - 1].index == index then [shards[|shards| - 1]]
    else []
  }

  /** Inserts behind every shard whose index is not greater. */
  function Insert(shards: seq<S.Shard>, x: S.Shard): seq<S.Shard> {
    if shards == [] || shards[|shards| - 1].index <= x.index then shards + [x]
    else Insert(shards[..|shards| - 1], x) + [shards[|shards| - 1]]
  }

  lemma {:induction false} InsertAdds(shards: seq<S.Shard>, x: S.Shard)
    ensures multiset(Insert(shards, x)) == multiset(shards) + multiset{x}
  {
    if shards != [] && shards[|shards| - 1].index > x.index {
      InsertAdds(shards[..|shards| - 1], x);
      assert shards == shards[..|shards| - 1] + [shards[|shards| - 1]];
    }
  }

  lemma {:induction false} InsertSorts(shards: seq<S.Shard>, x: S.Shard)
    requires Sorted(shards)
    ensures Sorted(Insert(shards, x))
  {
    if shards != [] && shards[|shards| - 1].index > x.index {
      var init, last := shards[..|shards| - 1], shards[|shards| - 1];
      InsertSorts(init, x);
      forall i | 0 <= i < |Insert(init, x)| ensures Insert(init, x)[i].index <= last.index {
        InsertAdds(init, x);
        assert Insert(init, x)[i] in multiset(init) + multiset{x};
      }
    }
  }

  lemma WithIndexSnoc(shards: seq<S.Shard>, x: S.Shard, index: u32)
    ensures WithIndex(shards + [x], index) == WithIndex(shards, index) + if x.index == index then [x] else []
  {
    assert (shards + [x])[..|shards|] == shards;
  }

  lemma {:induction false} InsertIsStable(shards: seq<S.Shard>, x: S.Shard, index: u32)
    requires Sorted(shards)
    ensures WithIndex(Insert(shards, x), index) == WithIndex(shards + [x], index)
  {
    hide WithIndex;
    WithIndexSnoc(shards, x, index);
    if shards != [] && shards[|shards| - 1].index > x.index {
      var init, last := shards[..|shards| - 1], shards[|shards| - 1];
      InsertIsStable(init, x, index);
      WithIndexSnoc(init, x, index);
      WithIndexSnoc(init, last, index);
      WithIndexSnoc(Insert(init, x), last, index);
      assert shards == init + [last];
    }
  }

  /** The shards by index, equal indices in the order they had. */
  function ByIndex(shards: seq<S.Shard>): seq<S.Shard> {
    if shards == [] then [] else Insert(ByIndex(shards[..|shards| - 1]), shards[|shards| - 1])
  }

  lemma {:induction false} ByIndexSorts(shards: seq<S.Shard>)
    ensures Sorted(ByIndex(shards)) && multiset(ByIndex(shards)) == multiset(shards)
    ensures forall index :: WithIndex(ByIndex(shards), index) == WithIndex(shards, index)
  {
    hide Sorted, Insert, WithIndex;
    if shards == [] {
      NothingToSort();
    } else {
      var init, x := shards[..|shards| - 1], shards[|shards| - 1];
      ByIndexSorts(init);
      InsertSorts(ByIndex(init), x);
      InsertAdds(ByIndex(init), x);
      assert shards == init + [x];
      forall index ensures WithIndex(ByIndex(shards), index) == WithIndex(shards, index) {
        InsertIsStable(ByIndex(init), x, index);
        WithIndexSnoc(ByIndex(init), x, index);
        WithIndexSnoc(init, x, index);
      }
    }
  }

  lemma NothingToSort()
    ensures Sorted([])
  {
  }

  /** Inserts the shards one by one at their place. */
  method SortByIndex(shards: seq<S.Shard>) returns (sorted: seq<S.Shard>)
    ensures sorted == ByIndex(shards)
  {
    sorted := [];
    for i := 0 to |shards|
      invariant sorted == ByIndex(shards[..i])
    {
      assert shards[..i + 1][..i] == shards[..i];
      sorted := Insert(sorted, shards[i]);
    }
    assert shards[..|shards|] == shards;
  }

  method FilterDense(nodes: seq<Node>) returns (dense: seq<S.Shard>)
    ensures dense == DenseOf(nodes)
  {
    dense := [];
    for i := 0 to |nodes|
      invariant dense == DenseOf(nodes[..i])
    {
      assert nodes[..i + 1][..i] == nodes[..i];
      if nodes[i].kind.Dense? {
        dense := dense + [ShardOf(nodes[i])];
      }
    }
    assert nodes[..|nodes|] == nodes;
  }

  lemma ExpertsSnoc(nodes: seq<Node>, n: Node, range: (nat, nat))
    ensures ExpertsOf(nodes + [n], range)
         == ExpertsOf(nodes, range) + if n.kind.Expert? && RangeOf(n) == range then [OrZero(n.expertId)] else []
  {
    assert (nodes + [n])[..|nodes|] == nodes;
  }

  lemma NoExperts(nodes: seq<Node>)
    requires nodes == []
    ensures forall range :: ExpertsOf(nodes, range) == []
  {
  }

  method GroupExperts(nodes: seq<Node>) returns (groups: map<(nat, nat), seq<nat>>)
    ensures forall range :: ExpertsOf(nodes, range) == if range in groups then groups[range] else []
    ensures forall range | range in groups :: groups[range] != []
  {
    groups := map[];
    NoExperts(nodes[..0]);
    hide ExpertsOf;
    for i := 0 to |nodes|
      invariant forall range :: ExpertsOf(nodes[..i], range) == if range in groups then groups[range] else []
      invariant forall range | range in groups :: groups[range] != []
    {
      assert nodes[..i + 1] == nodes[..i] + [nodes[i]];
      forall range { ExpertsSnoc(nodes[..i], nodes[i], range); }
      if nodes[i].kind.Expert? {
        var key := RangeOf(nodes[i]);
        groups := groups[key := (if key in groups then groups[key] else []) + [OrZero(nodes[i].expertId)]];
      }
    }
    assert nodes[..|nodes|] == nodes;
  }

  /** The dense shards by index, equal indices in graph order, and every range's experts in graph order. */
  method SplitModelExecutionGraph(nodes: seq<Node>) returns (dense: seq<S.Shard>, groups: map<(nat, nat), seq<nat>>)
    ensures Sorted(dense) && multiset(dense) == multiset(DenseOf(nodes))
    ensures forall index :: WithIndex(dense, index) == WithIndex(DenseOf(nodes), index)
    ensures forall range :: ExpertsOf(nodes, range) == if range in groups then groups[range] else []
    ensures forall range | range in groups :: groups[range] != []
  {
    dense := FilterDense(nodes);
    ByIndexSorts(dense);
    dense := SortByIndex(dense);
    groups := GroupExperts(nodes);
  }
}
