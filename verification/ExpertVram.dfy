/** How much memory one expert of a layer needs, computed from the tensor table of a GGUF header. */
module ExpertVram {
  import opened Common
  import opened Bytes
  import Gguf
  import GgufReader

  const PREFIX_CAP: nat := 16 * 1024 * 1024
  const MIB: nat := 1024 * 1024
  const SUFFIXES: seq<string> := ["ffn_gate_exps", "ffn_up_exps", "ffn_down_exps"]

  /** Elements per block and bytes per block of every supported element type. */
  function BlockAndTypeSize(kind: u32): (r: Option<(nat, nat)>)
    ensures r.Some? ==> r.value.0 > 0 && r.value.1 > 0
  {
    if kind == 0 then Some((1, 4))
    else if kind == 1 || kind == 30 then Some((1, 2))
    else if kind == 2 then Some((32, 18))
    else if kind == 3 then Some((32, 20))
    else if kind == 6 then Some((32, 22))
    else if kind == 7 then Some((32, 24))
    else if kind == 8 then Some((32, 34))
    else if kind == 9 then Some((32, 36))
    else if kind == 10 then Some((256, 84))
    else if kind == 11 then Some((256, 110))
    else if kind == 12 then Some((256, 144))
    else if kind == 13 then Some((256, 176))
    else if kind == 14 then Some((256, 210))
    else if kind == 15 then Some((256, 292))
    else None
  }

  // ---- Tensor names ----------------------------------------------------------------------------------

  function Decimal(n: nat): (s: string)
    ensures s != []
  {
    if n < 10 then [DIGITS[n]] else Decimal(n / 10) + [DIGITS[n % 10]]
  }

  function TensorName(layer: nat, suffix: string): string {
    "blk." + Decimal(layer) + "." + suffix + ".weight"
  }

  lemma DigitsDiffer(a: nat, b: nat)
    requires a < 16 && b < 16 && DIGITS[a] == DIGITS[b]
    ensures a == b
  {
    DigitValue(a);
    DigitValue(b);
  }

  lemma {:induction false} DecimalInjective(a: nat, b: nat)
    requires Decimal(a) == Decimal(b)
    ensures a == b
  {
    var s, t := Decimal(a), Decimal(b);
    assert s[|s| - 1] == DIGITS[a % 10] && t[|t| - 1] == DIGITS[b % 10];
    DigitsDiffer(a % 10, b % 10);
    if a >= 10 && b >= 10 {
      assert Decimal(a / 10) == s[..|s| - 1] && Decimal(b / 10) == t[..|t| - 1];
      DecimalInjective(a / 10, b / 10);
    }
  }

  lemma NamesTellLayersApart(a: nat, b: nat, suffix: string)
    requires TensorName(a, suffix) == TensorName(b, suffix)
    ensures a == b
  {
    var tail := "." + suffix + ".weight";
    var s, t := TensorName(a, suffix), TensorName(b, suffix);
    assert s == "blk." + Decimal(a) + tail && t == "blk." + Decimal(b) + tail;
    assert Decimal(a) == s[4..|s| - |tail|] && Decimal(b) == t[4..|t| - |tail|];
    DecimalInjective(a, b);
  }

  // ---- Sizes -----------------------------------------------------------------------------------------

  /** The number of elements of a shape. */
  function Product(dims: seq<u64>): nat {
    if dims == [] then 1 else Product(dims[..|dims| - 1]) * dims[|dims| - 1]
  }

  /** What 64-bit arithmetic makes of it: each multiplication wraps. */
  function Elements(dims: seq<u64>): u64 {
    if dims == [] then 1 else (Elements(dims[..|dims| - 1]) * dims[|dims| - 1]) % U64_LIMIT
  }

  lemma Expand(m: nat, q: nat, r: nat, b: nat)
    ensures (m * q + r) * b == m * (q * b) + r * b
  {
  }

  lemma Collect(m: nat, x: nat, y: nat, r: nat)
    ensures m * x + (m * y + r) == m * (x + y) + r
  {
  }

  lemma SameRemainder(x: nat, y: nat, m: nat, k: nat)
    requires m > 0 && y == m * k + x
    ensures x % m == y % m
  {
    Collect(m, k, x / m, x % m);
    RemainderUnique(y, m, k + x / m, x % m);
  }

  lemma WrapFactor(a: nat, b: nat, m: nat)
    requires m > 0
    ensures ((a % m) * b) % m == (a * b) % m
  {
    var q, r := a / m, a % m;
    Expand(m, q, r, b);
    SameRemainder(r * b, a * b, m, q * b);
  }

  /** Wrapping only ever loses multiples of 2^64. */
  lemma {:induction false} ElementsWrap(dims: seq<u64>)
    ensures Elements(dims) == Product(dims) % U64_LIMIT
  {
    if dims != [] {
      var init := dims[..|dims| - 1];
      ElementsWrap(init);
      WrapFactor(Product(init), dims[|dims| - 1], U64_LIMIT);
    }
  }

  /** The bytes one of `n` experts takes in one tensor; none if its type is unknown or it does not split
      evenly into whole blocks. */
  function SliceOf(info: Gguf.TensorInfo, n: nat): Option<u64>
    requires n > 0
  {
    var elems, size := Elements(info.dims), BlockAndTypeSize(info.ggmlType);
    if elems % n != 0 || size.None? || (elems / n) % size.value.0 != 0 then None
    else Some(((elems / n / size.value.0) * size.value.1) % U64_LIMIT)
  }

  function SliceBytes(table: Gguf.Table, layer: nat, suffix: string, n: nat): Option<u64>
    requires n > 0
  {
    var name := TensorName(layer, suffix);
    if name !in table then None else SliceOf(table[name], n)
  }

  function SumSlices(table: Gguf.Table, layer: nat, n: nat, k: nat): Option<nat>
    requires n > 0 && k <= |SUFFIXES|
  {
    if k == 0 then Some(0)
    else
      var sum, slice := SumSlices(table, layer, n, k - 1), SliceBytes(table, layer, SUFFIXES[k - 1], n);
      if sum.None? || slice.None? then None else Some((sum.value + slice.value) % U64_LIMIT)
  }

  /** The bytes one of `n` experts takes in a whole layer. */
  function LayerBytes(table: Gguf.Table, layer: nat, n: nat): Option<nat> {
    if n == 0 then None else SumSlices(table, layer, n, |SUFFIXES|)
  }

  method ExpertVramBytesForLayer(table: Gguf.Table, layer: nat, n: nat) returns (r: Option<nat>)
    ensures r == LayerBytes(table, layer, n)
  {
    if n == 0 { return None; }
    var total: nat := 0;
    for k := 0 to |SUFFIXES|
      invariant SumSlices(table, layer, n, k) == Some(total)
      invariant forall j | 0 <= j < k :: SliceBytes(table, layer, SUFFIXES[j], n).Some?
    {
      var name := TensorName(layer, SUFFIXES[k]);
      if name !in table { NoneFrom(table, layer, n, k); return None; }
      var dims := table[name].dims;
      var elems: u64 := 1;
      for i := 0 to |dims|
        invariant elems == Elements(dims[..i])
      {
        assert dims[..i + 1][..i] == dims[..i];
        elems := (elems * dims[i]) % U64_LIMIT;
      }
      assert dims[..|dims|] == dims;
      if elems % n != 0 { NoneFrom(table, layer, n, k); return None; }
      var size := BlockAndTypeSize(table[name].ggmlType);
      if size.None? { NoneFrom(table, layer, n, k); return None; }
      var perExpert := elems / n;
      if perExpert % size.value.0 != 0 { NoneFrom(table, layer, n, k); return None; }
      total := (total + ((perExpert / size.value.0) * size.value.1) % U64_LIMIT) % U64_LIMIT;
    }
    r := Some(total);
  }

  /** One tensor that cannot be sliced makes the whole layer incomputable. */
  lemma NoneFrom(table: Gguf.Table, layer: nat, n: nat, k: nat)
    requires n > 0 && k < |SUFFIXES| && SliceBytes(table, layer, SUFFIXES[k], n).None?
    ensures LayerBytes(table, layer, n).None?
  {
    SomeUpTo(table, layer, n, |SUFFIXES|);
  }

  lemma {:induction false} SomeUpTo(table: Gguf.Table, layer: nat, n: nat, k: nat)
    requires n > 0 && k <= |SUFFIXES|
    ensures SumSlices(table, layer, n, k).Some? <==>
            forall j | 0 <= j < k :: SliceBytes(table, layer, SUFFIXES[j], n).Some?
  {
    if k > 0 { SomeUpTo(table, layer, n, k - 1); }
  }

  // ---- Exactness ---------------------------------------------------------------------------------------

  /** The quantized size of a whole tensor. */
  function TensorBytes(info: Gguf.TensorInfo): nat {
    var size := BlockAndTypeSize(info.ggmlType);
    if size.None? then 0 else (Product(info.dims) / size.value.0) * size.value.1
  }

  function TotalBytes(table: Gguf.Table, layer: nat, k: nat): nat
    requires k <= |SUFFIXES|
  {
    if k == 0 then 0
    else
      var name := TensorName(layer, SUFFIXES[k - 1]);
      TotalBytes(table, layer, k - 1) + if name in table then TensorBytes(table[name]) else 0
  }

  /** No shape and no sum of sizes leaves 64 bits. */
  ghost predicate Fits(table: Gguf.Table, layer: nat) {
    && (forall k | 0 <= k < |SUFFIXES| && TensorName(layer, SUFFIXES[k]) in table ::
          Product(table[TensorName(layer, SUFFIXES[k])].dims) < U64_LIMIT)
    && TotalBytes(table, layer, |SUFFIXES|) < U64_LIMIT
  }

  lemma ExactQuotient(elems: nat, n: nat, block: nat)
    requires n > 0 && block > 0 && elems % n == 0 && (elems / n) % block == 0
    ensures elems / block == n * (elems / n / block)
  {
    var q := elems / n / block;
    assert elems == n * (elems / n) && elems / n == block * q;
    assert elems == block * (n * q) by { assert n * (block * q) == block * (n * q); }
    QuotientUnique(elems, block, n * q);
  }

  lemma QuotientUnique(v: nat, m: nat, q: nat)
    requires m > 0 && v == m * q
    ensures v / m == q
  {
    RemainderUnique(v, m, q, 0);
    MultipleSign(m, v / m - q);
    assert m * (v / m - q) == m * (v / m) - m * q;
  }

  lemma AtLeastOnce(n: nat, x: nat)
    requires n > 0
    ensures x <= n * x
  {
    assert n * x == (n - 1) * x + x;
  }

  lemma SliceArithmetic(elems: nat, n: nat, block: nat, width: nat)
    requires n > 0 && block > 0 && elems % n == 0 && (elems / n) % block == 0
    ensures n * ((elems / n / block) * width) == (elems / block) * width
    ensures (elems / n / block) * width <= (elems / block) * width
  {
    var q := elems / n / block;
    ExactQuotient(elems, n, block);
    assert n * (q * width) == (n * q) * width;
    AtLeastOnce(n, q * width);
  }

  lemma SliceIsExact(info: Gguf.TensorInfo, n: nat)
    requires n > 0 && SliceOf(info, n).Some? && Product(info.dims) < U64_LIMIT && TensorBytes(info) < U64_LIMIT
    ensures n * SliceOf(info, n).value == TensorBytes(info)
  {
    ElementsWrap(info.dims);
    hide BlockAndTypeSize, Elements, Product;
    var size := BlockAndTypeSize(info.ggmlType).value;
    SliceArithmetic(Product(info.dims), n, size.0, size.1);
  }

  lemma {:induction false} SumIsExact(table: Gguf.Table, layer: nat, n: nat, k: nat)
    requires n > 0 && k <= |SUFFIXES| && SumSlices(table, layer, n, k).Some?
    requires forall j | 0 <= j < k ::
               TensorName(layer, SUFFIXES[j]) in table
                 && Product(table[TensorName(layer, SUFFIXES[j])].dims) < U64_LIMIT
    requires TotalBytes(table, layer, k) < U64_LIMIT
    ensures n * SumSlices(table, layer, n, k).value == TotalBytes(table, layer, k)
  {
    hide TensorName, TensorBytes, SliceOf, Product;
    if k > 0 {
      SumIsExact(table, layer, n, k - 1);
      SliceIsExact(table[TensorName(layer, SUFFIXES[k - 1])], n);
      var sum, slice := SumSlices(table, layer, n, k - 1).value, SliceBytes(table, layer, SUFFIXES[k - 1], n).value;
      Collect(n, sum, slice, 0);
      AtLeastOnce(n, sum + slice);
    }
  }

  /** Exactness: as long as nothing overflows, `n` experts take exactly the three tensors' bytes between them. */
  lemma LayerBytesIsExact(table: Gguf.Table, layer: nat, n: nat)
    requires LayerBytes(table, layer, n).Some? && Fits(table, layer)
    ensures n * LayerBytes(table, layer, n).value == TotalBytes(table, layer, |SUFFIXES|)
  {
    SomeUpTo(table, layer, n, |SUFFIXES|);
    SumIsExact(table, layer, n, |SUFFIXES|);
  }

  lemma ZeroFactor(n: nat, x: nat)
    requires n > 0
    ensures n * x == 0 <==> x == 0
  {
    AtLeastOnce(n, x);
  }

  lemma SameShareSameCount(a: nat, b: nat, x: nat)
    requires a * x == b * x && x > 0
    ensures a == b
  {
    assert x * (a - b) == a * x - b * x;
    MultipleSign(x, a - b);
  }

  /** A size remembered for one number of experts is right for another only if the numbers agree, or nothing is
      stored. */
  lemma RememberedSizeFitsIffSameExperts(table: Gguf.Table, layer: nat, a: nat, b: nat)
    requires LayerBytes(table, layer, a).Some? && LayerBytes(table, layer, b).Some? && Fits(table, layer)
    ensures LayerBytes(table, layer, a) == LayerBytes(table, layer, b) <==>
            a == b || TotalBytes(table, layer, |SUFFIXES|) == 0
  {
    LayerBytesIsExact(table, layer, a);
    LayerBytesIsExact(table, layer, b);
    hide SumSlices, TotalBytes;
    var x, y := LayerBytes(table, layer, a).value, LayerBytes(table, layer, b).value;
    ZeroFactor(a, x);
    ZeroFactor(b, y);
    if x == y && x > 0 { SameShareSameCount(a, b, x); }
  }

  // ---- The walk over layers ------------------------------------------------------------------------------

  /** Exactly the layers before `n` are listed, each with its own size, and layer `n` cannot be computed. */
  ghost predicate IsMaximalRun(table: Gguf.Table, experts: nat, layers: map<nat, nat>, n: nat) {
    && (forall l: nat :: l in layers <==> l < n)
    && (forall l: nat | l < n :: LayerBytes(table, l, experts) == Some(layers[l]))
    && LayerBytes(table, n, experts).None?
  }

  lemma MaximalRunUnique(table: Gguf.Table, experts: nat, a: map<nat, nat>, n: nat, b: map<nat, nat>, k: nat)
    requires IsMaximalRun(table, experts, a, n) && IsMaximalRun(table, experts, b, k)
    ensures n == k && a == b
  {
    forall l | l in a ensures a[l] == b[l] { assert LayerBytes(table, l, experts) == Some(a[l]); }
  }

  ghost function GateNames(n: nat): (names: set<string>)
    ensures forall s :: s in names <==> exists l :: 0 <= l < n && s == TensorName(l, SUFFIXES[0])
  {
    set l | 0 <= l < n :: TensorName(l, SUFFIXES[0])
  }

  lemma {:induction false} AsManyNamesAsLayers(n: nat)
    ensures |GateNames(n)| == n
  {
    hide TensorName;
    if n > 0 {
      AsManyNamesAsLayers(n - 1);
      var name := TensorName(n - 1, SUFFIXES[0]);
      forall l | 0 <= l < n - 1 ensures TensorName(l, SUFFIXES[0]) != name {
        if TensorName(l, SUFFIXES[0]) == name { NamesTellLayersApart(l, n - 1, SUFFIXES[0]); }
      }
      forall s ensures s in GateNames(n) <==> s in GateNames(n - 1) + {name} {
        if s in GateNames(n) {
          var l :| 0 <= l < n && s == TensorName(l, SUFFIXES[0]);
          assert l < n - 1 || s == name;
        }
      }
      assert GateNames(n) == GateNames(n - 1) + {name};
    }
  }

  /** Distinct layers have distinct names, so a table can describe only as many layers as it has entries. */
  lemma WalkIsBounded(table: Gguf.Table, experts: nat, n: nat)
    requires forall l: nat | l < n :: LayerBytes(table, l, experts).Some?
    ensures n <= |table|
  {
    AsManyNamesAsLayers(n);
    forall s | s in GateNames(n) ensures s in table.Keys {
      var l :| 0 <= l < n && s == TensorName(l, SUFFIXES[0]);
      assert LayerBytes(table, l, experts).Some?;
      SomeUpTo(table, l, experts, |SUFFIXES|);
      assert SliceBytes(table, l, SUFFIXES[0], experts).Some?;
    }
    SubsetIsSmaller(GateNames(n), table.Keys);
    assert |table.Keys| == |table|;
  }

  lemma {:induction false} SubsetIsSmaller(a: set<string>, b: set<string>)
    requires a <= b
    ensures |a| <= |b|
    decreases a
  {
    if a != {} {
      var x :| x in a;
      SubsetIsSmaller(a - {x}, b - {x});
    }
  }

  /** Walks layers upwards from 0 until one cannot be computed; having none at all is an error. */
  method WalkLayers(table: Gguf.Table, experts: nat) returns (r: Option<map<nat, nat>>)
    ensures r.None? <==> LayerBytes(table, 0, experts).None?
    ensures r.Some? ==> exists n :: n > 0 && IsMaximalRun(table, experts, r.value, n)
  {
    hide LayerBytes;
    var layers: map<nat, nat> := map[];
    var l: nat := 0;
    while true
      invariant forall k: nat :: k in layers <==> k < l
      invariant forall k: nat | k < l :: LayerBytes(table, k, experts) == Some(layers[k])
      invariant l <= |table|
      decreases |table| - l
    {
      var bytes := ExpertVramBytesForLayer(table, l, experts);
      if bytes.None? {
        if l == 0 { return None; }
        assert IsMaximalRun(table, experts, layers, l);
        return Some(layers);
      }
      layers := layers[l := bytes.value];
      l := l + 1;
      WalkIsBounded(table, experts, l);
    }
  }

  // ---- The floor for a range -------------------------------------------------------------------------------

  /** `mb` mebibytes cover every known layer of the range. */
  ghost predicate Covers(layers: map<nat, nat>, from: nat, to: nat, mb: nat) {
    forall l | from <= l < to && l in layers :: layers[l] <= mb * MIB
  }

  /** The least such `mb`, if any layer of the range is known. */
  ghost predicate IsFloor(layers: map<nat, nat>, from: nat, to: nat, floor: Option<nat>) {
    && (floor.None? <==> forall l | from <= l < to :: l !in layers)
    && (floor.Some? ==> Covers(layers, from, to, floor.value) && forall mb: nat | Covers(layers, from, to, mb) ::
        floor.value <= mb)
  }

  lemma FloorUnique(layers: map<nat, nat>, from: nat, to: nat, a: Option<nat>, b: Option<nat>)
    requires IsFloor(layers, from, to, a) && IsFloor(layers, from, to, b)
    ensures a == b
  {
  }

  /** The largest known size in the range. */
  function MostBytes(layers: map<nat, nat>, from: nat, end: nat): (most: Option<nat>)
    ensures most.None? <==> forall l | from <= l < end :: l !in layers
    ensures most.Some? ==> exists l :: from <= l < end && l in layers && layers[l] == most.value
    ensures most.Some? ==> forall l | from <= l < end && l in layers :: layers[l] <= most.value
    decreases end
  {
    if end <= from then None
    else
      var before := MostBytes(layers, from, end - 1);
      if end - 1 in layers && (before.None? || before.value <= layers[end - 1]) then Some(layers[end - 1]) else before
  }

  function CeilDiv(x: nat, d: nat): nat
    requires d > 0
  {
    (x + d - 1) / d
  }

  lemma CeilDivIsLeast(x: nat, d: nat, m: nat)
    requires d > 0
    ensures CeilDiv(x, d) <= m <==> x <= m * d
  {
    var q := CeilDiv(x, d);
    assert x + d - 1 == d * q + (x + d - 1) % d;
    if q <= m {
      assert d * (m - q) >= 0 && d * (m - q) == m * d - d * q;
    } else {
      AtLeastOnce(q - m, d);
      assert (q - m) * d == d * q - m * d;
    }
  }

  /** The floor of a range. */
  function FloorOf(layers: map<nat, nat>, from: nat, to: nat): (floor: Option<nat>)
    ensures IsFloor(layers, from, to, floor)
  {
    var most := MostBytes(layers, from, to);
    if most.None? then None
    else
      CoversMost(layers, from, to, most.value);
      Some(CeilDiv(most.value, MIB))
  }

  lemma CoversMost(layers: map<nat, nat>, from: nat, to: nat, most: nat)
    requires exists l :: from <= l < to && l in layers && layers[l] == most
    requires forall l | from <= l < to && l in layers :: layers[l] <= most
    ensures forall mb: nat :: Covers(layers, from, to, mb) <==> CeilDiv(most, MIB) <= mb
  {
    forall mb: nat ensures Covers(layers, from, to, mb) <==> CeilDiv(most, MIB) <= mb {
      CeilDivIsLeast(most, MIB, mb);
      var l :| from <= l < to && l in layers && layers[l] == most;
    }
  }

  method FloorForRange(layers: map<nat, nat>, from: nat, to: nat) returns (floor: Option<nat>)
    ensures IsFloor(layers, from, to, floor) && floor == FloorOf(layers, from, to)
  {
    var most: Option<nat> := None;
    ghost var best := 0;
    var l := from;
    while l < to
      invariant from <= l && (l <= to || l == from)
      invariant most.None? <==> forall k | from <= k < l :: k !in layers
      invariant most.Some? ==> from <= best < l && best in layers && layers[best] == most.value
      invariant most.Some? ==> forall k | from <= k < l && k in layers :: layers[k] <= most.value
    {
      if l in layers && (most.None? || most.value <= layers[l]) {
        most, best := Some(layers[l]), l;
      }
      l := l + 1;
    }
    if most.None? {
      floor := None;
    } else {
      CoversMost(layers, from, to, most.value);
      floor := Some((most.value + MIB - 1) / MIB);
    }
    FloorUnique(layers, from, to, floor, FloorOf(layers, from, to));
  }

  // ---- Fetching and caching ----------------------------------------------------------------------------------

  function Head(file: seq<u8>): seq<u8> {
    if |file| <= PREFIX_CAP then file else file[..PREFIX_CAP]
  }

  /** Reading only the head of a file gives the file's own table exactly when the header ends within it. */
  lemma HeadSufficesIffHeaderFits(decode: seq<u8> -> string, file: seq<u8>)
    ensures var whole, head := Gguf.ParseHeader(decode, file), Gguf.ParseHeader(decode, Head(file));
            whole.Done? ==>
              && (head.Done? <==> |file| - |whole.rest| <= PREFIX_CAP)
              && (head.Done? ==> head.value == whole.value)
  {
    hide Gguf.ParseHeader;
    if |file| > PREFIX_CAP { Gguf.PrefixParsesIffItHoldsTheHeader(decode, file, PREFIX_CAP); }
  }

  /** What a fetched file says about its layers: nothing if it is no header or has no expert tensors. */
  ghost predicate Describes(decode: seq<u8> -> string, file: seq<u8>, experts: nat, layers: Option<map<nat, nat>>) {
    var parsed := Gguf.ParseHeader(decode, Head(file));
    && (layers.None? <==> !parsed.Done? || LayerBytes(parsed.value, 0, experts).None?)
    && (layers.Some? ==> parsed.Done? && exists n :: n > 0 && IsMaximalRun(parsed.value, experts, layers.value, n))
  }

  lemma {:induction false} RunExists(table: Gguf.Table, experts: nat, layers: map<nat, nat>, k: nat)
    requires k <= |table| && forall l: nat :: l in layers <==> l < k
    requires forall l: nat | l < k :: LayerBytes(table, l, experts) == Some(layers[l])
    ensures exists run, n :: n >= k && IsMaximalRun(table, experts, run, n)
    decreases |table| - k
  {
    hide LayerBytes;
    if LayerBytes(table, k, experts).None? {
      assert IsMaximalRun(table, experts, layers, k);
    } else {
      WalkIsBounded(table, experts, k + 1);
      RunExists(table, experts, layers[k := LayerBytes(table, k, experts).value], k + 1);
    }
  }

  lemma DescriptionExists(decode: seq<u8> -> string, file: seq<u8>, experts: nat)
    ensures exists layers :: Describes(decode, file, experts, layers)
  {
    var parsed := Gguf.ParseHeader(decode, Head(file));
    hide LayerBytes, Gguf.ParseHeader;
    if !parsed.Done? || LayerBytes(parsed.value, 0, experts).None? {
      assert Describes(decode, file, experts, None);
    } else {
      WalkIsBounded(parsed.value, experts, 1);
      RunExists(parsed.value, experts, map[0 := LayerBytes(parsed.value, 0, experts).value], 1);
      var run, n :| n >= 1 && IsMaximalRun(parsed.value, experts, run, n);
      assert Describes(decode, file, experts, Some(run));
    }
  }

  lemma DescriptionUnique(decode: seq<u8> -> string, file: seq<u8>, experts: nat, a: Option<map<nat, nat>>,
                          b: Option<map<nat, nat>>)
    requires Describes(decode, file, experts, a) && Describes(decode, file, experts, b)
    ensures a == b
  {
    hide LayerBytes, Gguf.ParseHeader;
    if a.Some? && b.Some? {
      var table := Gguf.ParseHeader(decode, Head(file)).value;
      var n :| n > 0 && IsMaximalRun(table, experts, a.value, n);
      var k :| k > 0 && IsMaximalRun(table, experts, b.value, k);
      MaximalRunUnique(table, experts, a.value, n, b.value, k);
    }
  }

  /** The layer sizes a file yields for a number of experts. */
  ghost function LayersOf(decode: seq<u8> -> string, file: Option<seq<u8>>,
                          experts: nat): (layers: Option<map<nat, nat>>)
    ensures file.None? ==> layers.None?
    ensures file.Some? ==> Describes(decode, file.value, experts, layers)
  {
    if file.None? then None
    else
      DescriptionExists(decode, file.value, experts);
      var layers :| Describes(decode, file.value, experts, layers);
      layers
  }

  function KeyOf(modelId: string, sha256: string): string {
    modelId + ":" + sha256
  }

  /** What an estimator that has no entry for the model answers. */
  ghost function FreshAnswer(decode: seq<u8> -> string, file: Option<seq<u8>>, experts: nat, from: nat,
                             to: nat): Option<nat> {
    var layers := LayersOf(decode, file, experts);
    if layers.None? then None else FloorOf(layers.value, from, to)
  }

  class ExpertVramEstimator {
    /** Layer sizes by model and content hash. The number of experts is not part of the key. */
    var cache: map<string, map<nat, nat>>

    constructor ()
      ensures cache == map[]
    {
      cache := map[];
    }

    method FetchAndParse(file: Option<seq<u8>>, experts: nat, decode: seq<u8> -> string)
      returns (r: Option<map<nat, nat>>)
      ensures r == LayersOf(decode, file, experts)
    {
      hide LayerBytes, Gguf.ParseHeader;
      if file.None? { return None; }
      var table := GgufReader.ParseTensorInfos(Head(file.value), decode);
      if table.Err? {
        r := None;
      } else {
        r := WalkLayers(table.value, experts);
      }
      DescriptionUnique(decode, file.value, experts, r, LayersOf(decode, file, experts));
    }

    /** `file` is what fetching the model would yield; it is looked at only when the cache has no entry. */
    method MinVramMbForRange(modelId: string, sha256: string, file: Option<seq<u8>>, from: nat, to: nat, experts: nat,
                             decode: seq<u8> -> string) returns (mb: Option<nat>)
      modifies this
      ensures var key, layers := KeyOf(modelId, sha256), LayersOf(decode, file, experts);
              && cache == (if key in old(cache) || layers.None? then old(cache) else old(cache)[key := layers.value])
              && mb == (if key in old(cache) then FloorOf(old(cache)[key], from, to)
                        else FreshAnswer(decode, file, experts, from, to))
    {
      var key := KeyOf(modelId, sha256);
      if key !in cache {
        var layers := FetchAndParse(file, experts, decode);
        if layers.None? { return None; }
        cache := cache[key := layers.value];
      }
      mb := FloorForRange(cache[key], from, to);
    }
  }
}
