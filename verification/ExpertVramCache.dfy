/** What the size cache answers when the number of experts changes between two calls for the same model.

    The cache key leaves the number of experts out, so the second call is answered with the first call's sizes. */
module ExpertVramCache {
  import opened Common
  import opened Bytes
  import opened ExpertVram
  import Gguf

  /** How many layers, from 0 on, can be computed for a number of experts. */
  ghost function RunLength(table: Gguf.Table, experts: nat): (n: nat)
    ensures LayerBytes(table, n, experts).None? && forall l: nat | l < n :: LayerBytes(table, l, experts).Some?
  {
    RunExists(table, experts, map[], 0);
    var run, n :| n >= 0 && IsMaximalRun(table, experts, run, n);
    n
  }

  /** The largest total size of a layer in the range. */
  function MostTotal(table: Gguf.Table, from: nat, end: nat): (most: nat)
    ensures forall l | from <= l < end :: TotalBytes(table, l, |SUFFIXES|) <= most
    ensures from < end ==> exists l :: from <= l < end && TotalBytes(table, l, |SUFFIXES|) == most
    decreases end
  {
    if end <= from then 0
    else
      var before, last := MostTotal(table, from, end - 1), TotalBytes(table, end - 1, |SUFFIXES|);
      if end - 1 == from || before <= last then last else before
  }

  function Min(a: nat, b: nat): nat {
    if a < b then a else b
  }

  /** The floor in terms of the file's own totals: the largest one shared out among the experts, in whole mebibytes. */
  ghost function Predicted(table: Gguf.Table, experts: nat, from: nat, to: nat): Option<nat> {
    var end := Min(to, RunLength(table, experts));
    if from < end && experts > 0 then Some(CeilDiv(MostTotal(table, from, end), experts * MIB)) else None
  }

  lemma Scale(n: nat, x: nat, y: nat)
    requires n > 0
    ensures x <= y <==> n * x <= n * y
  {
    assert n * (y - x) == n * y - n * x;
    MultipleSign(n, y - x);
  }

  lemma Reorder(n: nat, mb: nat)
    ensures n * (mb * MIB) == mb * (n * MIB)
  {
  }

  lemma CoversTotal(table: Gguf.Table, experts: nat, l: nat, mb: nat)
    requires experts > 0 && LayerBytes(table, l, experts).Some? && Fits(table, l)
    ensures LayerBytes(table, l, experts).value <= mb * MIB <==>
            TotalBytes(table, l, |SUFFIXES|) <= mb * (experts * MIB)
  {
    LayerBytesIsExact(table, l, experts);
    hide LayerBytes, TotalBytes, Fits;
    Scale(experts, LayerBytes(table, l, experts).value, mb * MIB);
    Reorder(experts, mb);
  }

  /** `mb` mebibytes cover the known layers exactly if that much for every expert covers the layers' totals. */
  lemma CoversTotals(table: Gguf.Table, experts: nat, layers: map<nat, nat>, n: nat, from: nat, to: nat, mb: nat)
    requires experts > 0 && IsMaximalRun(table, experts, layers, n) && from < Min(to, n)
    requires forall l | from <= l < to :: Fits(table, l)
    ensures Covers(layers, from, to, mb) <==> MostTotal(table, from, Min(to, n)) <= mb * (experts * MIB)
  {
    hide LayerBytes, TotalBytes, Fits;
    var share, end := mb * (experts * MIB), Min(to, n);
    forall l | from <= l < end ensures layers[l] <= mb * MIB <==> TotalBytes(table, l, |SUFFIXES|) <= share {
      CoversTotal(table, experts, l, mb);
    }
    var most :| from <= most < end && TotalBytes(table, most, |SUFFIXES|) == MostTotal(table, from, end);
    assert Covers(layers, from, to, mb) <==> forall l | from <= l < end :: layers[l] <= mb * MIB;
  }

  lemma FloorIsPredicted(table: Gguf.Table, experts: nat, layers: map<nat, nat>, n: nat, from: nat, to: nat)
    requires IsMaximalRun(table, experts, layers, n) && n > 0
    requires forall l | from <= l < to :: Fits(table, l)
    ensures FloorOf(layers, from, to) == Predicted(table, experts, from, to)
  {
    assert experts > 0 by { assert LayerBytes(table, 0, experts).Some?; }
    hide LayerBytes, Fits, MostTotal;
    SameLength(table, experts, layers, n);
    var end := Min(to, n);
    if from < end {
      var most := MostTotal(table, from, end);
      AtLeastOnce(experts, MIB);
      forall mb: nat ensures Covers(layers, from, to, mb) <==> CeilDiv(most, experts * MIB) <= mb {
        CoversTotals(table, experts, layers, n, from, to, mb);
        CeilDivIsLeast(most, experts * MIB, mb);
      }
      assert from in layers;
      FloorUnique(layers, from, to, FloorOf(layers, from, to), Some(CeilDiv(most, experts * MIB)));
    } else {
      FloorUnique(layers, from, to, FloorOf(layers, from, to), None);
    }
  }

  lemma SameLength(table: Gguf.Table, experts: nat, layers: map<nat, nat>, n: nat)
    requires IsMaximalRun(table, experts, layers, n)
    ensures RunLength(table, experts) == n
  {
    var k := RunLength(table, experts);
    assert LayerBytes(table, k, experts).None? && LayerBytes(table, n, experts).None?;
  }

  /** A fresh estimator answers what the file's totals predict. */
  lemma FreshAnswerIsPredicted(decode: seq<u8> -> string, file: seq<u8>, experts: nat, from: nat, to: nat)
    requires Gguf.ParseHeader(decode, Head(file)).Done?
    requires forall l | from <= l < to :: Fits(Gguf.ParseHeader(decode, Head(file)).value, l)
    ensures FreshAnswer(decode, Some(file), experts, from, to) ==
            Predicted(Gguf.ParseHeader(decode, Head(file)).value, experts, from, to)
  {
    hide LayerBytes, Gguf.ParseHeader, Fits, MostTotal;
    var table := Gguf.ParseHeader(decode, Head(file)).value;
    var layers := LayersOf(decode, Some(file), experts);
    if layers.Some? {
      var n :| n > 0 && IsMaximalRun(table, experts, layers.value, n);
      FloorIsPredicted(table, experts, layers.value, n, from, to);
    } else {
      assert RunLength(table, experts) == 0;
    }
  }

  /** The answer to a call with `b` experts after one with `a`, for the same model and file. */
  ghost function SecondAnswer(decode: seq<u8> -> string, file: seq<u8>, a: nat, b: nat, from: nat,
                              to: nat): Option<nat> {
    var remembered := LayersOf(decode, Some(file), a);
    if remembered.None? then FreshAnswer(decode, Some(file), b, from, to) else FloorOf(remembered.value, from, to)
  }

  /** Two calls in a row on a new estimator. */
  method AskTwice(modelId: string, sha256: string, file: seq<u8>, a: nat, b: nat, from: nat, to: nat,
                  decode: seq<u8> -> string)
    returns (second: Option<nat>)
    ensures second == SecondAnswer(decode, file, a, b, from, to)
  {
    hide LayerBytes, Gguf.ParseHeader, Describes;
    var estimator := new ExpertVramEstimator();
    var _ := estimator.MinVramMbForRange(modelId, sha256, Some(file), from, to, a, decode);
    second := estimator.MinVramMbForRange(modelId, sha256, Some(file), from, to, b, decode);
  }

  /** The second call answers what a fresh estimator would, exactly if the first call remembered nothing or both numbers
      of experts lead to the same share of the range's largest layer, in whole mebibytes and over the layers each of
      them can divide. */
  lemma SecondAnswerIsFreshIffSharesAgree(decode: seq<u8> -> string, file: seq<u8>, a: nat, b: nat, from: nat, to: nat)
    requires Gguf.ParseHeader(decode, Head(file)).Done?
    requires forall l | from <= l < to :: Fits(Gguf.ParseHeader(decode, Head(file)).value, l)
    ensures var table := Gguf.ParseHeader(decode, Head(file)).value;
            SecondAnswer(decode, file, a, b, from, to) == FreshAnswer(decode, Some(file), b, from, to) <==>
              RunLength(table, a) == 0 || Predicted(table, a, from, to) == Predicted(table, b, from, to)
  {
    hide LayerBytes, Gguf.ParseHeader, Fits, Predicted;
    var table := Gguf.ParseHeader(decode, Head(file)).value;
    FreshAnswerIsPredicted(decode, file, a, from, to);
    FreshAnswerIsPredicted(decode, file, b, from, to);
    assert LayersOf(decode, Some(file), a).None? <==> RunLength(table, a) == 0;
  }

  // ---- A pair of calls where the answer is wrong ---------------------------------------------------------------

  predicate Plain(s: string) {
    forall i | 0 <= i < |s| :: s[i] as int < 128
  }

  function NameBytes(s: string): (b: seq<u8>)
    requires Plain(s)
    ensures |b| == |s| && Gguf.IsAscii(b)
  {
    seq(|s|, i requires 0 <= i < |s| => s[i] as int)
  }

  /** Reads every byte as the character of that number. */
  function Latin(): seq<u8> -> string {
    (b: seq<u8>) => seq(|b|, i requires 0 <= i < |b| => b[i] as char)
  }

  lemma LatinReads(s: string)
    requires Plain(s)
    ensures Latin()(NameBytes(s)) == s
  {
  }

  lemma PlainName(suffix: string)
    requires Plain(suffix)
    ensures Plain(TensorName(0, suffix)) && |TensorName(0, suffix)| == |suffix| + 13
  {
    var number, head, tail := Decimal(0), "blk.", ".weight";
    assert number == "0";
    assert Plain(head) && Plain(tail);
  }

  lemma SuffixesArePlain()
    ensures forall k | 0 <= k < |SUFFIXES| :: Plain(TensorName(0, SUFFIXES[k])) && |TensorName(0, SUFFIXES[k])| < 100
  {
    hide TensorName;
    forall k | 0 <= k < |SUFFIXES|
      ensures Plain(TensorName(0, SUFFIXES[k])) && |TensorName(0, SUFFIXES[k])| < 100
    {
      PlainName(SUFFIXES[k]);
    }
  }

  /** Two mebi-elements of four bytes. */
  const INFO := Gguf.TensorInfo([2 * MIB], 0)

  function OneLayer(): Gguf.Header
    requires forall k | 0 <= k < |SUFFIXES| :: Plain(TensorName(0, SUFFIXES[k]))
  {
    Gguf.Header(3, [], [Gguf.Tensor(NameBytes(TensorName(0, SUFFIXES[0])), INFO, 0),
                        Gguf.Tensor(NameBytes(TensorName(0, SUFFIXES[1])), INFO, 0),
                        Gguf.Tensor(NameBytes(TensorName(0, SUFFIXES[2])), INFO, 0)])
  }

  function OneLayerTable(): Gguf.Table {
    map[TensorName(0, SUFFIXES[0]) := INFO, TensorName(0, SUFFIXES[1]) := INFO, TensorName(0, SUFFIXES[2]) := INFO]
  }

  lemma OneLayerFile() returns (file: seq<u8>)
    ensures Gguf.ParseHeader(Latin(), Head(file)) == Gguf.Parsed.Done(OneLayerTable(), [])
  {
    SuffixesArePlain();
    hide TensorName, Plain, Latin, OneLayerTable, Gguf.ParseHeader, Gguf.WriteHeader, Gguf.TableOf;
    var h := OneLayer();
    assert Gguf.Writable(h);
    file := Gguf.WriteHeader(h);
    Gguf.HeaderRoundTrip(Latin(), h, []);
    assert file + [] == file;
    LatinReads(TensorName(0, SUFFIXES[0]));
    LatinReads(TensorName(0, SUFFIXES[1]));
    LatinReads(TensorName(0, SUFFIXES[2]));
    TableOfThree(h.tensors[0], h.tensors[1], h.tensors[2]);
    ShortFile(h);
  }

  lemma TableOfThree(a: Gguf.Tensor, b: Gguf.Tensor, c: Gguf.Tensor)
    requires a.info == b.info == c.info == INFO
    requires Latin()(a.name) == TensorName(0, SUFFIXES[0]) && Latin()(b.name) == TensorName(0, SUFFIXES[1])
    requires Latin()(c.name) == TensorName(0, SUFFIXES[2])
    ensures Gguf.TableOf(Latin(), [a, b, c], map[]) == OneLayerTable()
  {
    hide TensorName, Latin;
    TableStep(a, [b, c], map[]);
    TableStep(b, [c], map[Latin()(a.name) := INFO]);
    TableStep(c, [], map[Latin()(a.name) := INFO][Latin()(b.name) := INFO]);
    hide Gguf.TableOf;
    assert [a, b, c] == [a] + [b, c] && [b, c] == [b] + [c] && [c] == [c] + [];
    TableEnd(map[Latin()(a.name) := INFO][Latin()(b.name) := INFO][Latin()(c.name) := INFO]);
  }

  lemma TableStep(t: Gguf.Tensor, rest: seq<Gguf.Tensor>, table: Gguf.Table)
    ensures Gguf.TableOf(Latin(), [t] + rest, table) == Gguf.TableOf(Latin(), rest, table[Latin()(t.name) := t.info])
  {
    hide Latin;
    assert ([t] + rest)[1..] == rest;
  }

  lemma TableEnd(table: Gguf.Table)
    ensures Gguf.TableOf(Latin(), [], table) == table
  {
  }

  lemma ShortFile(h: Gguf.Header)
    requires Gguf.Writable(h) && h.pairs == [] && |h.tensors| == 3
    requires forall k | 0 <= k < 3 :: |h.tensors[k].name| < 100 && |h.tensors[k].info.dims| == 1
    ensures |Gguf.WriteHeader(h)| <= PREFIX_CAP
  {
    var ts := h.tensors;
    assert ts[1..][1..] == ts[2..] && ts[2..][1..] == [];
    forall k | 0 <= k < 3 ensures |Gguf.WriteTensor(ts[k])| < 150 { ShortTensor(ts[k]); }
    hide Gguf.WriteTensor;
    assert |Gguf.WriteTensors(ts[2..])| < 150;
    assert |Gguf.WriteTensors(ts[1..])| < 300;
    assert |Gguf.WriteTensors(ts)| < 450;
  }

  lemma ShortTensor(t: Gguf.Tensor)
    requires Gguf.WritableTensor(t) && |t.name| < 100 && |t.info.dims| == 1
    ensures |Gguf.WriteTensor(t)| < 150
  {
    assert t.info.dims[1..] == [];
    assert |Gguf.WriteDims(t.info.dims)| == 8;
  }

  lemma OneLayerRuns()
    ensures RunLength(OneLayerTable(), 1) == 1 && RunLength(OneLayerTable(), 2) == 1
            && RunLength(OneLayerTable(), 3) == 0
  {
    OneLayerSlices();
    OneLayerEnds();
    hide LayerBytes, OneLayerTable;
    assert LayerBytes(OneLayerTable(), 1, 1).None? && LayerBytes(OneLayerTable(), 1, 2).None?;
  }

  /** For one file: 24 MiB per expert with one expert, 12 with two, and no answer with three. */
  lemma OneLayerFloors()
    ensures Fits(OneLayerTable(), 0)
    ensures Predicted(OneLayerTable(), 1, 0, 1) == Some(24)
    ensures Predicted(OneLayerTable(), 2, 0, 1) == Some(12)
    ensures Predicted(OneLayerTable(), 3, 0, 1) == None
  {
    OneLayerRuns();
    OneLayerTotal();
    hide RunLength, OneLayerTable, TotalBytes, Fits;
    assert MostTotal(OneLayerTable(), 0, 1) == 24 * MIB;
    assert CeilDiv(24 * MIB, 1 * MIB) == 24 && CeilDiv(24 * MIB, 2 * MIB) == 12;
  }

  lemma OneLayerElements()
    ensures Elements(INFO.dims) == 2 * MIB && Product(INFO.dims) == 2 * MIB
  {
    assert INFO.dims[..0] == [];
  }

  lemma OneLayerNames()
    ensures forall k | 0 <= k < 3 ::
              TensorName(0, SUFFIXES[k]) in OneLayerTable() && OneLayerTable()[TensorName(0, SUFFIXES[k])] == INFO
  {
  }

  lemma InfoSlices()
    ensures SliceOf(INFO, 1).Some? && SliceOf(INFO, 2).Some? && SliceOf(INFO, 3).None?
  {
    OneLayerElements();
  }

  lemma OneLayerSlices()
    ensures LayerBytes(OneLayerTable(), 0, 1).Some? && LayerBytes(OneLayerTable(), 0, 2).Some?
            && LayerBytes(OneLayerTable(), 0, 3).None?
  {
    OneLayerNames();
    InfoSlices();
    hide OneLayerTable, SliceOf;
    SomeUpTo(OneLayerTable(), 0, 1, 3);
    SomeUpTo(OneLayerTable(), 0, 2, 3);
    assert SliceBytes(OneLayerTable(), 0, SUFFIXES[0], 3).None?;
    NoneFrom(OneLayerTable(), 0, 3, 0);
  }

  lemma OneLayerEnds()
    ensures forall n | n > 0 :: LayerBytes(OneLayerTable(), 1, n).None?
  {
    forall n | n > 0 ensures LayerBytes(OneLayerTable(), 1, n).None? {
      if TensorName(1, SUFFIXES[0]) in OneLayerTable() { GateOfLayerOne(); }
      NoneFrom(OneLayerTable(), 1, n, 0);
    }
  }

  lemma GateOfLayerOne()
    ensures TensorName(1, SUFFIXES[0]) !in OneLayerTable()
  {
    assert Decimal(1) == "1" && Decimal(0) == "0";
    assert TensorName(1, SUFFIXES[0])[4] == '1';
    assert forall k | 0 <= k < 3 :: TensorName(0, SUFFIXES[k])[4] == '0';
  }

  lemma OneLayerTotal()
    ensures TotalBytes(OneLayerTable(), 0, 3) == 24 * MIB && Fits(OneLayerTable(), 0)
  {
    OneLayerElements();
    OneLayerNames();
    hide TensorName, Product, OneLayerTable;
    assert TensorBytes(INFO) == 8 * MIB;
    assert TotalBytes(OneLayerTable(), 0, 1) == 8 * MIB;
    assert TotalBytes(OneLayerTable(), 0, 2) == 16 * MIB;
  }

  /** After a call with one expert, a call with two is answered with twice what it needs, and a call with three is
      answered although a fresh estimator could not answer it at all. */
  lemma SecondAnswerIsWrong() returns (file: seq<u8>)
    ensures SecondAnswer(Latin(), file, 1, 2, 0, 1) == Some(24) && FreshAnswer(Latin(), Some(file), 2, 0, 1) == Some(12)
    ensures SecondAnswer(Latin(), file, 1, 3, 0, 1) == Some(24) && FreshAnswer(Latin(), Some(file), 3, 0, 1) == None
  {
    file := OneLayerFile();
    OneLayerFloors();
    hide Gguf.ParseHeader, LayerBytes, Predicted, Fits;
    FreshAnswerIsPredicted(Latin(), file, 1, 0, 1);
    FreshAnswerIsPredicted(Latin(), file, 2, 0, 1);
    FreshAnswerIsPredicted(Latin(), file, 3, 0, 1);
  }
}
