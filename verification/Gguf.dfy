/** The GGUF header format as parsers over the bytes that remain, each yielding a value and what it left unread.

    Two properties are proved of the whole: reading back a written header yields exactly its tensor table, and
    what a parser decided from a prefix of a file no longer changes when more of the file arrives. */
module Gguf {
  import opened Common
  import opened Bytes

  const MAX_STRING: nat := 16 * 1024 * 1024
  const MAX_COUNT: nat := 1_000_000
  const MAGIC: seq<u8> := [0x47, 0x47, 0x55, 0x46]

  const STRING_TYPE: u32 := 8
  const ARRAY_TYPE: u32 := 9

  /** `Incomplete`: the bytes ended too early. `Invalid`: no continuation could make this a header. */
  datatype Parsed<+T> = Done(value: T, rest: seq<u8>) | Incomplete | Invalid {
    predicate IsFailure() {
      !Done?
    }

    function PropagateFailure<U>(): Parsed<U>
      requires IsFailure()
    {
      if Incomplete? then Parsed.Incomplete else Parsed.Invalid
    }

    function Extract(): (T, seq<u8>)
      requires Done?
    {
      (value, rest)
    }
  }

  datatype TensorInfo = TensorInfo(dims: seq<u64>, ggmlType: u32)

  type Table = map<string, TensorInfo>

  // ---- Parsers ---------------------------------------------------------------------------------------

  function Take(s: seq<u8>, n: nat): (r: Parsed<seq<u8>>)
    ensures r.Done? ==> |r.rest| <= |s|
  {
    if |s| < n then Incomplete else Done(s[..n], s[n..])
  }

  function ReadU32(s: seq<u8>): (r: Parsed<u32>)
    ensures r.Done? ==> |r.rest| <= |s|
  {
    var (b, rest) :- Take(s, 4);
    Done(U32At(b), rest)
  }

  function ReadU64(s: seq<u8>): (r: Parsed<u64>)
    ensures r.Done? ==> |r.rest| <= |s|
  {
    var (b, rest) :- Take(s, 8);
    Done(U64At(b), rest)
  }

  /** A length, then that many bytes; refuses lengths no header of acceptable size can hold. */
  function ReadString(s: seq<u8>): (r: Parsed<seq<u8>>)
    ensures r.Done? ==> |r.rest| <= |s|
  {
    var (n, rest) :- ReadU64(s);
    if n > MAX_STRING then Invalid else Take(rest, n)
  }

  /** The width of a fixed-size metadata value. */
  function ScalarWidth(vtype: u32): Option<nat> {
    if vtype == 0 || vtype == 1 || vtype == 7 then Some(1)
    else if vtype == 2 || vtype == 3 then Some(2)
    else if vtype == 4 || vtype == 5 || vtype == 6 then Some(4)
    else if vtype == 10 || vtype == 11 || vtype == 12 then Some(8)
    else None
  }

  function Skip<T>(p: Parsed<T>): Parsed<()> {
    var (_, rest) :- p;
    Done((), rest)
  }

  /** Passes over one metadata value, through arrays nested to any depth. */
  function SkipValue(vtype: u32, s: seq<u8>): (r: Parsed<()>)
    ensures r.Done? ==> |r.rest| < |s|
    decreases |s|, 0
  {
    if ScalarWidth(vtype).Some? then Skip(Take(s, ScalarWidth(vtype).value))
    else if vtype == STRING_TYPE then Skip(ReadString(s))
    else if vtype != ARRAY_TYPE then Invalid
    else
      var (elemType, s1) :- ReadU32(s);
      var (len, s2) :- ReadU64(s1);
      if len > MAX_COUNT then Invalid else SkipMany(elemType, len, s2)
  }

  function SkipMany(vtype: u32, n: nat, s: seq<u8>): (r: Parsed<()>)
    ensures r.Done? ==> |r.rest| <= |s|
    decreases |s|, n + 1
  {
    if n == 0 then Done((), s)
    else
      var (_, rest) :- SkipValue(vtype, s);
      SkipMany(vtype, n - 1, rest)
  }

  /** One metadata entry: a key, a type and a value. */
  function SkipPair(s: seq<u8>): (r: Parsed<()>)
    ensures r.Done? ==> |r.rest| <= |s|
  {
    var (_, s1) :- ReadString(s);
    var (vtype, s2) :- ReadU32(s1);
    SkipValue(vtype, s2)
  }

  /** Runs one parser `n` times, threading a value through. */
  function Repeat<A>(step: (seq<u8>, A) -> Parsed<A>, n: nat, s: seq<u8>, acc: A): Parsed<A>
    decreases n
  {
    if n == 0 then Done(acc, s)
    else
      var (next, rest) :- step(s, acc);
      Repeat(step, n - 1, rest, next)
  }

  /** A parser never leaves more than it was given. */
  ghost predicate Shrinks<A(!new)>(step: (seq<u8>, A) -> Parsed<A>) {
    forall s, acc :: step(s, acc).Done? ==> |step(s, acc).rest| <= |s|
  }

  lemma {:induction false} RepeatShrinks<A(!new)>(step: (seq<u8>, A) -> Parsed<A>, n: nat, s: seq<u8>, acc: A)
    requires Shrinks(step)
    ensures Repeat(step, n, s, acc).Done? ==> |Repeat(step, n, s, acc).rest| <= |s|
    decreases n
  {
    if n > 0 && step(s, acc).Done? { RepeatShrinks(step, n - 1, step(s, acc).rest, step(s, acc).value); }
  }

  lemma RepeatDone<A>(step: (seq<u8>, A) -> Parsed<A>, n: nat, s: seq<u8>, acc: A, next: A, rest: seq<u8>)
    requires n > 0 && step(s, acc) == Done(next, rest)
    ensures Repeat(step, n, s, acc) == Repeat(step, n - 1, rest, next)
  {
  }

  lemma RepeatFailed<A>(step: (seq<u8>, A) -> Parsed<A>, n: nat, s: seq<u8>, acc: A)
    requires n > 0 && !step(s, acc).Done?
    ensures Repeat(step, n, s, acc) == step(s, acc)
  {
  }

  function NextPair(s: seq<u8>, acc: ()): (r: Parsed<()>)
    ensures r.Done? ==> |r.rest| <= |s|
  {
    SkipPair(s)
  }

  function NextDim(s: seq<u8>, dims: seq<u64>): (r: Parsed<seq<u64>>)
    ensures r.Done? ==> |r.rest| <= |s|
  {
    var (d, rest) :- ReadU64(s);
    Done(dims + [d], rest)
  }

  /** A dimension count, then the dimensions. */
  function ReadDims(s: seq<u8>): (r: Parsed<seq<u64>>)
    ensures r.Done? ==> |r.rest| <= |s|
  {
    var (n, rest) :- ReadU32(s);
    if n > MAX_COUNT then Invalid
    else
      RepeatShrinks(NextDim, n, rest, []);
      Repeat(NextDim, n, rest, [])
  }

  /** The element type, and an offset that is read but not kept. */
  function ReadKind(s: seq<u8>): (r: Parsed<u32>)
    ensures r.Done? ==> |r.rest| <= |s|
  {
    var (kind, s1) :- ReadU32(s);
    var (_, s2) :- ReadU64(s1);
    Done(kind, s2)
  }

  /** A name, a shape and a type. */
  function ReadTensor(s: seq<u8>): (r: Parsed<(seq<u8>, TensorInfo)>)
    ensures r.Done? ==> |r.rest| <= |s|
  {
    var (name, s1) :- ReadString(s);
    var (dims, s2) :- ReadDims(s1);
    var (kind, s3) :- ReadKind(s2);
    Done((name, TensorInfo(dims, kind)), s3)
  }

  /** `decode` turns name bytes into text; a later entry of the same name replaces an earlier one. */
  function NextTensor(decode: seq<u8> -> string): (seq<u8>, Table) -> Parsed<Table> {
    (s: seq<u8>, table: Table) => AddTensor(decode, s, table)
  }

  function AddTensor(decode: seq<u8> -> string, s: seq<u8>, table: Table): (r: Parsed<Table>)
    ensures r.Done? ==> |r.rest| <= |s|
  {
    var (t, rest) :- ReadTensor(s);
    Done(table[decode(t.0) := t.1], rest)
  }

  /** One turn of the metadata loop, and of the tensor loop. */
  lemma PairRead(n: nat, s: seq<u8>)
    requires n > 0
    ensures var x := SkipPair(s);
            Repeat(NextPair, n, s, ()) == if x.Done? then Repeat(NextPair, n - 1, x.rest, ()) else x
  {
    var x := NextPair(s, ());
    if x.Done? {
      assert x.value == ();
      RepeatDone(NextPair, n, s, (), (), x.rest);
    } else {
      RepeatFailed(NextPair, n, s, ());
    }
  }

  lemma TensorRead(decode: seq<u8> -> string, n: nat, s: seq<u8>, table: Table)
    requires n > 0
    ensures var x := ReadTensor(s);
            Repeat(NextTensor(decode), n, s, table)
            == if x.Done? then Repeat(NextTensor(decode), n - 1, x.rest, table[decode(x.value.0) := x.value.1])
              else x.PropagateFailure()
  {
    var x := NextTensor(decode)(s, table);
    if x.Done? { RepeatDone(NextTensor(decode), n, s, table, x.value, x.rest); }
    else { RepeatFailed(NextTensor(decode), n, s, table); }
  }

  /** Magic, version, and the two counts. */
  function ReadCounts(s: seq<u8>): (r: Parsed<(u64, u64)>)
    ensures r.Done? ==> |r.rest| <= |s|
  {
    var (magic, s1) :- Take(s, 4);
    if magic != MAGIC then Invalid
    else
      var (_, s2) :- ReadU32(s1);
      var (tensors, s3) :- ReadU64(s2);
      var (pairs, s4) :- ReadU64(s3);
      if tensors > MAX_COUNT || pairs > MAX_COUNT then Invalid else Done((tensors, pairs), s4)
  }

  function ReadTensors(decode: seq<u8> -> string, n: nat, s: seq<u8>): (r: Parsed<Table>)
    ensures r.Done? ==> |r.rest| <= |s|
  {
    TensorsShrink(decode);
    RepeatShrinks(NextTensor(decode), n, s, map[]);
    Repeat(NextTensor(decode), n, s, map[])
  }

  lemma TensorsShrink(decode: seq<u8> -> string)
    ensures Shrinks(NextTensor(decode))
  {
    hide AddTensor;
  }

  function SkipPairs(n: nat, s: seq<u8>): (r: Parsed<()>)
    ensures r.Done? ==> |r.rest| <= |s|
  {
    RepeatShrinks(NextPair, n, s, ());
    Repeat(NextPair, n, s, ())
  }

  function ParseHeader(decode: seq<u8> -> string, s: seq<u8>): (r: Parsed<Table>)
    ensures r.Done? ==> |r.rest| <= |s|
  {
    var (counts, s1) :- ReadCounts(s);
    var (_, s2) :- SkipPairs(counts.1, s1);
    ReadTensors(decode, counts.0, s2)
  }

  // ---- Prefix stability --------------------------------------------------------------------------------

  /** What was decided on the shorter input still stands on the longer one, and what was left open needs the rest. */
  ghost predicate Stands<T>(shorter: Parsed<T>, longer: Parsed<T>, t: seq<u8>) {
    && (shorter.Done? ==> longer == Done(shorter.value, shorter.rest + t))
    && (shorter.Invalid? ==> longer.Invalid?)
    && (shorter.Incomplete? && longer.Done? ==> |longer.rest| < |t|)
  }

  lemma TakeStands(s: seq<u8>, n: nat, t: seq<u8>)
    ensures Stands(Take(s, n), Take(s + t, n), t)
  {
    if n <= |s| {
      assert (s + t)[..n] == s[..n] && (s + t)[n..] == s[n..] + t;
    }
  }

  lemma U32Stands(s: seq<u8>, t: seq<u8>)
    ensures Stands(ReadU32(s), ReadU32(s + t), t)
  {
    TakeStands(s, 4, t);
  }

  lemma U64Stands(s: seq<u8>, t: seq<u8>)
    ensures Stands(ReadU64(s), ReadU64(s + t), t)
  {
    TakeStands(s, 8, t);
  }

  lemma StringStands(s: seq<u8>, t: seq<u8>)
    ensures Stands(ReadString(s), ReadString(s + t), t)
  {
    U64Stands(s, t);
    var len := ReadU64(s);
    if len.Done? && len.value <= MAX_STRING { TakeStands(len.rest, len.value, t); }
  }

  lemma {:induction false} ValueStands(vtype: u32, s: seq<u8>, t: seq<u8>)
    ensures Stands(SkipValue(vtype, s), SkipValue(vtype, s + t), t)
    decreases |s|, 0
  {
    if ScalarWidth(vtype).Some? {
      TakeStands(s, ScalarWidth(vtype).value, t);
    } else if vtype == STRING_TYPE {
      StringStands(s, t);
    } else if vtype == ARRAY_TYPE {
      U32Stands(s, t);
      var elemType := ReadU32(s);
      if elemType.Done? {
        U64Stands(elemType.rest, t);
        var len := ReadU64(elemType.rest);
        if len.Done? && len.value <= MAX_COUNT { ManyStand(elemType.value, len.value, len.rest, t); }
      }
    }
  }

  lemma {:induction false} ManyStand(vtype: u32, n: nat, s: seq<u8>, t: seq<u8>)
    ensures Stands(SkipMany(vtype, n, s), SkipMany(vtype, n, s + t), t)
    decreases |s|, n + 1
  {
    if n > 0 {
      ValueStands(vtype, s, t);
      var v := SkipValue(vtype, s);
      if v.Done? { ManyStand(vtype, n - 1, v.rest, t); }
    }
  }

  lemma PairStands(s: seq<u8>, t: seq<u8>)
    ensures Stands(SkipPair(s), SkipPair(s + t), t)
  {
    StringStands(s, t);
    var key := ReadString(s);
    if key.Done? {
      U32Stands(key.rest, t);
      var vtype := ReadU32(key.rest);
      if vtype.Done? { ValueStands(vtype.value, vtype.rest, t); }
    }
  }

  lemma {:induction false} RepeatStands<A(!new)>(step: (seq<u8>, A) -> Parsed<A>, n: nat, s: seq<u8>, acc: A,
                                                 t: seq<u8>)
    requires Shrinks(step) && forall s1, acc1 :: Stands(step(s1, acc1), step(s1 + t, acc1), t)
    ensures Stands(Repeat(step, n, s, acc), Repeat(step, n, s + t, acc), t)
    decreases n
  {
    if n > 0 {
      var x, y := step(s, acc), step(s + t, acc);
      assert Stands(x, y, t);
      if x.Done? { RepeatStands(step, n - 1, x.rest, x.value, t); }
      else if y.Done? { RepeatShrinks(step, n - 1, y.rest, y.value); }
    }
  }

  lemma PairsStand(n: nat, s: seq<u8>, t: seq<u8>)
    ensures Stands(SkipPairs(n, s), SkipPairs(n, s + t), t)
  {
    forall s1, acc1 ensures Stands(NextPair(s1, acc1), NextPair(s1 + t, acc1), t) { PairStands(s1, t); }
    RepeatStands(NextPair, n, s, (), t);
  }

  lemma DimsStand(s: seq<u8>, t: seq<u8>)
    ensures Stands(ReadDims(s), ReadDims(s + t), t)
  {
    U32Stands(s, t);
    forall s1, acc1 ensures Stands(NextDim(s1, acc1), NextDim(s1 + t, acc1), t) { U64Stands(s1, t); }
    var n := ReadU32(s);
    if n.Done? && n.value <= MAX_COUNT { RepeatStands(NextDim, n.value, n.rest, [], t); }
    else if ReadU32(s + t).Done? { RepeatShrinks(NextDim, ReadU32(s + t).value, ReadU32(s + t).rest, []); }
  }

  lemma KindStands(s: seq<u8>, t: seq<u8>)
    ensures Stands(ReadKind(s), ReadKind(s + t), t)
  {
    U32Stands(s, t);
    if ReadU32(s).Done? { U64Stands(ReadU32(s).rest, t); }
  }

  lemma TensorStands(s: seq<u8>, t: seq<u8>)
    ensures Stands(ReadTensor(s), ReadTensor(s + t), t)
  {
    hide ReadString, ReadDims, ReadKind;
    StringStands(s, t);
    var name := ReadString(s);
    if name.Done? {
      DimsStand(name.rest, t);
      if ReadDims(name.rest).Done? { KindStands(ReadDims(name.rest).rest, t); }
    }
  }

  lemma TensorsStand(decode: seq<u8> -> string, n: nat, s: seq<u8>, t: seq<u8>)
    ensures Stands(ReadTensors(decode, n, s), ReadTensors(decode, n, s + t), t)
  {
    hide ReadTensor;
    var step := NextTensor(decode);
    TensorsShrink(decode);
    forall s1, acc1 ensures Stands(step(s1, acc1), step(s1 + t, acc1), t) { TensorStands(s1, t); }
    RepeatStands(step, n, s, map[], t);
  }

  lemma CountsStand(s: seq<u8>, t: seq<u8>)
    ensures Stands(ReadCounts(s), ReadCounts(s + t), t)
  {
    TakeStands(s, 4, t);
    var magic := Take(s, 4);
    if magic.Done? {
      U32Stands(magic.rest, t);
      var version := ReadU32(magic.rest);
      if version.Done? {
        U64Stands(version.rest, t);
        var tensors := ReadU64(version.rest);
        if tensors.Done? { U64Stands(tensors.rest, t); }
      }
    }
  }

  /** A header that parsed, or was refused, parses the same or is refused whatever follows it. */
  lemma HeaderStands(decode: seq<u8> -> string, s: seq<u8>, t: seq<u8>)
    ensures Stands(ParseHeader(decode, s), ParseHeader(decode, s + t), t)
  {
    hide ReadCounts, SkipPairs, ReadTensors;
    CountsStand(s, t);
    var counts := ReadCounts(s);
    if counts.Done? {
      PairsStand(counts.value.1, counts.rest, t);
      var pairs := SkipPairs(counts.value.1, counts.rest);
      if pairs.Done? { TensorsStand(decode, counts.value.0, pairs.rest, t); }
    }
  }

  /** How much of a file is needed: cut anywhere before the end of its header it is reported as incomplete, never
      refused and never misread; cut anywhere later it yields the same table. */
  lemma PrefixParsesIffItHoldsTheHeader(decode: seq<u8> -> string, s: seq<u8>, k: nat)
    requires k <= |s|
    ensures var whole, cut := ParseHeader(decode, s), ParseHeader(decode, s[..k]);
            whole.Done? ==>
              && (k < |s| - |whole.rest| ==> cut.Incomplete?)
              && (k >= |s| - |whole.rest| ==> cut.Done? && cut.value == whole.value && cut.rest + s[k..] == whole.rest)
  {
    hide ParseHeader;
    HeaderStands(decode, s[..k], s[k..]);
    assert s[..k] + s[k..] == s;
  }

  // ---- Writing headers, and reading them back ------------------------------------------------------------

  datatype Value = Scalar(vtype: u32, bytes: seq<u8>) | Text(bytes: seq<u8>) | List(elemType: u32, elems: seq<Value>)

  function TypeOf(v: Value): u32 {
    match v
    case Scalar(vtype, _) => vtype
    case Text(_) => STRING_TYPE
    case List(_, _) => ARRAY_TYPE
  }

  predicate WritableString(s: seq<u8>) {
    |s| <= MAX_STRING
  }

  predicate WritableValue(v: Value) {
    match v
    case Scalar(vtype, bytes) => ScalarWidth(vtype) == Some(|bytes|)
    case Text(bytes) => WritableString(bytes)
    case List(elemType, elems) => |elems| <= MAX_COUNT && forall i | 0 <= i < |elems| ::
      TypeOf(elems[i]) == elemType && WritableValue(elems[i])
  }

  function WriteString(s: seq<u8>): seq<u8>
    requires WritableString(s)
  {
    EncodeLE(|s|, 8) + s
  }

  function WriteValue(v: Value): seq<u8>
    requires WritableValue(v)
  {
    match v
    case Scalar(_, bytes) => bytes
    case Text(bytes) => WriteString(bytes)
    case List(elemType, elems) => EncodeLE(elemType, 4) + (EncodeLE(|elems|, 8) + WriteElems(elems))
  }

  function WriteElems(elems: seq<Value>): seq<u8>
    requires forall i | 0 <= i < |elems| :: WritableValue(elems[i])
  {
    if elems == [] then [] else WriteValue(elems[0]) + WriteElems(elems[1..])
  }

  datatype Pair = Pair(key: seq<u8>, value: Value)

  datatype Tensor = Tensor(name: seq<u8>, info: TensorInfo, offset: u64)

  datatype Header = Header(version: u32, pairs: seq<Pair>, tensors: seq<Tensor>)

  predicate WritablePair(p: Pair) {
    WritableString(p.key) && WritableValue(p.value)
  }

  predicate WritableTensor(t: Tensor) {
    WritableString(t.name) && |t.info.dims| <= MAX_COUNT
  }

  predicate Writable(h: Header) {
    && |h.pairs| <= MAX_COUNT && |h.tensors| <= MAX_COUNT
    && (forall p | p in h.pairs :: WritablePair(p))
    && (forall t | t in h.tensors :: WritableTensor(t))
  }

  function WritePair(p: Pair): seq<u8>
    requires WritablePair(p)
  {
    WriteString(p.key) + EncodeLE(TypeOf(p.value), 4) + WriteValue(p.value)
  }

  function WritePairs(ps: seq<Pair>): seq<u8>
    requires forall p | p in ps :: WritablePair(p)
  {
    if ps == [] then [] else WritePair(ps[0]) + WritePairs(ps[1..])
  }

  function WriteDims(dims: seq<u64>): seq<u8> {
    if dims == [] then [] else EncodeLE(dims[0], 8) + WriteDims(dims[1..])
  }

  function WriteTensor(t: Tensor): seq<u8>
    requires WritableTensor(t)
  {
    WriteString(t.name) + EncodeLE(|t.info.dims|, 4) + WriteDims(t.info.dims) + EncodeLE(t.info.ggmlType, 4)
      + EncodeLE(t.offset, 8)
  }

  function WriteTensors(ts: seq<Tensor>): seq<u8>
    requires forall t | t in ts :: WritableTensor(t)
  {
    if ts == [] then [] else WriteTensor(ts[0]) + WriteTensors(ts[1..])
  }

  function WriteHeader(h: Header): seq<u8>
    requires Writable(h)
  {
    MAGIC + (EncodeLE(h.version, 4) + (EncodeLE(|h.tensors|, 8)
                                       + (EncodeLE(|h.pairs|, 8) + (WritePairs(h.pairs) + WriteTensors(h.tensors)))))
  }

  /** The table a header stands for: the last tensor of each name. */
  function TableOf(decode: seq<u8> -> string, ts: seq<Tensor>, table: Table): Table {
    if ts == [] then table else TableOf(decode, ts[1..], table[decode(ts[0].name) := ts[0].info])
  }

  lemma U32Back(v: u32, t: seq<u8>)
    ensures ReadU32(EncodeLE(v, 4) + t) == Done(v, t)
  {
    U32RoundTrip(v);
    assert (EncodeLE(v, 4) + t)[..4] == EncodeLE(v, 4) && (EncodeLE(v, 4) + t)[4..] == t;
  }

  lemma U64Back(v: u64, t: seq<u8>)
    ensures ReadU64(EncodeLE(v, 8) + t) == Done(v, t)
  {
    U64RoundTrip(v);
    assert (EncodeLE(v, 8) + t)[..8] == EncodeLE(v, 8) && (EncodeLE(v, 8) + t)[8..] == t;
  }

  lemma StringBack(s: seq<u8>, t: seq<u8>)
    requires WritableString(s)
    ensures ReadString(WriteString(s) + t) == Done(s, t)
  {
    U64Back(|s|, s + t);
    assert WriteString(s) + t == EncodeLE(|s|, 8) + (s + t);
    assert (s + t)[..|s|] == s && (s + t)[|s|..] == t;
  }

  lemma {:induction false} ValueBack(v: Value, t: seq<u8>)
    requires WritableValue(v)
    ensures SkipValue(TypeOf(v), WriteValue(v) + t) == Done((), t)
    decreases v
  {
    match v
    case Scalar(_, bytes) => assert (bytes + t)[|bytes|..] == t;
    case Text(bytes) => StringBack(bytes, t);
    case List(elemType, elems) => ListBack(elemType, elems, t);
  }

  lemma {:induction false} ListBack(elemType: u32, elems: seq<Value>, t: seq<u8>)
    requires WritableValue(List(elemType, elems))
    ensures SkipValue(ARRAY_TYPE, WriteValue(List(elemType, elems)) + t) == Done((), t)
    decreases elems, 1
  {
    var s2 := WriteElems(elems) + t;
    var s1 := EncodeLE(|elems|, 8) + s2;
    assert WriteValue(List(elemType, elems)) + t == EncodeLE(elemType, 4) + s1;
    U32Back(elemType, s1);
    U64Back(|elems|, s2);
    ElemsBack(elemType, elems, t);
  }

  lemma {:induction false} ElemsBack(elemType: u32, elems: seq<Value>, t: seq<u8>)
    requires forall i | 0 <= i < |elems| :: TypeOf(elems[i]) == elemType && WritableValue(elems[i])
    ensures SkipMany(elemType, |elems|, WriteElems(elems) + t) == Done((), t)
    decreases elems, 0
  {
    hide SkipValue, WriteValue;
    if elems == [] {
      assert WriteElems(elems) + t == t;
    } else {
      var rest := WriteElems(elems[1..]) + t;
      assert WriteElems(elems) + t == WriteValue(elems[0]) + rest;
      ValueBack(elems[0], rest);
      ElemsBack(elemType, elems[1..], t);
    }
  }

  lemma PairBack(p: Pair, t: seq<u8>)
    requires WritablePair(p)
    ensures SkipPair(WritePair(p) + t) == Done((), t)
  {
    var s2 := WriteValue(p.value) + t;
    var s1 := EncodeLE(TypeOf(p.value), 4) + s2;
    assert WritePair(p) + t == WriteString(p.key) + s1;
    StringBack(p.key, s1);
    U32Back(TypeOf(p.value), s2);
    ValueBack(p.value, t);
  }

  lemma {:induction false} PairsBack(ps: seq<Pair>, t: seq<u8>)
    requires forall p | p in ps :: WritablePair(p)
    ensures SkipPairs(|ps|, WritePairs(ps) + t) == Done((), t)
  {
    hide NextPair, SkipPair, WritePair;
    if ps == [] {
      assert WritePairs(ps) + t == t;
    } else {
      assert WritePairs(ps) + t == WritePair(ps[0]) + (WritePairs(ps[1..]) + t);
      PairBack(ps[0], WritePairs(ps[1..]) + t);
      PairRead(|ps|, WritePairs(ps) + t);
      PairsBack(ps[1..], t);
    }
  }

  lemma {:induction false} DimsBack(dims: seq<u64>, before: seq<u64>, t: seq<u8>)
    ensures Repeat(NextDim, |dims|, WriteDims(dims) + t, before) == Done(before + dims, t)
    decreases |dims|
  {
    hide ReadU64, EncodeLE;
    if dims == [] {
      assert WriteDims(dims) + t == t;
      assert before + dims == before;
    } else {
      assert WriteDims(dims) + t == EncodeLE(dims[0], 8) + (WriteDims(dims[1..]) + t);
      U64Back(dims[0], WriteDims(dims[1..]) + t);
      DimsBack(dims[1..], before + [dims[0]], t);
      assert before + [dims[0]] + dims[1..] == before + dims;
    }
  }

  lemma TensorBack(x: Tensor, t: seq<u8>)
    requires WritableTensor(x)
    ensures ReadTensor(WriteTensor(x) + t) == Done((x.name, x.info), t)
  {
    hide ReadString, ReadU32, ReadU64, EncodeLE, Repeat, WriteDims, WriteString;
    var s4 := EncodeLE(x.offset, 8) + t;
    var s3 := EncodeLE(x.info.ggmlType, 4) + s4;
    var s2 := WriteDims(x.info.dims) + s3;
    var s1 := EncodeLE(|x.info.dims|, 4) + s2;
    assert WriteTensor(x) + t == WriteString(x.name) + s1;
    StringBack(x.name, s1);
    U32Back(|x.info.dims|, s2);
    DimsBack(x.info.dims, [], s3);
    assert [] + x.info.dims == x.info.dims;
    U32Back(x.info.ggmlType, s4);
    U64Back(x.offset, t);
  }

  lemma {:induction false} TensorsBack(decode: seq<u8> -> string, ts: seq<Tensor>, table: Table, t: seq<u8>)
    requires forall x | x in ts :: WritableTensor(x)
    ensures Repeat(NextTensor(decode), |ts|, WriteTensors(ts) + t, table) == Done(TableOf(decode, ts, table), t)
    decreases |ts|
  {
    hide NextTensor, ReadTensor, WriteTensor;
    if ts == [] {
      assert WriteTensors(ts) + t == t;
    } else {
      assert WriteTensors(ts) + t == WriteTensor(ts[0]) + (WriteTensors(ts[1..]) + t);
      TensorBack(ts[0], WriteTensors(ts[1..]) + t);
      TensorRead(decode, |ts|, WriteTensors(ts) + t, table);
      TensorsBack(decode, ts[1..], table[decode(ts[0].name) := ts[0].info], t);
    }
  }

  lemma CountsBack(h: Header, t: seq<u8>)
    requires Writable(h)
    ensures ReadCounts(MAGIC + (EncodeLE(h.version, 4) + (EncodeLE(|h.tensors|, 8) + (EncodeLE(|h.pairs|, 8) + t))))
         == Done((|h.tensors|, |h.pairs|), t)
  {
    var s3 := EncodeLE(|h.pairs|, 8) + t;
    var s2 := EncodeLE(|h.tensors|, 8) + s3;
    var s1 := EncodeLE(h.version, 4) + s2;
    assert (MAGIC + s1)[..4] == MAGIC && (MAGIC + s1)[4..] == s1;
    U32Back(h.version, s2);
    U64Back(|h.tensors|, s3);
    U64Back(|h.pairs|, t);
  }

  /** Round trip: whatever bytes follow, a written header parses to its own tensor table and is consumed exactly. */
  lemma HeaderRoundTrip(decode: seq<u8> -> string, h: Header, t: seq<u8>)
    requires Writable(h)
    ensures ParseHeader(decode, WriteHeader(h) + t) == Done(TableOf(decode, h.tensors, map[]), t)
  {
    hide ReadCounts, EncodeLE, Repeat, WritePairs, WriteTensors, TableOf;
    var s2 := WriteTensors(h.tensors) + t;
    var s1 := WritePairs(h.pairs) + s2;
    assert WriteHeader(h) + t == MAGIC + (EncodeLE(h.version, 4)
                                          + (EncodeLE(|h.tensors|, 8) + (EncodeLE(|h.pairs|, 8) + s1)));
    CountsBack(h, s1);
    PairsBack(h.pairs, s2);
    TensorsBack(decode, h.tensors, map[], t);
  }

  /** ASCII text and its bytes. */
  predicate IsAscii(name: seq<u8>) {
    forall i | 0 <= i < |name| :: name[i] < 128
  }

  function AsciiText(name: seq<u8>): string
    requires IsAscii(name)
  {
    seq(|name|, i requires 0 <= i < |name| => name[i] as char)
  }

  /** With distinct ASCII names the parsed table holds exactly the written tensors under their own names. */
  lemma DistinctNamesSurvive(decode: seq<u8> -> string, h: Header, t: seq<u8>)
    requires Writable(h)
    requires forall name | IsAscii(name) :: decode(name) == AsciiText(name)
    requires forall x | x in h.tensors :: IsAscii(x.name)
    requires forall i, j | 0 <= i < j < |h.tensors| :: h.tensors[i].name != h.tensors[j].name
    ensures var r := ParseHeader(decode, WriteHeader(h) + t);
            && r.Done?
            && (forall i | 0 <= i < |h.tensors| ::
                  var n := AsciiText(h.tensors[i].name);
                  n in r.value && r.value[n] == h.tensors[i].info)
            && (forall n | n in r.value :: exists i :: 0 <= i < |h.tensors| && n == AsciiText(h.tensors[i].name))
  {
    HeaderRoundTrip(decode, h, t);
    var table := TableOf(decode, h.tensors, map[]);
    forall i | 0 <= i < |h.tensors|
      ensures var n := AsciiText(h.tensors[i].name); n in table && table[n] == h.tensors[i].info
    {
      forall j | i < j < |h.tensors| ensures decode(h.tensors[j].name) != decode(h.tensors[i].name) {
        AsciiInjective(h.tensors[i].name, h.tensors[j].name);
      }
      TableHas(decode, h.tensors, map[], i);
    }
    forall n | n in table ensures exists i :: 0 <= i < |h.tensors| && n == AsciiText(h.tensors[i].name) {
      TableOnly(decode, h.tensors, map[], n);
      var i :| 0 <= i < |h.tensors| && n == decode(h.tensors[i].name);
      assert n == AsciiText(h.tensors[i].name);
    }
  }

  lemma AsciiInjective(a: seq<u8>, b: seq<u8>)
    requires IsAscii(a) && IsAscii(b) && a != b
    ensures AsciiText(a) != AsciiText(b)
  {
    if AsciiText(a) == AsciiText(b) {
      assert |AsciiText(a)| == |a| && |AsciiText(b)| == |b|;
      forall i | 0 <= i < |a| ensures a[i] == b[i] {
        assert AsciiText(a)[i] == a[i] as char && AsciiText(b)[i] == b[i] as char;
      }
    }
  }

  lemma {:induction false} TableHas(decode: seq<u8> -> string, ts: seq<Tensor>, table: Table, i: nat)
    requires i < |ts| && forall j | i < j < |ts| :: decode(ts[j].name) != decode(ts[i].name)
    ensures var n := decode(ts[i].name); n in TableOf(decode, ts, table) && TableOf(decode, ts, table)[n] == ts[i].info
    decreases |ts|
  {
    if i == 0 {
      TableKeeps(decode, ts[1..], table[decode(ts[0].name) := ts[0].info], decode(ts[0].name));
    } else {
      TableHas(decode, ts[1..], table[decode(ts[0].name) := ts[0].info], i - 1);
    }
  }

  lemma {:induction false} TableKeeps(decode: seq<u8> -> string, ts: seq<Tensor>, table: Table, n: string)
    requires n in table && forall j | 0 <= j < |ts| :: decode(ts[j].name) != n
    ensures n in TableOf(decode, ts, table) && TableOf(decode, ts, table)[n] == table[n]
    decreases |ts|
  {
    if ts != [] { TableKeeps(decode, ts[1..], table[decode(ts[0].name) := ts[0].info], n); }
  }

  lemma {:induction false} TableOnly(decode: seq<u8> -> string, ts: seq<Tensor>, table: Table, n: string)
    requires n in TableOf(decode, ts, table)
    ensures n in table || exists i :: 0 <= i < |ts| && n == decode(ts[i].name)
    decreases |ts|
  {
    if ts != [] {
      TableOnly(decode, ts[1..], table[decode(ts[0].name) := ts[0].info], n);
      if i :| 0 <= i < |ts[1..]| && n == decode(ts[1..][i].name) {
        assert n == decode(ts[i + 1].name);
      }
    }
  }
}
