/** The header reader as it runs: a cursor that moves over the bytes, and loops that fill the table. */
module GgufReader {
  import opened Common
  import opened Bytes
  import Gguf

  datatype ParseError = Incomplete | Invalid

  /** A reader's outcome and the bytes it left are what the format prescribes. */
  ghost predicate Agrees<T>(r: Result<T, ParseError>, rest: seq<u8>, spec: Gguf.Parsed<T>) {
    match spec
    case Done(v, left) => r == Ok(v) && rest == left
    case Incomplete => r == Err(Incomplete)
    case Invalid => r == Err(Invalid)
  }

  class Cursor {
    const bytes: seq<u8>
    var pos: nat

    ghost predicate Valid()
      reads this
    {
      pos <= |bytes|
    }

    ghost function Rest(): seq<u8>
      reads this
      requires Valid()
    {
      bytes[pos..]
    }

    constructor (bytes: seq<u8>)
      ensures Valid() && Rest() == bytes
    {
      this.bytes, pos := bytes, 0;
    }

    method ReadExact(n: nat) returns (r: Result<seq<u8>, ParseError>)
      requires Valid()
      modifies this`pos
      ensures Valid() && pos >= old(pos)
      ensures Agrees(r, Rest(), Gguf.Take(old(Rest()), n))
    {
      if |bytes| - pos < n { return Err(Incomplete); }
      assert Rest()[..n] == bytes[pos..pos + n] && Rest()[n..] == bytes[pos + n..];
      r := Ok(bytes[pos..pos + n]);
      pos := pos + n;
    }

    method ReadU32() returns (r: Result<u32, ParseError>)
      requires Valid()
      modifies this`pos
      ensures Valid() && pos >= old(pos) && (r.Ok? ==> pos > old(pos))
      ensures Agrees(r, Rest(), Gguf.ReadU32(old(Rest())))
    {
      var b :- ReadExact(4);
      r := Ok(U32At(b));
    }

    method ReadU64() returns (r: Result<u64, ParseError>)
      requires Valid()
      modifies this`pos
      ensures Valid() && pos >= old(pos)
      ensures Agrees(r, Rest(), Gguf.ReadU64(old(Rest())))
    {
      var b :- ReadExact(8);
      r := Ok(U64At(b));
    }

    method ReadString() returns (r: Result<seq<u8>, ParseError>)
      requires Valid()
      modifies this`pos
      ensures Valid() && pos >= old(pos)
      ensures Agrees(r, Rest(), Gguf.ReadString(old(Rest())))
    {
      var len :- ReadU64();
      if len > Gguf.MAX_STRING { return Err(Invalid); }
      r := ReadExact(len);
    }

    /** Passes over one metadata value; calls itself for the elements of an array. */
    method SkipValue(vtype: u32) returns (r: Result<(), ParseError>)
      requires Valid()
      modifies this`pos
      ensures Valid() && pos >= old(pos)
      ensures Agrees(r, Rest(), Gguf.SkipValue(vtype, old(Rest())))
      decreases |bytes| - pos, 1
    {
      var width := Gguf.ScalarWidth(vtype);
      if width.Some? {
        var _ :- ReadExact(width.value);
        return Ok(());
      }
      if vtype == Gguf.STRING_TYPE {
        var _ :- ReadString();
        return Ok(());
      }
      if vtype != Gguf.ARRAY_TYPE { return Err(Invalid); }
      var elemType :- ReadU32();
      var len :- ReadU64();
      if len > Gguf.MAX_COUNT { return Err(Invalid); }
      r := SkipMany(elemType, len);
    }

    method SkipMany(elemType: u32, len: nat) returns (r: Result<(), ParseError>)
      requires Valid()
      modifies this`pos
      ensures Valid() && pos >= old(pos)
      ensures Agrees(r, Rest(), Gguf.SkipMany(elemType, len, old(Rest())))
      decreases |bytes| - pos, 2
    {
      ghost var start, all := pos, Rest();
      var i := 0;
      while i < len
        invariant 0 <= i <= len && Valid() && pos >= start
        invariant i > 0 ==> pos > start
        invariant Gguf.SkipMany(elemType, len, all) == Gguf.SkipMany(elemType, len - i, Rest())
      {
        var _ :- SkipValue(elemType);
        i := i + 1;
      }
      r := Ok(());
    }

    method SkipPair() returns (r: Result<(), ParseError>)
      requires Valid()
      modifies this`pos
      ensures Valid() && pos >= old(pos)
      ensures Agrees(r, Rest(), Gguf.SkipPair(old(Rest())))
    {
      var _ :- ReadString();
      var vtype :- ReadU32();
      r := SkipValue(vtype);
    }

    method SkipPairs(n: nat) returns (r: Result<(), ParseError>)
      requires Valid()
      modifies this`pos
      ensures Valid()
      ensures Agrees(r, Rest(), Gguf.SkipPairs(n, old(Rest())))
    {
      hide Gguf.NextPair, Gguf.SkipPair;
      ghost var all := Rest();
      var i := 0;
      while i < n
        invariant 0 <= i <= n && Valid()
        invariant Gguf.Repeat(Gguf.NextPair, n, all, ()) == Gguf.Repeat(Gguf.NextPair, n - i, Rest(), ())
      {
        Gguf.PairRead(n - i, Rest());
        var _ :- SkipPair();
        i := i + 1;
      }
      r := Ok(());
    }

    method ReadDims() returns (r: Result<seq<u64>, ParseError>)
      requires Valid()
      modifies this`pos
      ensures Valid()
      ensures Agrees(r, Rest(), Gguf.ReadDims(old(Rest())))
    {
      var n :- ReadU32();
      if n > Gguf.MAX_COUNT { return Err(Invalid); }
      ghost var all := Rest();
      var dims: seq<u64> := [];
      var i := 0;
      while i < n
        invariant 0 <= i <= n && Valid()
        invariant Gguf.Repeat(Gguf.NextDim, n, all, []) == Gguf.Repeat(Gguf.NextDim, n - i, Rest(), dims)
      {
        var d :- ReadU64();
        dims := dims + [d];
        i := i + 1;
      }
      r := Ok(dims);
    }

    method ReadTensor() returns (r: Result<(seq<u8>, Gguf.TensorInfo), ParseError>)
      requires Valid()
      modifies this`pos
      ensures Valid()
      ensures Agrees(r, Rest(), Gguf.ReadTensor(old(Rest())))
    {
      var name :- ReadString();
      var dims :- ReadDims();
      var kind :- ReadU32();
      var _ :- ReadU64();
      r := Ok((name, Gguf.TensorInfo(dims, kind)));
    }

    method ReadTensors(decode: seq<u8> -> string, n: nat) returns (r: Result<Gguf.Table, ParseError>)
      requires Valid()
      modifies this`pos
      ensures Valid()
      ensures Agrees(r, Rest(), Gguf.ReadTensors(decode, n, old(Rest())))
    {
      hide Gguf.NextTensor, Gguf.ReadTensor;
      ghost var all := Rest();
      var infos: Gguf.Table := map[];
      var i := 0;
      while i < n
        invariant 0 <= i <= n && Valid()
        invariant Gguf.Repeat(Gguf.NextTensor(decode), n, all, map[]) ==
                  Gguf.Repeat(Gguf.NextTensor(decode), n - i, Rest(), infos)
      {
        Gguf.TensorRead(decode, n - i, Rest(), infos);
        var t :- ReadTensor();
        infos := infos[decode(t.0) := t.1];
        i := i + 1;
      }
      r := Ok(infos);
    }

    method ReadCounts() returns (r: Result<(u64, u64), ParseError>)
      requires Valid()
      modifies this`pos
      ensures Valid()
      ensures Agrees(r, Rest(), Gguf.ReadCounts(old(Rest())))
    {
      var magic :- ReadExact(4);
      if magic != Gguf.MAGIC { return Err(Invalid); }
      var _ :- ReadU32();
      var tensors :- ReadU64();
      var pairs :- ReadU64();
      if tensors > Gguf.MAX_COUNT || pairs > Gguf.MAX_COUNT { return Err(Invalid); }
      r := Ok((tensors, pairs));
    }
  }

  /** Reads a header into its tensor table: the magic and counts, past the metadata, then tensor by tensor. */
  method ParseTensorInfos(bytes: seq<u8>, decode: seq<u8> -> string) returns (r: Result<Gguf.Table, ParseError>)
    ensures r.Ok? <==> Gguf.ParseHeader(decode, bytes).Done?
    ensures r.Ok? ==> r.value == Gguf.ParseHeader(decode, bytes).value
    ensures r == Err(Incomplete) <==> Gguf.ParseHeader(decode, bytes).Incomplete?
  {
    var cur := new Cursor(bytes);
    var counts :- cur.ReadCounts();
    var _ :- cur.SkipPairs(counts.1);
    r := cur.ReadTensors(decode, counts.0);
  }
}
