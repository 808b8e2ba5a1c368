/** What a receipt signs and what a response is encoded as: byte strings from which the fields can be read back. */
module Receipts {
  import opened Common
  import opened Bytes

  /** Text fields as their bytes. */
  datatype Receipt = Receipt(requestId: seq<u8>, wallet: seq<u8>, modelId: seq<u8>, sha256: seq<u8>,
                             responseHash: seq<u8>, tokens: seq<u32>)
  {
    function Texts(): (ts: seq<seq<u8>>)
      ensures |ts| == 5
    {
      [requestId, wallet, modelId, sha256, responseHash]
    }
  }

  /** Every length prefix holds the length itself. */
  predicate Short(r: Receipt) {
    (forall i | 0 <= i < 5 :: |r.Texts()[i]| < U32_LIMIT) && |r.tokens| < U32_LIMIT
  }

  /** A text after its length, cut to 32 bits. */
  function Field(s: seq<u8>): seq<u8> {
    EncodeLE(AsU32(|s|), 4) + s
  }

  function Fields(ts: seq<seq<u8>>): seq<u8> {
    if ts == [] then [] else Field(ts[0]) + Fields(ts[1..])
  }

  function TokenBytes(tokens: seq<u32>): (b: seq<u8>)
    ensures |b| == 4 * |tokens|
  {
    if tokens == [] then [] else EncodeLE(tokens[0], 4) + TokenBytes(tokens[1..])
  }

  function CanonicalBytes(r: Receipt): seq<u8> {
    Fields(r.Texts()) + (EncodeLE(AsU32(|r.tokens|), 4) + TokenBytes(r.tokens))
  }

  lemma {:induction false} FieldsSnoc(ts: seq<seq<u8>>, t: seq<u8>)
    ensures Fields(ts + [t]) == Fields(ts) + Field(t)
  {
    hide Field;
    if ts == [] {
      assert ts + [t] == [t] && [t][1..] == [];
    } else {
      FieldsSnoc(ts[1..], t);
      assert (ts + [t])[1..] == ts[1..] + [t];
    }
  }

  lemma {:induction false} TokensSnoc(tokens: seq<u32>, t: u32)
    ensures TokenBytes(tokens + [t]) == TokenBytes(tokens) + EncodeLE(t, 4)
  {
    hide EncodeLE;
    if tokens == [] {
      assert tokens + [t] == [t] && [t][1..] == [];
    } else {
      TokensSnoc(tokens[1..], t);
      assert (tokens + [t])[1..] == tokens[1..] + [t];
    }
  }

  /** Appends each field and each token to a growing buffer. */
  method BuildCanonicalBytes(r: Receipt) returns (buf: seq<u8>)
    ensures buf == CanonicalBytes(r)
  {
    hide EncodeLE, Field;
    buf := [];
    var texts := r.Texts();
    for i := 0 to |texts|
      invariant buf == Fields(texts[..i])
    {
      FieldsSnoc(texts[..i], texts[i]);
      assert texts[..i + 1] == texts[..i] + [texts[i]];
      buf := buf + Field(texts[i]);
    }
    assert texts[..|texts|] == texts;
    ghost var head := buf + EncodeLE(AsU32(|r.tokens|), 4);
    buf := buf + EncodeLE(AsU32(|r.tokens|), 4);
    for i := 0 to |r.tokens|
      invariant buf == head + TokenBytes(r.tokens[..i])
    {
      TokensSnoc(r.tokens[..i], r.tokens[i]);
      assert r.tokens[..i + 1] == r.tokens[..i] + [r.tokens[i]];
      buf := buf + EncodeLE(r.tokens[i], 4);
    }
    assert r.tokens[..|r.tokens|] == r.tokens;
  }

  // ---- Reading back -------------------------------------------------------------------------------------

  /** One field and what follows it. */
  function ReadField(s: seq<u8>): (r: Option<(seq<u8>, seq<u8>)>)
    ensures r.Some? ==> |r.value.0| < U32_LIMIT && |r.value.1| < |s|
  {
    if |s| < 4 then None
    else
      var n := U32At(s[..4]);
      if |s| - 4 < n then None else Some((s[4..4 + n], s[4 + n..]))
  }

  function ReadFields(s: seq<u8>, n: nat): (r: Option<(seq<seq<u8>>, seq<u8>)>)
    ensures r.Some? ==> |r.value.0| == n && forall t | t in r.value.0 :: |t| < U32_LIMIT
  {
    if n == 0 then Some(([], s))
    else
      var first := ReadField(s);
      if first.None? then None
      else
        var rest := ReadFields(first.value.1, n - 1);
        if rest.None? then None else Some(([first.value.0] + rest.value.0, rest.value.1))
  }

  function ReadTokens(b: seq<u8>): (r: Option<seq<u32>>)
    ensures r.Some? <==> |b| % 4 == 0
    ensures r.Some? ==> |b| == 4 * |r.value|
  {
    if b == [] then Some([])
    else if |b| < 4 then None
    else
      var rest := ReadTokens(b[4..]);
      if rest.None? then None else Some([U32At(b[..4])] + rest.value)
  }

  /** The token count and exactly that many tokens, to the end. */
  function ReadTail(s: seq<u8>): (r: Option<seq<u32>>)
    ensures r.Some? ==> |r.value| < U32_LIMIT
  {
    if |s| < 4 || |s| - 4 != 4 * U32At(s[..4]) then None else ReadTokens(s[4..])
  }

  function Decode(s: seq<u8>): Option<Receipt> {
    var texts := ReadFields(s, 5);
    if texts.None? then None
    else
      var t, tokens := texts.value.0, ReadTail(texts.value.1);
      if tokens.None? then None else Some(Receipt(t[0], t[1], t[2], t[3], t[4], tokens.value))
  }

  lemma FieldBack(t: seq<u8>, rest: seq<u8>)
    requires |t| < U32_LIMIT
    ensures ReadField(Field(t) + rest) == Some((t, rest))
  {
    var s := Field(t) + rest;
    U32RoundTrip(AsU32(|t|));
    assert s[..4] == EncodeLE(AsU32(|t|), 4);
    assert s[4..4 + |t|] == t && s[4 + |t|..] == rest;
  }

  lemma {:induction false} FieldsBack(ts: seq<seq<u8>>, rest: seq<u8>)
    requires forall i | 0 <= i < |ts| :: |ts[i]| < U32_LIMIT
    ensures ReadFields(Fields(ts) + rest, |ts|) == Some((ts, rest))
  {
    hide Field, ReadField;
    if ts == [] {
      assert Fields(ts) + rest == rest;
    } else {
      assert Fields(ts) + rest == Field(ts[0]) + (Fields(ts[1..]) + rest);
      FieldBack(ts[0], Fields(ts[1..]) + rest);
      FieldsBack(ts[1..], rest);
      assert ts == [ts[0]] + ts[1..];
    }
  }

  lemma {:induction false} TokensBack(tokens: seq<u32>)
    ensures ReadTokens(TokenBytes(tokens)) == Some(tokens)
  {
    if tokens != [] {
      var b := TokenBytes(tokens);
      assert b[..4] == EncodeLE(tokens[0], 4) && b[4..] == TokenBytes(tokens[1..]);
      U32RoundTrip(tokens[0]);
      TokensBack(tokens[1..]);
      assert tokens == [tokens[0]] + tokens[1..];
    }
  }

  function Tail(tokens: seq<u32>): seq<u8> {
    EncodeLE(AsU32(|tokens|), 4) + TokenBytes(tokens)
  }

  lemma TailBack(tokens: seq<u32>)
    requires |tokens| < U32_LIMIT
    ensures ReadTail(Tail(tokens)) == Some(tokens)
  {
    U32RoundTrip(AsU32(|tokens|));
    hide EncodeLE, DecodeLE;
    assert Tail(tokens)[..4] == EncodeLE(AsU32(|tokens|), 4) && Tail(tokens)[4..] == TokenBytes(tokens);
    TokensBack(tokens);
  }

  lemma ShortDecodes(r: Receipt)
    requires Short(r)
    ensures Decode(CanonicalBytes(r)) == Some(r)
  {
    hide ReadFields, Fields, ReadTail;
    FieldsBack(r.Texts(), Tail(r.tokens));
    TailBack(r.tokens);
    assert CanonicalBytes(r) == Fields(r.Texts()) + Tail(r.tokens);
  }

  /** The encoding has a left inverse exactly on the receipts whose lengths fit their prefixes. */
  lemma DecodesIffShort(r: Receipt)
    ensures Decode(CanonicalBytes(r)) == Some(r) <==> Short(r)
  {
    hide CanonicalBytes, Decode;
    if Short(r) {
      ShortDecodes(r);
    } else if Decode(CanonicalBytes(r)).Some? {
      DecodedIsShort(CanonicalBytes(r));
    }
  }

  lemma DecodedIsShort(s: seq<u8>)
    requires Decode(s).Some?
    ensures Short(Decode(s).value)
  {
    var t := ReadFields(s, 5).value.0;
    var r := Decode(s).value;
    forall i | 0 <= i < 5 ensures |r.Texts()[i]| < U32_LIMIT {
      assert r.Texts()[i] == t[i] && t[i] in t;
    }
  }

  /** No byte can shift from one field into another: equal encodings mean equal receipts. */
  lemma EncodingIsInjective(a: Receipt, b: Receipt)
    requires Short(a) && Short(b) && CanonicalBytes(a) == CanonicalBytes(b)
    ensures a == b
  {
    DecodesIffShort(a);
    DecodesIffShort(b);
  }

  // ---- Responses -----------------------------------------------------------------------------------------

  function ResponseHex(tokens: seq<u32>): string {
    HexEncode(TokenBytes(tokens))
  }

  /** Collects the token bytes and writes them as hexadecimal text. */
  method BuildResponse(tokens: seq<u32>) returns (hex: string)
    ensures hex == ResponseHex(tokens)
  {
    hide EncodeLE;
    var raw: seq<u8> := [];
    for i := 0 to |tokens|
      invariant raw == TokenBytes(tokens[..i])
    {
      TokensSnoc(tokens[..i], tokens[i]);
      assert tokens[..i + 1] == tokens[..i] + [tokens[i]];
      raw := raw + EncodeLE(tokens[i], 4);
    }
    assert tokens[..|tokens|] == tokens;
    hex := HexEncode(raw);
  }

  /** Refuses text that is not hexadecimal and byte counts that are not whole tokens. */
  function DecodeTokenIdsHex(hex: string): Option<seq<u32>> {
    var bytes := HexDecode(hex);
    if bytes.None? then None else ReadTokens(bytes.value)
  }

  /** The auditor reads back exactly the tokens that were generated. */
  lemma ResponseRoundTrip(tokens: seq<u32>)
    ensures DecodeTokenIdsHex(ResponseHex(tokens)) == Some(tokens)
  {
    HexRoundTrip(TokenBytes(tokens));
    TokensBack(tokens);
  }
}
