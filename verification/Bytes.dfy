/** Little-endian integers and hexadecimal text. */
module Bytes {
  import opened Common

  function Pow256(n: nat): (p: nat)
    ensures p > 0
  {
    if n == 0 then 1 else 256 * Pow256(n - 1)
  }

  /** The `n` low bytes of `v`, least significant first. */
  function EncodeLE(v: nat, n: nat): (s: seq<u8>)
    ensures |s| == n
    decreases n
  {
    if n == 0 then [] else [v % 256] + EncodeLE(v / 256, n - 1)
  }

  function DecodeLE(s: seq<u8>): nat {
    if s == [] then 0 else s[0] + 256 * DecodeLE(s[1..])
  }

  lemma {:induction false} DecodeEncode(v: nat, n: nat)
    ensures DecodeLE(EncodeLE(v, n)) == v % Pow256(n)
    decreases n
  {
    if n > 0 {
      DecodeEncode(v / 256, n - 1);
      DivModSplit(v, Pow256(n - 1));
    }
  }

  lemma DivModSplit(v: nat, p: nat)
    requires p > 0
    ensures v % 256 + 256 * ((v / 256) % p) == v % (256 * p)
  {
    var q := (v / 256) / p;
    var r := v % 256 + 256 * ((v / 256) % p);
    assert v / 256 == p * q + (v / 256) % p;
    assert v == 256 * (v / 256) + v % 256;
    assert 256 * (p * q) == (256 * p) * q;
    assert v == (256 * p) * q + r;
    assert (v / 256) % p <= p - 1;
    RemainderUnique(v, 256 * p, q, r);
  }

  lemma RemainderUnique(v: nat, m: nat, q: nat, r: nat)
    requires m > 0 && r < m && v == m * q + r
    ensures v % m == r
  {
    var d := v / m - q;
    MultipleSign(m, d);
    assert m * (v / m) + v % m == m * q + r;
    assert m * d == r - v % m;
  }

  lemma MultipleSign(m: nat, d: int)
    requires m > 0
    ensures d > 0 ==> m * d >= m
    ensures d < 0 ==> m * d <= 0 - m
  {
  }

  lemma {:induction false} DecodeBounded(s: seq<u8>)
    ensures DecodeLE(s) < Pow256(|s|)
  {
    if s != [] { DecodeBounded(s[1..]); }
  }

  lemma Widths()
    ensures Pow256(4) == U32_LIMIT && Pow256(8) == U64_LIMIT
  {
    assert Pow256(2) == 0x1_0000;
    assert Pow256(4) == 256 * (256 * Pow256(2));
    assert Pow256(6) == 256 * (256 * Pow256(4));
    assert Pow256(8) == 256 * (256 * Pow256(6));
  }

  lemma U32RoundTrip(v: u32)
    ensures DecodeLE(EncodeLE(v, 4)) == v
  {
    Widths();
    DecodeEncode(v, 4);
  }

  lemma U64RoundTrip(v: u64)
    ensures DecodeLE(EncodeLE(v, 8)) == v
  {
    Widths();
    DecodeEncode(v, 8);
  }

  /** Reading four bytes always yields a 32-bit value, eight bytes a 64-bit one. */
  function U32At(s: seq<u8>): (v: u32)
    requires |s| == 4
  {
    DecodeBounded(s);
    Widths();
    DecodeLE(s)
  }

  function U64At(s: seq<u8>): (v: u64)
    requires |s| == 8
  {
    DecodeBounded(s);
    Widths();
    DecodeLE(s)
  }

  // ---- Hexadecimal -----------------------------------------------------------------------------------

  const DIGITS := "0123456789abcdef"

  function HexValue(c: char): (v: Option<nat>)
    ensures v.Some? ==> v.value < 16
  {
    if '0' <= c <= '9' then Some(c as int - '0' as int)
    else if 'a' <= c <= 'f' then Some(c as int - 'a' as int + 10)
    else if 'A' <= c <= 'F' then Some(c as int - 'A' as int + 10)
    else None
  }

  function HexEncode(s: seq<u8>): (h: string)
    ensures |h| == 2 * |s|
  {
    if s == [] then [] else [DIGITS[s[0] / 16], DIGITS[s[0] % 16]] + HexEncode(s[1..])
  }

  /** Rejects an odd length and any character that is not a hexadecimal digit. */
  function HexDecode(h: string): (s: Option<seq<u8>>)
    ensures s.Some? ==> |h| == 2 * |s.value|
  {
    if h == [] then Some([])
    else if |h| == 1 || HexValue(h[0]).None? || HexValue(h[1]).None? then None
    else
      var rest := HexDecode(h[2..]);
      if rest.None? then None else Some([HexValue(h[0]).value * 16 + HexValue(h[1]).value] + rest.value)
  }

  lemma DigitValue(d: nat)
    requires d < 16
    ensures HexValue(DIGITS[d]) == Some(d)
  {
    assert DIGITS[0..10] == "0123456789" && DIGITS[10..] == "abcdef";
  }

  lemma HexPair(h: string, b: u8, rest: seq<u8>)
    requires |h| >= 2 && HexValue(h[0]) == Some(b / 16) && HexValue(h[1]) == Some(b % 16)
    requires HexDecode(h[2..]) == Some(rest)
    ensures HexDecode(h) == Some([b] + rest)
  {
    assert b / 16 * 16 + b % 16 == b;
    hide HexValue;
  }

  lemma {:induction false} HexRoundTrip(s: seq<u8>)
    ensures HexDecode(HexEncode(s)) == Some(s)
  {
    hide HexDecode, HexValue;
    if s == [] {
      NothingDecoded();
    } else {
      HexRoundTrip(s[1..]);
      var h := HexEncode(s);
      assert h[2..] == HexEncode(s[1..]);
      DigitValue(s[0] / 16);
      DigitValue(s[0] % 16);
      HexPair(h, s[0], s[1..]);
      assert s == [s[0]] + s[1..];
    }
  }

  lemma NothingDecoded()
    ensures HexDecode("") == Some([])
  {
  }
}
