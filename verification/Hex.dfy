/** Hexadecimal text: the at-rest form of hashes and the wire form of calldata. */
module Hex {
  import opened Basics

  const DIGITS: string := "0123456789abcdef"

  function DigitOf(n: int): (c: char)
    requires 0 <= n < 16
  {
    DIGITS[n]
  }

  /** The value of a hex digit of either case. */
  function DigitValue(c: char): (r: Option<int>)
    ensures r.Some? ==> 0 <= r.value < 16
  {
    if '0' <= c <= '9' then Some(c as int - '0' as int)
    else if 'a' <= c <= 'f' then Some(c as int - 'a' as int + 10)
    else if 'A' <= c <= 'F' then Some(c as int - 'A' as int + 10)
    else None
  }

  /** `{b:02x}` for every byte, without a prefix. */
  function Raw(b: Bytes): (s: string)
    ensures |s| == 2 * |b|
  {
    if b == [] then [] else [DigitOf(b[0] / 16), DigitOf(b[0] % 16)] + Raw(b[1..])
  }

  /** `hex_encode`: `0x` and two lower-case digits a byte. */
  function Encode(b: Bytes): string {
    "0x" + Raw(b)
  }

  /** `u8::from_str_radix(pair, 16)`, which also accepts a plus sign. */
  function ReadPair(a: char, b: char): (r: Option<Byte>) {
    if a == '+' then DigitValue(b)
    else match (DigitValue(a), DigitValue(b))
      case (Some(h), Some(l)) => Some(16 * h + l)
      case _ => None
  }

  /** The bytes read from the front of `s` before the first bad pair, at most `limit`. */
  function ReadBytes(s: string, limit: nat): (b: Bytes)
    ensures |b| <= limit
  {
    if limit == 0 || |s| < 2 then []
    else match ReadPair(s[0], s[1])
      case None => []
      case Some(v) => [v] + ReadBytes(s[2..], limit - 1)
  }

  function Pad32(b: Bytes): Word
    requires |b| <= 32
  {
    b + seq(32 - |b|, i => 0)
  }

  /** What `hex32` computes: the readable prefix, filled up with zero bytes. */
  function Decode32(s: string): Word {
    Pad32(ReadBytes(StripPrefix(s, "0x"), 32))
  }

  /** `hex32`, filling a fixed buffer until a pair cannot be read. */
  method Hex32(text: string) returns (out: Word)
    ensures out == Decode32(text)
  {
    var s := StripPrefix(text, "0x");
    var buffer := new Byte[32](i => 0);
    var i, n := 0, 0;
    ghost var all := ReadBytes(s, buffer.Length);
    while i + 1 < |s| + 1 && n < 32
      invariant 0 <= n <= 32 && i == 2 * n
      invariant i <= |s|
      invariant all == buffer[..n] + ReadBytes(s[i..], buffer.Length - n)
      invariant forall k :: n <= k < 32 ==> buffer[k] == 0
    {
      if i + 2 > |s| { break; }
      var pair := ReadPair(s[i], s[i + 1]);
      if pair.None? { break; }
      ghost var before := buffer[..n];
      buffer[n] := pair.value;
      n := n + 1;
      i := i + 2;
      assert buffer[..n] == before + [pair.value];
      assert s[i - 2..][2..] == s[i..];
    }
    assert ReadBytes(s[i..], buffer.Length - n) == [];
    assert buffer[..] == Pad32(buffer[..n]);
    out := buffer[..];
  }

  lemma {:induction false} DigitRoundTrip(n: int)
    requires 0 <= n < 16
    ensures DigitValue(DigitOf(n)) == Some(n)
    ensures DigitOf(n) != '+'
  {
  }

  lemma {:induction false} PairReadsBack(v: Byte)
    ensures ReadPair(DigitOf(v / 16), DigitOf(v % 16)) == Some(v)
  {
    DigitRoundTrip(v / 16);
    DigitRoundTrip(v % 16);
  }

  lemma {:induction false} ReadsOnePair(v: Byte, rest: string, limit: nat)
    requires limit > 0
    ensures ReadBytes([DigitOf(v / 16), DigitOf(v % 16)] + rest, limit) == [v] + ReadBytes(rest, limit - 1)
  {
    var s := [DigitOf(v / 16), DigitOf(v % 16)] + rest;
    PairReadsBack(v);
    assert s[2..] == rest;
  }

  lemma {:induction false} RawReadsBack(b: Bytes, limit: nat)
    requires |b| <= limit
    ensures ReadBytes(Raw(b), limit) == b
  {
    if b != [] {
      var v, rest := b[0], b[1..];
      ReadsOnePair(v, Raw(rest), limit);
      RawReadsBack(rest, limit - 1);
      assert b == [v] + rest;
    }
  }

  /** A stored hash decodes to the hash that was stored. */
  lemma {:induction false} Hex32RoundTrip(w: Word)
    ensures Decode32(Encode(w)) == w
  {
    assert Encode(w)[..2] == "0x";
    assert Encode(w)[2..] == Raw(w);
    RawReadsBack(w, 32);
    assert w + [] == w;
  }

  lemma {:induction false} RawInjective(a: Bytes, b: Bytes)
    requires Raw(a) == Raw(b)
    ensures a == b
  {
    RawReadsBack(a, |a|);
    RawReadsBack(b, |b|);
  }

  lemma {:induction false} RawConcat(a: Bytes, b: Bytes)
    ensures Raw(a + b) == Raw(a) + Raw(b)
  {
    if a == [] {
      assert a + b == b;
    } else {
      assert (a + b)[1..] == a[1..] + b;
      RawConcat(a[1..], b);
    }
  }

  lemma {:induction false} EncodeInjective(a: Bytes, b: Bytes)
    requires Encode(a) == Encode(b)
    ensures a == b
  {
    assert Raw(a) == Encode(a)[2..] && Raw(b) == Encode(b)[2..];
    RawInjective(a, b);
  }
}
