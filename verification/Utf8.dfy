/** UTF-8, as `str::as_bytes` writes it and `String::from_utf8` reads it. */
module Utf8 {
  import opened Basics

  function EncodeChar(c: char): (b: Bytes)
    ensures 1 <= |b| <= 4
  {
    var n := c as int;
    if n < 0x80 then [n]
    else if n < 0x800 then [0xC0 + n / 64, 0x80 + n % 64]
    else if n < 0x10000 then [0xE0 + n / 4096, 0x80 + n / 64 % 64, 0x80 + n % 64]
    else [0xF0 + n / 262144, 0x80 + n / 4096 % 64, 0x80 + n / 64 % 64, 0x80 + n % 64]
  }

  function Encode(s: string): Bytes {
    if s == [] then [] else EncodeChar(s[0]) + Encode(s[1..])
  }

  predicate IsScalar(n: int) {
    0 <= n < 0xD800 || 0xE000 <= n < 0x110000
  }

  predicate IsContinuation(b: Byte) {
    0x80 <= b < 0xC0
  }

  /** The payload of a lead or continuation byte. */
  function Payload(b: Byte, mark: int): int {
    b - mark
  }

  /** The code point `n` read from a sequence whose shortest form starts at `least`. */
  function Accept(n: int, least: int, size: nat): (r: Option<(char, nat)>)
  {
    if n >= least && IsScalar(n) then Some((n as char, size)) else None
  }

  /** The first character of `b` and its length; `None` when `b` does not start
      with a well-formed sequence (overlong forms and surrogates included). */
  function DecodeChar(b: Bytes): (r: Option<(char, nat)>)
    ensures r.Some? ==> 1 <= r.value.1 <= |b|
  {
    if |b| == 0 then None
    else if b[0] < 0x80 then Accept(b[0], 0, 1)
    else if b[0] < 0xC0 then None
    else if b[0] < 0xE0 then
      if |b| >= 2 && IsContinuation(b[1]) then
        Accept(Payload(b[0], 0xC0) * 64 + Payload(b[1], 0x80), 0x80, 2)
      else None
    else if b[0] < 0xF0 then
      if |b| >= 3 && IsContinuation(b[1]) && IsContinuation(b[2]) then
        Accept(Payload(b[0], 0xE0) * 4096 + Payload(b[1], 0x80) * 64 + Payload(b[2], 0x80), 0x800, 3)
      else None
    else if b[0] < 0xF8 then
      if |b| >= 4 && IsContinuation(b[1]) && IsContinuation(b[2]) && IsContinuation(b[3]) then
        Accept(Payload(b[0], 0xF0) * 262144 + Payload(b[1], 0x80) * 4096
               + Payload(b[2], 0x80) * 64 + Payload(b[3], 0x80), 0x10000, 4)
      else None
    else None
  }

  function Decode(b: Bytes): Option<string> {
    if b == [] then Some([])
    else match DecodeChar(b)
      case None => None
      case Some((c, size)) =>
        match Decode(b[size..])
        case None => None
        case Some(rest) => Some([c] + rest)
  }

  lemma {:induction false} DecodeEncodedChar(c: char, rest: Bytes)
    ensures DecodeChar(EncodeChar(c) + rest) == Some((c, |EncodeChar(c)|))
  {
    var n := c as int;
    var b := EncodeChar(c) + rest;
    if n < 0x80 {
    } else if n < 0x800 {
      assert b[0] == 0xC0 + n / 64 && b[1] == 0x80 + n % 64;
    } else if n < 0x10000 {
      assert b[0] == 0xE0 + n / 4096 && b[1] == 0x80 + n / 64 % 64 && b[2] == 0x80 + n % 64;
      assert n / 64 / 64 == n / 4096;
    } else {
      assert b[0] == 0xF0 + n / 262144 && b[1] == 0x80 + n / 4096 % 64;
      assert b[2] == 0x80 + n / 64 % 64 && b[3] == 0x80 + n % 64;
      assert n / 64 / 64 == n / 4096 && n / 4096 / 64 == n / 262144;
    }
  }

  /** Every string survives being written as UTF-8 and read back. */
  lemma {:induction false} RoundTrip(s: string)
    ensures Decode(Encode(s)) == Some(s)
  {
    if s != [] {
      RoundTrip(s[1..]);
      DecodeEncodedChar(s[0], Encode(s[1..]));
      var size := |EncodeChar(s[0])|;
      assert Encode(s)[size..] == Encode(s[1..]);
      assert [s[0]] + s[1..] == s;
    }
  }

  lemma {:induction false} TwoSextets(a: nat, b: nat)
    requires b < 64
    ensures (a * 64 + b) / 64 == a && (a * 64 + b) % 64 == b
  {
  }

  lemma {:induction false} EncodeDecodedChar(b: Bytes)
    requires DecodeChar(b).Some?
    ensures var (c, size) := DecodeChar(b).value; EncodeChar(c) == b[..size]
  {
    var (c, size) := DecodeChar(b).value;
    var n := c as int;
    if size == 2 {
      TwoSextets(Payload(b[0], 0xC0), Payload(b[1], 0x80));
    } else if size == 3 {
      var m := Payload(b[0], 0xE0) * 64 + Payload(b[1], 0x80);
      TwoSextets(Payload(b[0], 0xE0), Payload(b[1], 0x80));
      TwoSextets(m, Payload(b[2], 0x80));
      assert n / 4096 == n / 64 / 64;
    } else if size == 4 {
      var k := Payload(b[0], 0xF0) * 64 + Payload(b[1], 0x80);
      var m := k * 64 + Payload(b[2], 0x80);
      TwoSextets(Payload(b[0], 0xF0), Payload(b[1], 0x80));
      TwoSextets(k, Payload(b[2], 0x80));
      TwoSextets(m, Payload(b[3], 0x80));
      assert n / 4096 == n / 64 / 64 && n / 262144 == n / 4096 / 64;
    }
  }

  /** Only the UTF-8 of a string is accepted: reading is the exact inverse of writing. */
  lemma {:induction false} DecodeIsExact(b: Bytes)
    requires Decode(b).Some?
    ensures Encode(Decode(b).value) == b
  {
    if b != [] {
      var c, size := DecodeParts(b);
      DecodeIsExact(b[size..]);
      EncodeOneMore(c, Decode(b[size..]).value);
      assert b == b[..size] + b[size..];
    }
  }

  lemma {:induction false} DecodeParts(b: Bytes) returns (c: char, size: nat)
    requires b != [] && Decode(b).Some?
    ensures 1 <= size <= |b| && Decode(b[size..]).Some?
    ensures Decode(b).value == [c] + Decode(b[size..]).value && EncodeChar(c) == b[..size]
  {
    c, size := DecodeChar(b).value.0, DecodeChar(b).value.1;
    EncodeDecodedChar(b);
  }

  lemma {:induction false} EncodeOneMore(c: char, rest: string)
    ensures Encode([c] + rest) == EncodeChar(c) + Encode(rest)
  {
    assert ([c] + rest)[1..] == rest;
  }

  lemma {:induction false} Injective(s: string, t: string)
    requires Encode(s) == Encode(t)
    ensures s == t
  {
    RoundTrip(s);
    RoundTrip(t);
  }
}
