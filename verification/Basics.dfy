/** Value types and text helpers shared by every module: optional and fallible
    results, the machine integers of the source, bytes, and the whitespace rules
    of Rust's `str::trim`. */
module Basics {

  datatype Option<+T> = None | Some(value: T)

  datatype Result<+T, +E> = Ok(value: T) | Err(error: E)

  type Byte = b: int | 0 <= b < 256

  type Bytes = seq<Byte>

  type U64 = n: int | 0 <= n < 0x1_0000_0000_0000_0000

  type I64 = n: int | -0x8000_0000_0000_0000 <= n < 0x8000_0000_0000_0000

  /** A 32-byte hash or ABI word. */
  type Word = w: Bytes | |w| == 32 witness seq(32, i => 0)

  /** The `White_Space` characters, which `str::trim` removes. */
  predicate IsSpace(c: char) {
    var n := c as int;
    || 0x09 <= n <= 0x0D || n == 0x20 || n == 0x85 || n == 0xA0 || n == 0x1680
    || 0x2000 <= n <= 0x200A || n == 0x2028 || n == 0x2029 || n == 0x202F
    || n == 0x205F || n == 0x3000
  }

  function TrimStart(s: string): string {
    if s != [] && IsSpace(s[0]) then TrimStart(s[1..]) else s
  }

  function TrimEnd(s: string): string {
    if s != [] && IsSpace(s[|s| - 1]) then TrimEnd(s[..|s| - 1]) else s
  }

  function Trim(s: string): string {
    TrimEnd(TrimStart(s))
  }

  predicate Blank(s: string) {
    Trim(s) == []
  }

  predicate AllSpace(s: string) {
    forall i :: 0 <= i < |s| ==> IsSpace(s[i])
  }

  /** Text that neither starts nor ends with space. */
  predicate Tight(s: string) {
    s != [] ==> !IsSpace(s[0]) && !IsSpace(s[|s| - 1])
  }

  lemma {:induction false} TrimStartMeans(s: string) returns (a: string)
    ensures AllSpace(a) && s == a + TrimStart(s) && (TrimStart(s) != [] ==> !IsSpace(TrimStart(s)[0]))
  {
    if s != [] && IsSpace(s[0]) {
      var b := TrimStartMeans(s[1..]);
      a := [s[0]] + b;
      assert s == [s[0]] + s[1..];
    } else {
      a := [];
    }
  }

  lemma {:induction false} TrimEndMeans(s: string) returns (b: string)
    requires s != [] ==> !IsSpace(s[0])
    ensures AllSpace(b) && s == TrimEnd(s) + b && Tight(TrimEnd(s))
  {
    if s != [] && IsSpace(s[|s| - 1]) {
      var n := |s| - 1;
      var c := TrimEndMeans(s[..n]);
      b := c + [s[n]];
      assert s == s[..n] + [s[n]];
    } else {
      b := [];
    }
  }

  /** Trimming takes space off both ends, all of it, and nothing else. */
  lemma {:induction false} TrimMeans(s: string) returns (a: string, b: string)
    ensures AllSpace(a) && AllSpace(b) && s == a + Trim(s) + b && Tight(Trim(s))
  {
    a := TrimStartMeans(s);
    b := TrimEndMeans(TrimStart(s));
  }

  /** The characters taken for space, one by one. */
  lemma {:induction false} SpaceIs(c: char)
    ensures IsSpace(c)
            <==> c in {'\t', '\n', '\U{0B}', '\U{0C}', '\r', ' ', '\U{85}', '\U{A0}', '\U{1680}', '\U{2000}',
                       '\U{2001}', '\U{2002}', '\U{2003}', '\U{2004}', '\U{2005}', '\U{2006}', '\U{2007}',
                       '\U{2008}', '\U{2009}', '\U{200A}', '\U{2028}', '\U{2029}', '\U{202F}', '\U{205F}',
                       '\U{3000}'}
  {
  }

  function LowerChar(c: char): char {
    if 'A' <= c <= 'Z' then (c as int + 32) as char else c
  }

  /** `str::to_ascii_lowercase`. */
  function Lower(s: string): (r: string)
    ensures |r| == |s|
  {
    seq(|s|, i requires 0 <= i < |s| => LowerChar(s[i]))
  }

  const CAPITALS: string := "ABCDEFGHIJKLMNOPQRSTUVWXYZ"
  const SMALL: string := "abcdefghijklmnopqrstuvwxyz"

  /** The 26 capitals become small, each its own; any other character stays. */
  lemma {:induction false} LowerIs(s: string, i: nat)
    requires i < |s|
    ensures |Lower(s)| == |s|
    ensures forall k :: 0 <= k < 26 && s[i] == CAPITALS[k] ==> Lower(s)[i] == SMALL[k]
    ensures s[i] !in CAPITALS ==> Lower(s)[i] == s[i]
  {
    assert |CAPITALS| == 26 && |SMALL| == 26;
    if 'A' <= s[i] <= 'Z' {
      assert CAPITALS[s[i] as int - 'A' as int] == s[i];
    }
  }

  predicate IsDigit(c: char) {
    '0' <= c <= '9'
  }

  predicate StartsWith(s: string, p: string) {
    |p| <= |s| && s[..|p|] == p
  }

  /** `str::strip_prefix(p).unwrap_or(s)`. */
  function StripPrefix(s: string, p: string): string {
    if StartsWith(s, p) then s[|p|..] else s
  }

  /** `{n}`: decimal digits without leading zeros. */
  function Decimal(n: nat): (s: string)
    ensures s != [] && AllDigits(s)
  {
    var digit := ('0' as int + n % 10) as char;
    if n < 10 then [digit] else Decimal(n / 10) + [digit]
  }

  function Pow10(k: nat): (p: nat)
    ensures p >= 1
  {
    if k == 0 then 1 else 10 * Pow10(k - 1)
  }

  function DigitOf(c: char): nat
    requires IsDigit(c)
  {
    c as int - '0' as int
  }

  predicate AllDigits(s: string) {
    forall i :: 0 <= i < |s| ==> IsDigit(s[i])
  }

  function DigitsValue(s: string): nat
    requires AllDigits(s)
  {
    if s == [] then 0 else 10 * DigitsValue(s[..|s| - 1]) + DigitOf(s[|s| - 1])
  }

  /** `str::parse::<u64>`: one leading plus sign is allowed, anything but digits after
      it is not, and the value must fit. */
  function ParseU64(s: string): Option<U64> {
    var digits := if |s| > 1 && s[0] == '+' then s[1..] else s;
    if digits == [] || !AllDigits(digits) then None
    else
      var n := DigitsValue(digits);
      if n < 0x1_0000_0000_0000_0000 then Some(n) else None
  }

  lemma {:induction false} DecimalValue(n: nat)
    ensures DigitsValue(Decimal(n)) == n
  {
    if n >= 10 {
      DecimalValue(n / 10);
      assert Decimal(n)[..|Decimal(n)| - 1] == Decimal(n / 10);
    }
  }

  lemma {:induction false} DecimalParses(n: U64)
    ensures ParseU64(Decimal(n)) == Some(n)
  {
    DecimalValue(n);
    assert IsDigit(Decimal(n)[0]);
  }

  /** A number is read from digits alone, after at most one plus sign: without its leading
      zeros the text is the number as it is printed. */
  lemma {:induction false} ParsedIsPrinted(s: string, n: U64) returns (sign: string, zeros: string)
    requires ParseU64(s) == Some(n)
    ensures sign in {"", "+"} && AllZeros(zeros)
    ensures s == sign + (zeros + Decimal(n)) || (n == 0 && s == sign + zeros)
  {
    sign := if |s| > 1 && s[0] == '+' then "+" else "";
    var digits := if |s| > 1 && s[0] == '+' then s[1..] else s;
    zeros := DigitsArePrinted(digits);
    assert s == sign + digits;
  }

  /** And every such text is read as that number. */
  lemma {:induction false} PrintedIsParsed(sign: string, zeros: string, n: U64)
    requires sign in {"", "+"} && AllZeros(zeros)
    ensures ParseU64(sign + (zeros + Decimal(n))) == Some(n)
  {
    var digits := zeros + Decimal(n);
    assert AllDigits(digits);
    ZerosAddNothing(zeros, Decimal(n));
    DecimalValue(n);
    if sign == "+" {
      assert (sign + digits)[1..] == digits;
    } else {
      assert sign + digits == digits && IsDigit(digits[0]);
    }
  }

  lemma {:induction false} ZerosAddNothing(zeros: string, s: string)
    requires AllZeros(zeros) && AllDigits(s)
    ensures AllDigits(zeros + s) && DigitsValue(zeros + s) == DigitsValue(s)
    decreases |s|, |zeros|
  {
    var t := zeros + s;
    if s != [] {
      var k := |s| - 1;
      ZerosAddNothing(zeros, s[..k]);
      assert t[..|t| - 1] == zeros + s[..k] && t[|t| - 1] == s[k];
    } else if zeros != [] {
      var k := |zeros| - 1;
      ZerosAddNothing(zeros[..k], s);
      assert t[..|t| - 1] == zeros[..k] + s && t[|t| - 1] == '0';
    }
  }

  predicate AllZeros(s: string) {
    forall i :: 0 <= i < |s| ==> s[i] == '0'
  }

  lemma {:induction false} DigitsArePrinted(s: string) returns (zeros: string)
    requires AllDigits(s)
    ensures AllZeros(zeros)
    ensures s == zeros + Decimal(DigitsValue(s)) || (DigitsValue(s) == 0 && s == zeros)
  {
    if s == [] {
      zeros := [];
    } else {
      var k := |s| - 1;
      var before, last := s[..k], s[k];
      zeros := DigitsArePrinted(before);
      assert s == before + [last];
      var v := DigitsValue(before);
      OneDigitMore(v, last);
      if v == 0 && before != zeros {
        assert Decimal(0) == "0";
        zeros := zeros + "0";
        assert before == zeros;
      }
    }
  }

  lemma {:induction false} OneDigitMore(v: nat, last: char)
    requires IsDigit(last)
    ensures Decimal(10 * v + DigitOf(last)) == if v == 0 then [last] else Decimal(v) + [last]
  {
  }

  lemma {:induction false} NotANumber(s: string)
    requires s != [] && !IsDigit(s[0]) && s[0] != '+'
    ensures ParseU64(s).None?
  {
    assert !AllDigits(s);
  }

  /** The base-256 big-endian digits of `n`, `k` of them; higher digits are dropped. */
  function BigEndian(n: nat, k: nat): (b: Bytes)
    ensures |b| == k
  {
    if k == 0 then [] else BigEndian(n / 256, k - 1) + [n % 256]
  }

  function FromBigEndian(b: Bytes): nat {
    if b == [] then 0 else FromBigEndian(b[..|b| - 1]) * 256 + b[|b| - 1]
  }

  function Pow256(k: nat): (p: nat)
    ensures p >= 1
  {
    if k == 0 then 1 else 256 * Pow256(k - 1)
  }

  /** Writing a number that fits in `k` bytes and reading it back is the identity. */
  lemma {:induction false} BigEndianRoundTrip(n: nat, k: nat)
    requires n < Pow256(k)
    ensures FromBigEndian(BigEndian(n, k)) == n
  {
    if k > 0 {
      BigEndianRoundTrip(n / 256, k - 1);
      assert BigEndian(n, k)[..k - 1] == BigEndian(n / 256, k - 1);
    }
  }

  lemma {:induction false} FromBigEndianLeadingZeros(z: nat, b: Bytes)
    ensures FromBigEndian(seq(z, i => 0) + b) == FromBigEndian(b)
    decreases |b|, z
  {
    var zeros: Bytes := seq(z, i => 0);
    if b == [] {
      if z > 0 {
        assert zeros + b == zeros;
        assert zeros[..z - 1] + b == seq(z - 1, i => 0) + b;
        FromBigEndianLeadingZeros(z - 1, b);
        assert (zeros + b)[..z - 1] == zeros[..z - 1] + b;
      }
    } else {
      FromBigEndianLeadingZeros(z, b[..|b| - 1]);
      assert (zeros + b)[..z + |b| - 1] == zeros + b[..|b| - 1];
    }
  }

  lemma {:induction false} Pow256Values()
    ensures Pow256(4) == 0x1_0000_0000
    ensures Pow256(8) == 0x1_0000_0000_0000_0000
  {
    assert Pow256(2) == 65536;
    assert Pow256(4) == 256 * (256 * Pow256(2));
    assert Pow256(6) == 256 * (256 * Pow256(4));
    assert Pow256(8) == 256 * (256 * Pow256(6));
  }
}
