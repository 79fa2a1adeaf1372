/** Calldata: the hand-written encoders of the anchor, deploy and compile paths, each
    proved to be a selector followed by the standard encoding. */
module Calldata {
  import opened Basics
  import opened Abi
  import opened AbiDecode
  import Hex
  import Utf8

  /** keccak256, and the first four bytes of a signature's hash. */
  type Keccak = Bytes -> Word

  function Selector(K: Keccak, signature: string): (s: Bytes)
    ensures |s| == 4
  {
    K(Utf8.Encode(signature))[..4]
  }

  // ---- hexadecimal numbers ----------------------------------------------

  /** `{n:x}`. */
  function HexDigits(n: nat): (s: string)
    ensures s != []
  {
    if n < 16 then [Hex.DigitOf(n)] else HexDigits(n / 16) + [Hex.DigitOf(n % 16)]
  }

  /** `{s:0>64}`: zeros on the left, never cut. */
  function PadLeft(s: string, width: nat): string {
    if |s| < width then seq(width - |s|, i => '0') + s else s
  }

  /** `{n:064x}`. */
  function HexNumber(n: nat): string {
    PadLeft(HexDigits(n), 64)
  }

  /** The last `m` hex digits of `n`. */
  function LastDigits(n: nat, m: nat): (s: string)
    ensures |s| == m
  {
    if m == 0 then [] else LastDigits(n / 16, m - 1) + [Hex.DigitOf(n % 16)]
  }

  lemma {:induction false} ZeroDigits(m: nat)
    ensures LastDigits(0, m) == seq(m, i => '0')
  {
    if m > 0 {
      ZeroDigits(m - 1);
    }
  }

  function Pow16(m: nat): (p: nat)
    ensures p >= 1
  {
    if m == 0 then 1 else 16 * Pow16(m - 1)
  }

  lemma {:induction false} DigitsAreLast(n: nat, m: nat)
    requires m > 0 && n < Pow16(m)
    ensures |HexDigits(n)| <= m && PadLeft(HexDigits(n), m) == LastDigits(n, m)
  {
    if n < 16 {
      ZeroDigits(m - 1);
      assert PadLeft(HexDigits(n), m) == LastDigits(0, m - 1) + [Hex.DigitOf(n)];
    } else {
      DigitsAreLast(n / 16, m - 1);
    }
  }

  lemma {:induction false} RawOfNumber(n: nat, k: nat)
    ensures Hex.Raw(BigEndian(n, k)) == LastDigits(n, 2 * k)
  {
    if k > 0 {
      RawOfNumber(n / 256, k - 1);
      var low: Bytes := [n % 256];
      Hex.RawConcat(BigEndian(n / 256, k - 1), low);
      assert low[1..] == [];
      assert n / 256 == n / 16 / 16 && n % 256 / 16 == n / 16 % 16 && n % 256 % 16 == n % 16;
    }
  }

  lemma {:induction false} RawOfZeros(k: nat)
    ensures Hex.Raw(Abi.Zeros(k)) == seq(2 * k, i => '0')
  {
    if k > 0 {
      assert Abi.Zeros(k)[1..] == Abi.Zeros(k - 1);
      RawOfZeros(k - 1);
    }
  }

  lemma {:induction false} PowersMeet()
    ensures Pow16(16) == TOP
  {
    assert Pow16(4) == 65536;
    assert Pow16(8) == 16 * (16 * (16 * (16 * Pow16(4))));
    assert Pow16(12) == 16 * (16 * (16 * (16 * Pow16(8))));
    assert Pow16(16) == 16 * (16 * (16 * (16 * Pow16(12))));
  }

  /** A number printed in 64 hex digits is the hex of its word. */
  lemma {:induction false} NumberIsWord(n: U64)
    ensures HexNumber(n) == Hex.Raw(WordOf(n))
  {
    PowersMeet();
    DigitsAreLast(n, 16);
    RawOfNumber(n, 8);
    Hex.RawConcat(Abi.Zeros(24), BigEndian(n, 8));
    RawOfZeros(24);
    PadInTwo(HexDigits(n), 48, 16);
  }

  lemma {:induction false} PadInTwo(d: string, more: nat, width: nat)
    requires |d| <= width
    ensures PadLeft(d, more + width) == seq(more, i => '0') + PadLeft(d, width)
  {
    assert PadLeft(d, more + width) == seq(more, i => '0') + PadLeft(d, width);
  }

  // ---- words given as text ----------------------------------------------

  predicate LowHex(c: char) {
    '0' <= c <= '9' || 'a' <= c <= 'f'
  }

  predicate AllLowHex(s: string) {
    forall i :: 0 <= i < |s| ==> LowHex(s[i])
  }

  /** `word_hex`: a word as 64 digits, from prefixed or bare text. */
  function WordHex(v: string): (s: string)
    ensures |s| >= 64
  {
    PadLeft(StripPrefix(v, "0x"), 64)
  }

  /** The text of a word: at most 64 lower-case hex digits. */
  predicate WordText(v: string) {
    |StripPrefix(v, "0x")| <= 64 && AllLowHex(StripPrefix(v, "0x"))
  }

  lemma {:induction false} RawIsLowHex(b: Bytes)
    ensures AllLowHex(Hex.Raw(b))
  {
    if b != [] {
      RawIsLowHex(b[1..]);
    }
  }

  lemma {:induction false} TwoDigits(h: int, l: int)
    requires 0 <= h < 16 && 0 <= l < 16
    ensures (16 * h + l) / 16 == h && (16 * h + l) % 16 == l
  {
  }

  lemma {:induction false} LowDigit(c: char)
    requires LowHex(c)
    ensures c != '+' && Hex.DigitValue(c).Some? && Hex.DigitOf(Hex.DigitValue(c).value) == c
  {
  }

  lemma {:induction false} ReadsPair(a: char, b: char, h: int, l: int)
    requires a != '+' && Hex.DigitValue(a) == Some(h) && Hex.DigitValue(b) == Some(l)
    ensures Hex.ReadPair(a, b) == Some(16 * h + l)
  {
  }

  lemma {:induction false} LowPair(a: char, b: char)
    requires LowHex(a) && LowHex(b)
    ensures Hex.ReadPair(a, b).Some?
    ensures var v := Hex.ReadPair(a, b).value; Hex.DigitOf(v / 16) == a && Hex.DigitOf(v % 16) == b
  {
    LowDigit(a);
    LowDigit(b);
    var h, l := Hex.DigitValue(a).value, Hex.DigitValue(b).value;
    TwoDigits(h, l);
    ReadsPair(a, b, h, l);
  }

  lemma {:induction false} LowHexIsRaw(s: string, k: nat)
    requires |s| == 2 * k && AllLowHex(s)
    ensures |Hex.ReadBytes(s, k)| == k && Hex.Raw(Hex.ReadBytes(s, k)) == s
  {
    if k > 0 {
      LowHexIsRaw(s[2..], k - 1);
      LowPair(s[0], s[1]);
      var r := Hex.ReadBytes(s, k);
      assert r[0] == Hex.ReadPair(s[0], s[1]).value;
      assert r[1..] == Hex.ReadBytes(s[2..], k - 1);
      assert s == [s[0], s[1]] + s[2..];
    }
  }

  /** The padded text is the hex of some word exactly when the text is a word's. */
  lemma {:induction false} WordHexIsAWord(v: string)
    ensures (exists w: Word :: WordHex(v) == Hex.Raw(w)) <==> WordText(v)
  {
    var s := StripPrefix(v, "0x");
    if WordText(v) {
      LowHexIsRaw(WordHex(v), 32);
      var w: Word := Hex.ReadBytes(WordHex(v), 32);
      assert WordHex(v) == Hex.Raw(w);
    }
    if w: Word :| WordHex(v) == Hex.Raw(w) {
      RawIsLowHex(w);
      forall i | 0 <= i < |s| ensures LowHex(s[i]) {
        assert s[i] == WordHex(v)[64 - |s| + i];
      }
    }
  }

  // ---- text against encoding --------------------------------------------

  function Join(texts: seq<string>): string {
    if texts == [] then [] else Join(texts[..|texts| - 1]) + texts[|texts| - 1]
  }

  function RawHeads(args: seq<Arg>): (r: seq<string>)
    ensures |r| == |args|
  {
    seq(|args|, i requires 0 <= i < |args| => Hex.Raw(Head(args, i)))
  }

  lemma {:induction false} JoinIsRaw(ws: seq<Word>, texts: seq<string>)
    requires |texts| == |ws| && forall i :: 0 <= i < |ws| ==> texts[i] == Hex.Raw(ws[i])
    ensures Join(texts) == Hex.Raw(Concat(ws))
  {
    if ws != [] {
      var n := |ws| - 1;
      JoinIsRaw(ws[..n], texts[..n]);
      Hex.RawConcat(Concat(ws[..n]), ws[n]);
    }
  }

  lemma {:induction false} JoinIsLong(texts: seq<string>)
    requires forall i :: 0 <= i < |texts| ==> |texts[i]| >= 64
    ensures |Join(texts)| >= 64 * |texts|
  {
    if texts != [] {
      JoinIsLong(texts[..|texts| - 1]);
    }
  }

  lemma {:induction false} JoinSplits(xs: seq<string>, ys: seq<string>)
    requires |xs| == |ys| && Join(xs) == Join(ys)
    requires forall i :: 0 <= i < |xs| ==> |xs[i]| >= 64 && |ys[i]| == 64
    ensures xs == ys
  {
    if xs != [] {
      var n := |xs| - 1;
      JoinIsLong(xs[..n]);
      JoinLength(ys[..n]);
      assert |xs[n]| == 64;
      assert Join(xs)[|Join(xs)| - 64..] == xs[n] && Join(ys)[|Join(ys)| - 64..] == ys[n];
      assert Join(xs)[..|Join(xs)| - 64] == Join(xs[..n]) && Join(ys)[..|Join(ys)| - 64] == Join(ys[..n]);
      JoinSplits(xs[..n], ys[..n]);
      assert xs == xs[..n] + [xs[n]] && ys == ys[..n] + [ys[n]];
    }
  }

  lemma {:induction false} JoinLength(texts: seq<string>)
    requires forall i :: 0 <= i < |texts| ==> |texts[i]| == 64
    ensures |Join(texts)| == 64 * |texts|
  {
    if texts != [] {
      JoinLength(texts[..|texts| - 1]);
    }
  }

  /** Printed heads followed by the hex of the tails are the hex of the encoding exactly
      when every head text is the hex of its head word. */
  lemma {:induction false} HeadsAreAbi(texts: seq<string>, args: seq<Arg>)
    requires |texts| == |args| && forall i :: 0 <= i < |texts| ==> |texts[i]| >= 64
    ensures Join(texts) + Hex.Raw(Tails(args, |args|)) == Hex.Raw(Encoding(args)) <==> texts == RawHeads(args)
  {
    var heads, tail := RawHeads(args), Hex.Raw(Tails(args, |args|));
    JoinIsRaw(Heads(args), heads);
    Hex.RawConcat(Concat(Heads(args)), Tails(args, |args|));
    var a, b := Join(texts) + tail, Join(heads) + tail;
    assert b == Hex.Raw(Encoding(args));
    if a == b {
      assert a[..|a| - |tail|] == Join(texts) && b[..|b| - |tail|] == Join(heads);
      JoinSplits(texts, heads);
    }
  }

  /** `pad_bytes`: the hex of the payload, then one digit at a time to a full word. */
  method PadBytes(b: Bytes) returns (s: string)
    ensures s == Hex.Raw(b + Abi.Zeros(Padding(|b|)))
  {
    s := [];
    for i := 0 to |b|
      invariant s == Hex.Raw(b[..i])
    {
      var one: Bytes := [b[i]];
      Hex.RawConcat(b[..i], one);
      assert one[1..] == [] && b[..i + 1] == b[..i] + one;
      s := s + [Hex.DigitOf(b[i] / 16), Hex.DigitOf(b[i] % 16)];
    }
    assert b[..|b|] == b;
    ghost var j := 0;
    while |s| % 64 != 0
      invariant j <= 2 * Padding(|b|) && s == Hex.Raw(b) + seq(j, i => '0')
      decreases 2 * Padding(|b|) - j
    {
      DigitsPadWord(|b|, 2 * Padding(|b|));
      s := s + ['0'];
      j := j + 1;
    }
    DigitsPadWord(|b|, j);
    Hex.RawConcat(b, Abi.Zeros(Padding(|b|)));
    RawOfZeros(Padding(|b|));
  }

  lemma {:induction false} DigitsPadWord(n: nat, j: nat)
    requires j <= 2 * Padding(n)
    ensures (2 * n + j) % 64 == 0 <==> j == 2 * Padding(n)
  {
  }

  lemma {:induction false} RawOfTail(b: Bytes)
    requires |b| < TOP
    ensures Hex.Raw(Tail(StrArg(b))) == HexNumber(|b|) + Hex.Raw(b + Abi.Zeros(Padding(|b|)))
  {
    var n, padded := |b|, b + Abi.Zeros(Padding(|b|));
    NumberIsWord(n);
    assert Tail(StrArg(b)) == WordOf(n) + padded;
    Hex.RawConcat(WordOf(n), padded);
  }
}
