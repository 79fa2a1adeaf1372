/** Token amounts as exact decimal text. */
module Units {
  import opened Basics

  function Zeros(n: nat): (s: string)
    ensures |s| == n && AllDigits(s)
  {
    seq(n, i => '0')
  }

  /** `trim_end_matches('0')`. */
  function TrimZeros(s: string): (r: string)
    ensures |r| <= |s| && r == s[..|r|] && s == r + Zeros(|s| - |r|)
    ensures r != [] ==> r[|r| - 1] != '0'
  {
    if s != [] && s[|s| - 1] == '0' then TrimZeros(s[..|s| - 1]) else s
  }

  /** The whole part, and the fraction with exactly `d` digits. */
  function Parts(amount: nat, d: nat): (p: (string, string)) {
    var s := Decimal(amount);
    if |s| > d then (s[..|s| - d], s[|s| - d..]) else ("0", Zeros(d - |s|) + s)
  }

  /** `format_units`. */
  function FormatUnits(amount: nat, d: nat): string {
    var (whole, fraction) := Parts(amount, d);
    var f := TrimZeros(fraction);
    if f == [] then whole else whole + "." + f
  }

  // ---- reading it back --------------------------------------------------

  function Dot(s: string): (i: nat)
    ensures i <= |s| && (forall k :: 0 <= k < i ==> s[k] != '.') && (i < |s| ==> s[i] == '.')
  {
    if s == [] || s[0] == '.' then 0 else 1 + Dot(s[1..])
  }

  function WholeOf(text: string): string {
    text[..Dot(text)]
  }

  function FractionOf(text: string): string {
    if Dot(text) == |text| then [] else text[Dot(text) + 1..]
  }

  /** Decimal text: digits, then perhaps a dot and at most `d` more, with no zero that
      says nothing. */
  predicate Canonical(text: string, d: nat) {
    var whole, f := WholeOf(text), FractionOf(text);
    && whole != [] && AllDigits(whole) && (|whole| > 1 ==> whole[0] != '0')
    && AllDigits(f) && |f| <= d
    && (Dot(text) < |text| ==> f != [] && f[|f| - 1] != '0')
  }

  /** The number of smallest units a text stands for. */
  function Amount(text: string, d: nat): nat
    requires Canonical(text, d)
  {
    DigitsValue(WholeOf(text)) * Pow10(d) + DigitsValue(FractionOf(text)) * Pow10(d - |FractionOf(text)|)
  }

  lemma {:induction false} DecimalHasNoLeadingZero(n: nat)
    ensures |Decimal(n)| > 1 ==> Decimal(n)[0] != '0'
    ensures n > 0 ==> Decimal(n)[0] != '0'
  {
    if n >= 10 {
      DecimalHasNoLeadingZero(n / 10);
      assert Decimal(n)[0] == Decimal(n / 10)[0];
    }
  }

  lemma {:induction false} PowerSum(a: nat, b: nat)
    ensures Pow10(a + b) == Pow10(a) * Pow10(b)
  {
    if a > 0 {
      PowerSum(a - 1, b);
    }
  }

  lemma {:induction false} TimesTen(x: nat, p: nat, v: nat)
    ensures 10 * (x * p + v) == x * (10 * p) + 10 * v
  {
  }

  lemma {:induction false} ValueConcat(a: string, b: string)
    requires AllDigits(a) && AllDigits(b)
    ensures AllDigits(a + b) && DigitsValue(a + b) == DigitsValue(a) * Pow10(|b|) + DigitsValue(b)
    decreases |b|
  {
    if b == [] {
      assert a + b == a;
    } else {
      var n := |b| - 1;
      var x, p, v := DigitsValue(a), Pow10(n), DigitsValue(b[..n]);
      ValueConcat(a, b[..n]);
      assert (a + b)[..|a + b| - 1] == a + b[..n];
      TimesTen(x, p, v);
    }
  }

  lemma {:induction false} ZerosAreNothing(n: nat)
    ensures DigitsValue(Zeros(n)) == 0
  {
    if n > 0 {
      assert Zeros(n)[..n - 1] == Zeros(n - 1);
      ZerosAreNothing(n - 1);
    }
  }

  lemma {:induction false} LeadingZeros(n: nat, s: string)
    requires AllDigits(s)
    ensures AllDigits(Zeros(n) + s) && DigitsValue(Zeros(n) + s) == DigitsValue(s)
    ensures forall p: nat :: DigitsValue("0") * p == 0
  {
    ValueConcat(Zeros(n), s);
    ZerosAreNothing(n);
    assert DigitsValue("0") == 0;
  }

  /** The parts hold the amount. */
  lemma {:induction false} PartsHold(amount: nat, d: nat)
    ensures var (whole, fraction) := Parts(amount, d);
            && AllDigits(whole) && AllDigits(fraction) && whole != [] && |fraction| == d
            && (|whole| > 1 ==> whole[0] != '0')
            && DigitsValue(whole) * Pow10(d) + DigitsValue(fraction) == amount
  {
    var s := Decimal(amount);
    DecimalValue(amount);
    DecimalHasNoLeadingZero(amount);
    if |s| > d {
      ValueConcat(s[..|s| - d], s[|s| - d..]);
      assert s == s[..|s| - d] + s[|s| - d..];
    } else {
      LeadingZeros(d - |s|, s);
    }
  }

  lemma {:induction false} DotAfter(a: string, b: string)
    requires AllDigits(a)
    ensures Dot(a + "." + b) == |a|
  {
    var t := a + "." + b;
    assert t[|a|] == '.';
    forall k | 0 <= k < |a| ensures t[k] != '.' { assert IsDigit(a[k]); }
  }

  lemma {:induction false} NoDot(a: string)
    requires AllDigits(a)
    ensures Dot(a) == |a|
  {
    var i := Dot(a);
    assert forall k :: 0 <= k < |a| ==> IsDigit(a[k]);
  }

  /** How the text splits again. */
  lemma {:induction false} TextParts(amount: nat, d: nat)
    ensures var (whole, fraction) := Parts(amount, d);
            WholeOf(FormatUnits(amount, d)) == whole && FractionOf(FormatUnits(amount, d)) == TrimZeros(fraction)
    ensures Dot(FormatUnits(amount, d)) < |FormatUnits(amount, d)| ==> TrimZeros(Parts(amount, d).1) != []
  {
    PartsHold(amount, d);
    var (whole, fraction) := Parts(amount, d);
    var f := TrimZeros(fraction);
    if f == [] {
      NoDot(whole);
    } else {
      DotAfter(whole, f);
    }
  }

  lemma {:induction false} TrimKeepsValue(fraction: string)
    requires AllDigits(fraction)
    ensures var f := TrimZeros(fraction);
            AllDigits(f) && DigitsValue(fraction) == DigitsValue(f) * Pow10(|fraction| - |f|)
  {
    var f := TrimZeros(fraction);
    ValueConcat(f, Zeros(|fraction| - |f|));
    ZerosAreNothing(|fraction| - |f|);
  }

  /** The text is canonical, and stands for exactly the amount. */
  lemma {:induction false} FormatIsExact(amount: nat, d: nat)
    ensures Canonical(FormatUnits(amount, d), d) && Amount(FormatUnits(amount, d), d) == amount
  {
    PartsHold(amount, d);
    TextParts(amount, d);
    TrimKeepsValue(Parts(amount, d).1);
  }

  /** Two amounts are never printed alike. */
  lemma {:induction false} FormatIsInjective(a: nat, b: nat, d: nat)
    requires FormatUnits(a, d) == FormatUnits(b, d)
    ensures a == b
  {
    FormatIsExact(a, d);
    FormatIsExact(b, d);
  }

  // ---- every canonical text is printed ----------------------------------

  lemma {:induction false} ValueFits(s: string)
    requires AllDigits(s)
    ensures DigitsValue(s) < Pow10(|s|)
  {
    if s != [] {
      ValueFits(s[..|s| - 1]);
    }
  }

  lemma {:induction false} SameDigits(a: string, b: string)
    requires AllDigits(a) && AllDigits(b) && |a| == |b| && DigitsValue(a) == DigitsValue(b)
    ensures a == b
  {
    if a != [] {
      var n := |a| - 1;
      SameDigits(a[..n], b[..n]);
      assert a == a[..n] + [a[n]] && b == b[..n] + [b[n]];
    }
  }

  lemma {:induction false} LeadingDigit(s: string)
    requires AllDigits(s) && s != [] && s[0] != '0'
    ensures Pow10(|s| - 1) <= DigitsValue(s)
  {
    if |s| > 1 {
      LeadingDigit(s[..|s| - 1]);
    } else {
      assert s[..0] == [];
    }
  }

  lemma {:induction false} PowersGrow(a: nat, b: nat)
    requires a <= b
    ensures Pow10(a) <= Pow10(b)
    decreases b
  {
    if a < b {
      PowersGrow(a, b - 1);
    }
  }

  /** Numerals without leading zeros are determined by their value. */
  lemma {:induction false} SameNumeral(a: string, b: string)
    requires AllDigits(a) && AllDigits(b) && a != [] && b != []
    requires (|a| > 1 ==> a[0] != '0') && (|b| > 1 ==> b[0] != '0')
    requires DigitsValue(a) == DigitsValue(b)
    ensures a == b
  {
    if |a| < |b| {
      Longer(a, b);
    } else if |b| < |a| {
      Longer(b, a);
    } else {
      SameDigits(a, b);
    }
  }

  lemma {:induction false} Longer(a: string, b: string)
    requires AllDigits(a) && AllDigits(b) && a != [] && |a| < |b| && b[0] != '0'
    ensures DigitsValue(a) < DigitsValue(b)
  {
    ValueFits(a);
    PowersGrow(|a|, |b| - 1);
    LeadingDigit(b);
  }

  lemma {:induction false} LessProduct(x: nat, f: nat, y: nat, p: nat)
    requires x < y && f < p
    ensures x * p + f < y * p
  {
    var more: nat := y - x - 1;
    Distributes(x, more, p);
  }

  lemma {:induction false} Distributes(x: nat, more: nat, p: nat)
    ensures (x + more + 1) * p == x * p + more * p + p && more * p >= 0
  {
  }

  lemma {:induction false} SameQuotient(x: nat, f: nat, y: nat, g: nat, p: nat)
    requires f < p && g < p && x * p + f == y * p + g
    ensures x == y && f == g
  {
    if x < y { LessProduct(x, f, y, p); }
    if y < x { LessProduct(y, g, x, p); }
  }

  lemma {:induction false} TrimIsUnique(f: string, n: nat)
    requires f != [] ==> f[|f| - 1] != '0'
    ensures TrimZeros(f + Zeros(n)) == f
  {
    if n > 0 {
      assert (f + Zeros(n))[..|f| + n - 1] == f + Zeros(n - 1);
      TrimIsUnique(f, n - 1);
    } else {
      assert f + Zeros(0) == f;
    }
  }

  /** Printing what a canonical text stands for gives the text back: amounts and
      canonical texts are in one-to-one correspondence. */
  lemma {:induction false} EveryCanonicalTextIsPrinted(text: string, d: nat)
    requires Canonical(text, d)
    ensures FormatUnits(Amount(text, d), d) == text
  {
    var whole, f := WholeOf(text), FractionOf(text);
    var full := f + Zeros(d - |f|);
    var amount := Amount(text, d);
    ValueConcat(f, Zeros(d - |f|));
    ZerosAreNothing(d - |f|);
    PartsHold(amount, d);
    var (whole', full') := Parts(amount, d);
    ValueFits(full);
    ValueFits(full');
    SameQuotient(DigitsValue(whole), DigitsValue(full), DigitsValue(whole'), DigitsValue(full'), Pow10(d));
    SameNumeral(whole, whole');
    SameDigits(full, full');
    TrimIsUnique(f, d - |f|);
    assert text == if f == [] then whole else whole + "." + f;
  }
}
