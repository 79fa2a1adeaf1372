/** The classification scan of an ingested document, over its UTF-8 bytes. */
module Marking {
  import opened Basics
  import opened Policy

  function UpperByte(b: Byte): Byte {
    if 0x61 <= b <= 0x7A then b - 32 else b
  }

  /** `to_ascii_uppercase`. */
  function Upper(t: Bytes): (r: Bytes)
    ensures |r| == |t|
  {
    seq(|t|, i requires 0 <= i < |t| => UpperByte(t[i]))
  }

  /** The bytes of an ASCII literal. */
  function Ascii(s: string): (r: Bytes)
    ensures |r| == |s|
  {
    seq(|s|, i requires 0 <= i < |s| => s[i] as int % 256)
  }

  /** Neither an ASCII letter or digit nor an underscore. */
  predicate Boundary(b: Byte) {
    !(0x30 <= b <= 0x39 || 0x41 <= b <= 0x5A || 0x61 <= b <= 0x7A || b == 0x5F)
  }

  const DIGITS: string := "0123456789"

  /** A word is made of ASCII letters, digits and underscores; any other byte bounds it. */
  lemma {:induction false} BoundaryIs(b: Byte)
    ensures Boundary(b)
            <==> b != '_' as int && (forall k :: 0 <= k < 10 ==> DIGITS[k] as int != b)
                 && (forall k :: 0 <= k < 26 ==> CAPITALS[k] as int != b) && (forall k :: 0 <= k < 26 ==> SMALL[k] as int != b)
  {
    assert |CAPITALS| == 26 && |SMALL| == 26 && |DIGITS| == 10;
    if 0x41 <= b <= 0x5A {
      assert CAPITALS[b - 0x41] as int == b;
    } else if 0x61 <= b <= 0x7A {
      assert SMALL[b - 0x61] as int == b;
    } else if 0x30 <= b <= 0x39 {
      assert DIGITS[b - 0x30] as int == b;
    }
  }

  /** The small ASCII letters become capital, each its own; any other byte stays. */
  lemma {:induction false} UpperIs(t: Bytes, i: nat)
    requires i < |t|
    ensures forall k :: 0 <= k < 26 && t[i] == SMALL[k] as int ==> Upper(t)[i] == CAPITALS[k] as int
    ensures (forall k :: 0 <= k < 26 ==> t[i] != SMALL[k] as int) ==> Upper(t)[i] == t[i]
  {
    assert |SMALL| == 26 && |CAPITALS| == 26;
    if 0x61 <= t[i] <= 0x7A {
      assert SMALL[t[i] - 0x61] as int == t[i];
    }
  }

  /** The phrase stands at `i`, delimited on both sides. */
  predicate OccursAt(text: Bytes, phrase: Bytes, i: nat) {
    && i + |phrase| <= |text| && text[i..i + |phrase|] == phrase
    && (i == 0 || Boundary(text[i - 1]))
    && (i + |phrase| == |text| || Boundary(text[i + |phrase|]))
  }

  ghost predicate HasWord(text: Bytes, phrase: Bytes) {
    phrase != [] && exists i: nat :: OccursAt(text, phrase, i)
  }

  method ContainsWord(text: Bytes, phrase: Bytes) returns (found: bool)
    ensures found <==> HasWord(text, phrase)
  {
    if phrase == [] || |phrase| > |text| { return false; }
    var i := 0;
    while i + |phrase| <= |text|
      invariant 0 <= i
      invariant forall k: nat :: k < i ==> !OccursAt(text, phrase, k)
      decreases |text| - i
    {
      if text[i..i + |phrase|] == phrase {
        var before := i == 0 || Boundary(text[i - 1]);
        var after := i + |phrase| == |text| || Boundary(text[i + |phrase|]);
        if before && after {
          assert OccursAt(text, phrase, i);
          return true;
        }
      }
      i := i + 1;
    }
    found := false;
  }

  // ---- the scan ---------------------------------------------------------

  datatype Entry = Entry(phrase: Bytes, level: Classification)

  type Table = seq<Entry>

  /** Longest phrase first. */
  function Markings(): Table {
    [Entry(Ascii("CONTROLLED UNCLASSIFIED INFORMATION"), Cui),
     Entry(Ascii("APPROVED FOR PUBLIC RELEASE"), Public),
     Entry(Ascii("COMPANY CONFIDENTIAL"), Proprietary),
     Entry(Ascii("EXPORT-CONTROLLED"), Itar),
     Entry(Ascii("EXPORT CONTROLLED"), Itar),
     Entry(Ascii("PUBLIC RELEASE"), Public),
     Entry(Ascii("UNCLASSIFIED"), Public),
     Entry(Ascii("CONFIDENTIAL"), Proprietary),
     Entry(Ascii("PROPRIETARY"), Proprietary),
     Entry(Ascii("ITAR"), Itar),
     Entry(Ascii("CUI"), Cui)]
  }

  ghost predicate Matches(text: Bytes, e: Entry) {
    HasWord(Upper(text), e.phrase)
  }

  /** The k-th entry matches, nothing that matches is above it, and no earlier one is
      at its level. */
  ghost predicate IsBest(table: Table, text: Bytes, k: nat) {
    && k < |table| && Matches(text, table[k])
    && (forall j :: 0 <= j < |table| && Matches(text, table[j]) ==> Rank(table[j].level) <= Rank(table[k].level))
    && (forall j :: 0 <= j < k && Matches(text, table[j]) ==> Rank(table[j].level) < Rank(table[k].level))
  }

  ghost predicate Unmarked(table: Table, text: Bytes) {
    forall j :: 0 <= j < |table| ==> !Matches(text, table[j])
  }

  /** One more entry: it takes over exactly if it matches at a higher level. */
  lemma {:induction false} BestSoFar(table: Table, text: Bytes, k: nat, e: Entry)
    requires IsBest(table, text, k)
    ensures if Matches(text, e) && Rank(e.level) > Rank(table[k].level) then IsBest(table + [e], text, |table|)
            else IsBest(table + [e], text, k)
  {
  }

  method DetectMarking(table: Table, text: Bytes) returns (best: Option<Entry>)
    ensures best.None? <==> Unmarked(table, text)
    ensures best.Some? ==> exists k: nat :: IsBest(table, text, k) && table[k] == best.value
  {
    var upper := Upper(text);
    best := None;
    ghost var at: nat := 0;
    for i := 0 to |table|
      invariant best.None? <==> forall j :: 0 <= j < i ==> !Matches(text, table[j])
      invariant best.Some? ==> IsBest(table[..i], text, at) && table[at] == best.value
    {
      assert table[..i + 1] == table[..i] + [table[i]];
      var found := ContainsWord(upper, table[i].phrase);
      if best.Some? {
        BestSoFar(table[..i], text, at, table[i]);
      }
      if found && (best.None? || Rank(table[i].level) > Rank(best.value.level)) {
        best := Some(table[i]);
        at := i;
      }
    }
    assert table[..|table|] == table;
  }

  /** The level of a text: one above the highest rank that matches, or 0 for none. */
  ghost predicate HasLevel(table: Table, text: Bytes, level: nat) {
    && (forall j :: 0 <= j < |table| && Matches(text, table[j]) ==> Rank(table[j].level) < level)
    && (level > 0 ==> exists j :: 0 <= j < |table| && Matches(text, table[j]) && Rank(table[j].level) == level - 1)
  }

  lemma {:induction false} LevelIsUnique(table: Table, text: Bytes, m: nat, n: nat)
    requires HasLevel(table, text, m) && HasLevel(table, text, n)
    ensures m == n
  {
  }

  /** The scan's answer is the level. */
  lemma {:induction false} BestHasLevel(table: Table, text: Bytes, k: nat)
    requires IsBest(table, text, k)
    ensures HasLevel(table, text, Rank(table[k].level) + 1)
  {
  }

  /** Any table with the same entries, in whatever order and however often, gives the
      same level. */
  lemma {:induction false} OrderDoesNotMatter(t: Table, u: Table, text: Bytes, level: nat)
    requires forall e :: e in t <==> e in u
    requires HasLevel(t, text, level)
    ensures HasLevel(u, text, level)
  {
    forall j | 0 <= j < |u| && Matches(text, u[j]) ensures Rank(u[j].level) < level {
      assert u[j] in t;
    }
    if level > 0 {
      var j :| 0 <= j < |t| && Matches(text, t[j]) && Rank(t[j].level) == level - 1;
      assert t[j] in u;
    }
  }

  // ---- texts joined by a newline ----------------------------------------

  const NEWLINE: Byte := 0x0A

  predicate OneLine(phrase: Bytes) {
    NEWLINE !in phrase
  }

  function Joined(a: Bytes, b: Bytes): Bytes {
    a + [NEWLINE] + b
  }

  lemma {:induction false} UpperJoined(a: Bytes, b: Bytes)
    ensures Upper(Joined(a, b)) == Joined(Upper(a), Upper(b))
  {
  }

  lemma {:induction false} InFirst(a: Bytes, b: Bytes, p: Bytes, i: nat)
    requires OccursAt(a, p, i)
    ensures OccursAt(Joined(a, b), p, i)
  {
    assert Joined(a, b)[i..i + |p|] == a[i..i + |p|];
  }

  lemma {:induction false} InSecond(a: Bytes, b: Bytes, p: Bytes, i: nat)
    requires OccursAt(b, p, i)
    ensures OccursAt(Joined(a, b), p, |a| + 1 + i)
  {
    var k := |a| + 1 + i;
    assert Joined(a, b)[k..k + |p|] == b[i..i + |p|];
  }

  /** A phrase laid over the join would hold the newline. */
  lemma {:induction false} NotAcross(a: Bytes, b: Bytes, p: Bytes, i: nat)
    requires OccursAt(Joined(a, b), p, i) && OneLine(p)
    ensures !(i <= |a| < i + |p|)
  {
    if i <= |a| < i + |p| {
      NewlineInside(a, b, p, i);
    }
  }

  lemma {:induction false} NewlineInside(a: Bytes, b: Bytes, p: Bytes, i: nat)
    requires OccursAt(Joined(a, b), p, i) && i <= |a| < i + |p|
    ensures NEWLINE in p
  {
    var ab := Joined(a, b);
    assert p[|a| - i] == ab[i..i + |p|][|a| - i] == ab[|a|];
  }

  lemma {:induction false} InOne(a: Bytes, b: Bytes, p: Bytes, i: nat)
    requires p != [] && OneLine(p) && OccursAt(Joined(a, b), p, i)
    ensures if i < |a| then OccursAt(a, p, i) else i > |a| && OccursAt(b, p, i - |a| - 1)
  {
    var ab := Joined(a, b);
    NotAcross(a, b, p, i);
    if i < |a| {
      assert a[i..i + |p|] == ab[i..i + |p|];
    } else {
      var k := i - |a| - 1;
      assert b[k..k + |p|] == ab[i..i + |p|];
    }
  }

  /** A one-line phrase stands in the joined text exactly when it stands in a part. */
  lemma {:induction false} WordInJoined(a: Bytes, b: Bytes, p: Bytes)
    requires OneLine(p)
    ensures HasWord(Joined(a, b), p) <==> HasWord(a, p) || HasWord(b, p)
  {
    if p != [] {
      if i: nat :| OccursAt(a, p, i) { InFirst(a, b, p, i); }
      if i: nat :| OccursAt(b, p, i) { InSecond(a, b, p, i); }
      if i: nat :| OccursAt(Joined(a, b), p, i) { InOne(a, b, p, i); }
    }
  }

  lemma {:induction false} MatchesJoined(a: Bytes, b: Bytes, e: Entry)
    requires OneLine(e.phrase)
    ensures Matches(Joined(a, b), e) <==> Matches(a, e) || Matches(b, e)
  {
    UpperJoined(a, b);
    WordInJoined(Upper(a), Upper(b), e.phrase);
  }

  predicate OneLiners(table: Table) {
    forall j :: 0 <= j < |table| ==> OneLine(table[j].phrase)
  }

  /** Joining two texts takes the higher of their levels: a line added anywhere never
      lowers a classification. */
  lemma {:induction false} JoinedLevel(table: Table, a: Bytes, b: Bytes, m: nat, n: nat)
    requires OneLiners(table) && HasLevel(table, a, m) && HasLevel(table, b, n)
    ensures HasLevel(table, Joined(a, b), if m < n then n else m)
  {
    forall j | 0 <= j < |table|
      ensures Matches(Joined(a, b), table[j]) <==> Matches(a, table[j]) || Matches(b, table[j])
    {
      MatchesJoined(a, b, table[j]);
    }
  }

  // ---- this table -------------------------------------------------------

  predicate Printable(s: string) {
    forall i :: 0 <= i < |s| ==> 0x20 <= s[i] as int < 0x7F
  }

  lemma {:induction false} AsciiIsOneLine(s: string)
    requires Printable(s)
    ensures OneLine(Ascii(s))
  {
    forall i | 0 <= i < |s| ensures Ascii(s)[i] != NEWLINE {
      assert Ascii(s)[i] == s[i] as int;
    }
  }

  lemma {:induction false} LongPhrases()
    ensures OneLiners(Markings()[..3])
  {
    AsciiIsOneLine("CONTROLLED UNCLASSIFIED INFORMATION");
    AsciiIsOneLine("APPROVED FOR PUBLIC RELEASE");
    AsciiIsOneLine("COMPANY CONFIDENTIAL");
  }

  lemma {:induction false} MiddlePhrases()
    ensures OneLiners(Markings()[3..6])
  {
    AsciiIsOneLine("EXPORT-CONTROLLED");
    AsciiIsOneLine("EXPORT CONTROLLED");
    AsciiIsOneLine("PUBLIC RELEASE");
  }

  lemma {:induction false} ShortPhrases()
    ensures OneLiners(Markings()[6..])
  {
    AsciiIsOneLine("UNCLASSIFIED");
    AsciiIsOneLine("CONFIDENTIAL");
    AsciiIsOneLine("PROPRIETARY");
    AsciiIsOneLine("ITAR");
    AsciiIsOneLine("CUI");
  }

  lemma {:induction false} MarkingsAreOneLiners()
    ensures OneLiners(Markings())
  {
    LongPhrases();
    MiddlePhrases();
    ShortPhrases();
    var t := Markings();
    forall j | 0 <= j < |t| ensures OneLine(t[j].phrase) {
      assert if j < 3 then t[..3][j] == t[j] else if j < 6 then t[3..6][j - 3] == t[j] else t[6..][j - 6] == t[j];
    }
  }

  predicate LongestFirst(table: Table) {
    forall i, j :: 0 <= i < j < |table| ==> |table[i].phrase| >= |table[j].phrase|
  }

  lemma {:induction false} MarkingsAreLongestFirst()
    ensures LongestFirst(Markings())
  {
  }

  /** So the phrase reported is a longest of those that match at the level reported. */
  lemma {:induction false} ReportsTheLongest(table: Table, text: Bytes, k: nat, j: nat)
    requires LongestFirst(table) && IsBest(table, text, k)
    requires j < |table| && Matches(text, table[j]) && table[j].level == table[k].level
    ensures |table[j].phrase| <= |table[k].phrase|
  {
  }

  /** What the scan returns for a text: the entry of the table, or nothing. */
  ghost predicate Scans(text: Bytes, r: Option<nat>) {
    match r
    case None => Unmarked(Markings(), text)
    case Some(k) => IsBest(Markings(), text, k)
  }

  function ScanLevel(r: Option<nat>): nat
    requires r.Some? ==> r.value < |Markings()|
  {
    if r.None? then 0 else Rank(Markings()[r.value].level) + 1
  }

  /** The level reported is the one level the text has, and the phrase reported is a
      longest of those the text carries at that level. */
  lemma {:induction false} ScanMeans(text: Bytes, r: Option<nat>, level: nat)
    requires Scans(text, r)
    ensures HasLevel(Markings(), text, level) <==> level == ScanLevel(r)
    ensures forall j :: r.Some? && 0 <= j < |Markings()| && Matches(text, Markings()[j])
                        && Markings()[j].level == Markings()[r.value].level ==>
                          |Markings()[j].phrase| <= |Markings()[r.value].phrase|
  {
    var t := Markings();
    if r.Some? {
      BestHasLevel(t, text, r.value);
      MarkingsAreLongestFirst();
      forall j | 0 <= j < |t| && Matches(text, t[j]) && t[j].level == t[r.value].level
        ensures |t[j].phrase| <= |t[r.value].phrase|
      {
        ReportsTheLongest(t, text, r.value, j);
      }
    } else {
      assert HasLevel(t, text, 0);
    }
    if HasLevel(t, text, level) {
      LevelIsUnique(t, text, level, ScanLevel(r));
    }
  }

  /** The text carries one of these phrases, in any case, as a word of its own. */
  ghost predicate Carries(text: Bytes, phrases: set<string>) {
    exists p | p in phrases :: HasWord(Upper(text), Ascii(p))
  }

  /** What each level is read from: export control first, then CUI, then company markings,
      then public release; and nothing from any other text. */
  lemma {:induction false} LevelsAreReadFrom(text: Bytes, r: Option<nat>)
    requires Scans(text, r)
    ensures var itar := Carries(text, {"EXPORT-CONTROLLED", "EXPORT CONTROLLED", "ITAR"});
            var cui := Carries(text, {"CONTROLLED UNCLASSIFIED INFORMATION", "CUI"});
            var proprietary := Carries(text, {"COMPANY CONFIDENTIAL", "CONFIDENTIAL", "PROPRIETARY"});
            var public := Carries(text, {"APPROVED FOR PUBLIC RELEASE", "PUBLIC RELEASE", "UNCLASSIFIED"});
            && (r.Some? <==> itar || cui || proprietary || public)
            && (r.Some? ==>
                  Markings()[r.value].level
                  == if itar then Itar else if cui then Cui else if proprietary then Proprietary else Public)
  {
    ControlledPhrases(text);
    CompanyPhrases(text);
    PublicPhrases(text);
    if r.Some? {
      HighestOfFour(text, r.value);
    } else {
      NoneOfFour(text);
    }
  }

  /** Some entry of the table at this level matches. */
  ghost predicate MatchesAt(text: Bytes, level: Classification) {
    exists j :: 0 <= j < |Markings()| && Markings()[j].level == level && Matches(text, Markings()[j])
  }

  lemma {:induction false} HighestOfFour(text: Bytes, k: nat)
    requires IsBest(Markings(), text, k)
    ensures Markings()[k].level == if MatchesAt(text, Itar) then Itar else if MatchesAt(text, Cui) then Cui
                                   else if MatchesAt(text, Proprietary) then Proprietary else Public
    ensures MatchesAt(text, Markings()[k].level)
  {
  }

  lemma {:induction false} NoneOfFour(text: Bytes)
    requires Unmarked(Markings(), text)
    ensures forall level :: !MatchesAt(text, level)
  {
  }

  lemma {:induction false} ControlledPhrases(text: Bytes)
    ensures Carries(text, {"EXPORT-CONTROLLED", "EXPORT CONTROLLED", "ITAR"}) <==> MatchesAt(text, Itar)
    ensures Carries(text, {"CONTROLLED UNCLASSIFIED INFORMATION", "CUI"}) <==> MatchesAt(text, Cui)
  {
    CarriesThree(text, Itar, 3, 4, 9, "EXPORT-CONTROLLED", "EXPORT CONTROLLED", "ITAR");
    CarriesThree(text, Cui, 0, 10, 10, "CONTROLLED UNCLASSIFIED INFORMATION", "CUI", "CUI");
    assert {"CONTROLLED UNCLASSIFIED INFORMATION", "CUI", "CUI"} == {"CONTROLLED UNCLASSIFIED INFORMATION", "CUI"};
  }

  lemma {:induction false} CompanyPhrases(text: Bytes)
    ensures Carries(text, {"COMPANY CONFIDENTIAL", "CONFIDENTIAL", "PROPRIETARY"}) <==> MatchesAt(text, Proprietary)
  {
    CarriesThree(text, Proprietary, 2, 7, 8, "COMPANY CONFIDENTIAL", "CONFIDENTIAL", "PROPRIETARY");
  }

  lemma {:induction false} PublicPhrases(text: Bytes)
    ensures Carries(text, {"APPROVED FOR PUBLIC RELEASE", "PUBLIC RELEASE", "UNCLASSIFIED"}) <==> MatchesAt(text, Public)
  {
    CarriesThree(text, Public, 1, 5, 6, "APPROVED FOR PUBLIC RELEASE", "PUBLIC RELEASE", "UNCLASSIFIED");
  }

  lemma {:induction false} CarriesThree(text: Bytes, level: Classification, i: nat, j: nat, k: nat, x: string, y: string, z: string)
    requires i < 11 && j < 11 && k < 11
    requires Markings()[i] == Entry(Ascii(x), level) && Markings()[j] == Entry(Ascii(y), level)
             && Markings()[k] == Entry(Ascii(z), level)
    requires forall n :: 0 <= n < 11 && Markings()[n].level == level ==> n in {i, j, k}
    ensures Carries(text, {x, y, z}) <==> MatchesAt(text, level)
  {
    if MatchesAt(text, level) {
      var n :| 0 <= n < 11 && Markings()[n].level == level && Matches(text, Markings()[n]);
      CarriesOne(text, {x, y, z}, if n == i then x else if n == j then y else z);
    }
    if p :| p in {x, y, z} && HasWord(Upper(text), Ascii(p)) {
      var n := if p == x then i else if p == y then j else k;
      assert Matches(text, Markings()[n]);
    }
  }

  lemma {:induction false} CarriesOne(text: Bytes, phrases: set<string>, p: string)
    requires p in phrases && HasWord(Upper(text), Ascii(p))
    ensures Carries(text, phrases)
  {
  }

  /** Joining two documents by a newline scans to the higher of the two levels. */
  lemma {:induction false} JoinedScan(a: Bytes, b: Bytes, r: Option<nat>, s: Option<nat>, t: Option<nat>)
    requires Scans(a, r) && Scans(b, s) && Scans(Joined(a, b), t)
    ensures ScanLevel(t) == if ScanLevel(r) < ScanLevel(s) then ScanLevel(s) else ScanLevel(r)
  {
    ScanMeans(a, r, ScanLevel(r));
    ScanMeans(b, s, ScanLevel(s));
    MarkingsAreOneLiners();
    var higher := if ScanLevel(r) < ScanLevel(s) then ScanLevel(s) else ScanLevel(r);
    JoinedLevel(Markings(), a, b, ScanLevel(r), ScanLevel(s));
    ScanMeans(Joined(a, b), t, higher);
  }
}
