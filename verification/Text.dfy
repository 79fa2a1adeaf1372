/** Searching and splitting text. */
module Text {
  import opened Basics

  predicate Contains(s: string, p: string) {
    StartsWith(s, p) || (s != [] && Contains(s[1..], p))
  }

  /** The text holds the pattern. */
  ghost predicate Holds(s: string, p: string) {
    exists a, b :: s == a + p + b
  }

  lemma {:induction false} ContainsIs(s: string, p: string)
    ensures Contains(s, p) <==> Holds(s, p)
  {
    if Contains(s, p) {
      Found(s, p);
    }
    if a, b :| s == a + p + b {
      FoundAfter(s, a, p, b);
    }
  }

  lemma {:induction false} Found(s: string, p: string)
    requires Contains(s, p)
    ensures Holds(s, p)
  {
    if StartsWith(s, p) {
      assert s == [] + p + s[|p|..];
    } else {
      Found(s[1..], p);
      var a, b :| s[1..] == a + p + b;
      OneBefore(s, a, p, b);
    }
  }

  lemma {:induction false} OneBefore(s: string, a: string, p: string, b: string)
    requires s != [] && s[1..] == a + p + b
    ensures s == ([s[0]] + a) + p + b
  {
    assert s == [s[0]] + s[1..];
  }

  lemma {:induction false} FoundAfter(s: string, a: string, p: string, b: string)
    requires s == a + p + b
    ensures Contains(s, p)
    decreases |a|
  {
    if a == [] {
      assert s[..|p|] == p;
    } else {
      assert s[1..] == a[1..] + p + b;
      FoundAfter(s[1..], a[1..], p, b);
    }
  }

  /** `find`: where the pattern first stands. */
  function Find(s: string, p: string): (r: Option<nat>)
    ensures r.Some? ==> r.value + |p| <= |s| && s[r.value..r.value + |p|] == p
  {
    if StartsWith(s, p) then Some(0)
    else if s == [] then None
    else match Find(s[1..], p)
      case None => None
      case Some(i) => assert s[i + 1..i + 1 + |p|] == s[1..][i..i + |p|]; Some(i + 1)
  }

  /** It stands nowhere before, and nowhere at all when it is not found. */
  lemma {:induction false} FindIsFirst(s: string, p: string)
    ensures Find(s, p).None? <==> !Holds(s, p)
    ensures Find(s, p).Some? ==> forall j :: 0 <= j < Find(s, p).value ==> !StartsWith(s[j..], p)
  {
    FindIsContains(s, p);
    ContainsIs(s, p);
    if Find(s, p).Some? {
      NothingBefore(s, p);
    }
  }

  lemma {:induction false} FindIsContains(s: string, p: string)
    ensures Find(s, p).Some? <==> Contains(s, p)
  {
    if !StartsWith(s, p) && s != [] {
      FindIsContains(s[1..], p);
    }
  }

  lemma {:induction false} NothingBefore(s: string, p: string)
    requires Find(s, p).Some?
    ensures forall j :: 0 <= j < Find(s, p).value ==> !StartsWith(s[j..], p)
  {
    if !StartsWith(s, p) {
      NothingBefore(s[1..], p);
      forall j | 0 <= j < Find(s, p).value ensures !StartsWith(s[j..], p) {
        if j > 0 {
          assert s[j..] == s[1..][j - 1..];
        } else {
          assert s[0..] == s;
        }
      }
    }
  }

  predicate IsAlphabetic(c: char) {
    'A' <= c <= 'Z' || 'a' <= c <= 'z'
  }

  predicate IsAlphanumeric(c: char) {
    IsAlphabetic(c) || IsDigit(c)
  }

  /** `split_whitespace`: the runs of characters that are not space. */
  function Words(s: string): seq<string> {
    if s == [] then []
    else if IsSpace(s[0]) then Words(s[1..])
    else if |s| == 1 || IsSpace(s[1]) then [[s[0]]] + Words(s[1..])
    else var rest := Words(s[1..]); if rest == [] then [[s[0]]] else [[s[0]] + rest[0]] + rest[1..]
  }

  /** Drop what is not a letter or digit from both ends. */
  function TrimToAlphanumeric(s: string): string
    decreases |s|
  {
    if s == [] then []
    else if !IsAlphanumeric(s[0]) then TrimToAlphanumeric(s[1..])
    else if !IsAlphanumeric(s[|s| - 1]) then TrimToAlphanumeric(s[..|s| - 1])
    else s
  }

  /** Drop what is not a letter from both ends. */
  function TrimToAlphabetic(s: string): string
    decreases |s|
  {
    if s == [] then []
    else if !IsAlphabetic(s[0]) then TrimToAlphabetic(s[1..])
    else if !IsAlphabetic(s[|s| - 1]) then TrimToAlphabetic(s[..|s| - 1])
    else s
  }

  function TrimDots(s: string): string {
    if s != [] && s[|s| - 1] == '.' then TrimDots(s[..|s| - 1]) else s
  }

  /** Split at every character that is not a letter or digit. */
  function AlphanumericParts(s: string): (r: seq<string>)
    ensures r != []
  {
    if s == [] then [""]
    else
      var rest := AlphanumericParts(s[1..]);
      if IsAlphanumeric(s[0]) then [[s[0]] + rest[0]] + rest[1..] else [""] + rest
  }

  /** The pieces, put back together with what stood between them. */
  function Rejoined(parts: seq<string>, stops: string): string
    requires |parts| == |stops| + 1
    decreases |stops|
  {
    if stops == [] then parts[0] else parts[0] + [stops[0]] + Rejoined(parts[1..], stops[1..])
  }

  /** The parts of a text are what stands between the characters that are no letter or
      digit: none holds one, and put back together with them they are the text. */
  lemma {:induction false} PartsMeans(s: string) returns (stops: string)
    ensures forall i :: 0 <= i < |AlphanumericParts(s)| ==>
              forall c :: c in AlphanumericParts(s)[i] ==> IsAlphanumeric(c)
    ensures forall i :: 0 <= i < |stops| ==> !IsAlphanumeric(stops[i])
    ensures |AlphanumericParts(s)| == |stops| + 1 && Rejoined(AlphanumericParts(s), stops) == s
  {
    if s == [] {
      stops := [];
    } else {
      var rest := AlphanumericParts(s[1..]);
      var after := PartsMeans(s[1..]);
      assert s == [s[0]] + s[1..];
      if IsAlphanumeric(s[0]) {
        stops := after;
        var all := [[s[0]] + rest[0]] + rest[1..];
        assert AlphanumericParts(s) == all && all[1..] == rest[1..];
        forall i, c | 0 <= i < |all| && c in all[i] ensures IsAlphanumeric(c) {
          if i > 0 { assert all[i] == rest[i]; }
        }
      } else {
        stops := [s[0]] + after;
        var all := [""] + rest;
        assert AlphanumericParts(s) == all && all[1..] == rest && stops[1..] == after;
      }
    }
  }

  predicate NoAlphanumeric(s: string) {
    forall i :: 0 <= i < |s| ==> !IsAlphanumeric(s[i])
  }

  predicate NoAlphabetic(s: string) {
    forall i :: 0 <= i < |s| ==> !IsAlphabetic(s[i])
  }

  lemma {:induction false} OneBehind(s: string, a: string, t: string, b: string)
    requires s != [] && s[..|s| - 1] == a + t + b
    ensures s == a + t + (b + [s[|s| - 1]])
  {
    assert s == s[..|s| - 1] + [s[|s| - 1]];
  }

  /** What is trimmed off both ends holds no letter or digit, and what is left starts and
      ends with one. */
  lemma {:induction false} AlphanumericCoreMeans(s: string) returns (a: string, b: string)
    ensures s == a + TrimToAlphanumeric(s) + b && NoAlphanumeric(a) && NoAlphanumeric(b)
    ensures var t := TrimToAlphanumeric(s); t != [] ==> IsAlphanumeric(t[0]) && IsAlphanumeric(t[|t| - 1])
    decreases |s|
  {
    a, b := [], [];
    var t := TrimToAlphanumeric(s);
    if s != [] && !IsAlphanumeric(s[0]) {
      var rest := s[1..];
      a, b := AlphanumericCoreMeans(rest);
      OneBefore(s, a, t, b);
      a := [s[0]] + a;
    } else if s != [] && !IsAlphanumeric(s[|s| - 1]) {
      var rest := s[..|s| - 1];
      a, b := AlphanumericCoreMeans(rest);
      OneBehind(s, a, t, b);
      b := b + [s[|s| - 1]];
    }
  }

  /** And so with letters alone. */
  lemma {:induction false} AlphabeticCoreMeans(s: string) returns (a: string, b: string)
    ensures s == a + TrimToAlphabetic(s) + b && NoAlphabetic(a) && NoAlphabetic(b)
    ensures var t := TrimToAlphabetic(s); t != [] ==> IsAlphabetic(t[0]) && IsAlphabetic(t[|t| - 1])
    decreases |s|
  {
    a, b := [], [];
    var t := TrimToAlphabetic(s);
    if s != [] && !IsAlphabetic(s[0]) {
      var rest := s[1..];
      a, b := AlphabeticCoreMeans(rest);
      OneBefore(s, a, t, b);
      a := [s[0]] + a;
    } else if s != [] && !IsAlphabetic(s[|s| - 1]) {
      var rest := s[..|s| - 1];
      a, b := AlphabeticCoreMeans(rest);
      OneBehind(s, a, t, b);
      b := b + [s[|s| - 1]];
    }
  }

  /** Full stops at the end go, all of them and nothing else. */
  lemma {:induction false} TrimDotsMeans(s: string) returns (dots: string)
    ensures s == TrimDots(s) + dots && (forall i :: 0 <= i < |dots| ==> dots[i] == '.')
    ensures TrimDots(s) != [] ==> TrimDots(s)[|TrimDots(s)| - 1] != '.'
  {
    if s != [] && s[|s| - 1] == '.' {
      var n := |s| - 1;
      dots := TrimDotsMeans(s[..n]);
      dots := dots + ".";
      assert s == s[..n] + ".";
    } else {
      dots := [];
    }
  }

  predicate IsWord(w: string) {
    w != [] && forall i :: 0 <= i < |w| ==> !IsSpace(w[i])
  }

  lemma {:induction false} OneWord(w: string)
    requires IsWord(w)
    ensures Words(w) == [w]
  {
    if |w| > 1 {
      OneWord(w[1..]);
      assert [w[0]] + w[1..] == w;
    } else {
      assert w[1..] == [] && [w[0]] == w;
    }
  }

  /** Words end at any space, and space between them is skipped. */
  lemma {:induction false} WordBefore(w: string, space: char, rest: string)
    requires IsWord(w) && IsSpace(space)
    ensures Words([space] + rest) == Words(rest)
    ensures Words(w + [space] + rest) == [w] + Words(rest)
  {
    var s := w + [space] + rest;
    assert ([space] + rest)[1..] == rest;
    if |w| > 1 {
      WordBefore(w[1..], space, rest);
      assert s[1..] == w[1..] + [space] + rest;
      assert [w[0]] + w[1..] == w;
    } else {
      assert s[1..] == [space] + rest && [w[0]] == w;
    }
  }
}
