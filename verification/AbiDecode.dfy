/** The chain reader's decoders, and what they read back from an encoding. */
module AbiDecode {
  import opened Basics
  import opened Abi
  import Hex
  import Utf8

  const TOP: nat := 0x1_0000_0000_0000_0000

  /** `Overflow` is an addition that leaves the machine word, where the source panics
      or wraps with the build. */
  datatype DecodeError =
    | Overflow | Truncated | NoLength | LengthOverflows | TooShort | NotUtf8
    | PastTheEnd(element: nat) | Unaligned(offset: nat) | Missing(field: string)

  // ---- words ------------------------------------------------------------

  function WordAt(b: Bytes, i: nat): (r: Option<Word>)
    ensures r.Some? <==> 32 * i + 32 <= |b|
  {
    if |b| < 32 * i + 32 then None else Some(b[32 * i..32 * i + 32])
  }

  /** A word wider than 64 bits is rejected, never truncated. */
  function WordU64(b: Bytes, i: nat): Option<U64> {
    match WordAt(b, i)
    case None => None
    case Some(w) =>
      if w[..24] != Abi.Zeros(24) then None
      else LowBytesFit(w[24..]); Some(FromBigEndian(w[24..]))
  }

  function AddressText(w: Word): string {
    Hex.Encode(w[12..])
  }

  lemma {:induction false} LowBytesFit(b: Bytes)
    ensures FromBigEndian(b) < Pow256(|b|)
    ensures |b| == 8 ==> FromBigEndian(b) < TOP
    ensures BigEndian(FromBigEndian(b), |b|) == b
  {
    Pow256Values();
    if b != [] {
      var n := |b| - 1;
      LowBytesFit(b[..n]);
      assert (FromBigEndian(b[..n]) * 256 + b[n]) / 256 == FromBigEndian(b[..n]);
    }
  }

  lemma {:induction false} WordOfReads(w: Word, n: U64)
    requires w == WordOf(n)
    ensures w[..24] == Abi.Zeros(24) && FromBigEndian(w[24..]) == n
  {
    Pow256Values();
    BigEndianRoundTrip(n, 8);
    assert w[24..] == BigEndian(n, 8);
  }

  /** A word reads as a number exactly when it is that number's encoding. */
  lemma {:induction false} WordU64IsExact(b: Bytes, i: nat, n: U64)
    ensures WordU64(b, i) == Some(n) <==> WordAt(b, i) == Some(WordOf(n))
  {
    var w := WordAt(b, i);
    if w.Some? {
      LowBytesFit(w.value[24..]);
      if w.value == WordOf(n) { WordOfReads(w.value, n); }
      if WordU64(b, i) == Some(n) {
        assert w.value == w.value[..24] + w.value[24..];
      }
    }
  }

  // ---- dynamic payloads -------------------------------------------------

  /** The bytes of a string whose length word stands at `at`. */
  function PayloadAt(b: Bytes, at: nat): Result<Bytes, DecodeError> {
    if at + 32 >= TOP then Err(Overflow)
    else if |b| < at + 32 then Err(Truncated)
    else match WordU64(b, at / 32)
      case None => Err(NoLength)
      case Some(len) =>
        if at + 32 + len >= TOP then Err(LengthOverflows)
        else if |b| < at + 32 + len then Err(TooShort)
        else Ok(b[at + 32..at + 32 + len])
  }

  function StringAt(b: Bytes, at: nat): Result<string, DecodeError> {
    match PayloadAt(b, at)
    case Err(e) => Err(e)
    case Ok(p) =>
      match Utf8.Decode(p)
      case None => Err(NotUtf8)
      case Some(s) => Ok(s)
  }

  /** A top-level `string` return. */
  function DecodeString(b: Bytes): Result<string, DecodeError> {
    match WordU64(b, 0)
    case None => Err(Missing("offset"))
    case Some(off) => StringAt(b, off)
  }

  /** The first `n` words from index `first` on. */
  function Elements(b: Bytes, first: nat, n: nat): (r: Result<seq<Word>, DecodeError>)
    ensures r.Ok? ==> |r.value| == n
  {
    if n == 0 then Ok([])
    else match Elements(b, first, n - 1)
      case Err(e) => Err(e)
      case Ok(ws) =>
        match WordAt(b, first + n - 1)
        case None => Err(PastTheEnd(n - 1))
        case Some(w) => Ok(ws + [w])
  }

  function WordArrayAt(b: Bytes, at: nat): Result<seq<Word>, DecodeError> {
    if at + 32 >= TOP then Err(Overflow)
    else if |b| < at + 32 then Err(Truncated)
    else match WordU64(b, at / 32)
      case None => Err(NoLength)
      case Some(len) => Elements(b, at / 32 + 1, len)
  }

  function Texts(ws: seq<Word>): (r: seq<string>)
    ensures |r| == |ws|
  {
    seq(|ws|, i requires 0 <= i < |ws| => AddressText(ws[i]))
  }

  function AddressArrayAt(b: Bytes, at: nat): Result<seq<string>, DecodeError> {
    match WordArrayAt(b, at)
    case Err(e) => Err(e)
    case Ok(ws) => Ok(Texts(ws))
  }

  lemma {:induction false} ElementsFail(b: Bytes, first: nat, n: nat, len: nat)
    requires n <= len && Elements(b, first, n).Err?
    ensures Elements(b, first, len) == Elements(b, first, n)
    decreases len - n
  {
    if n < len {
      ElementsFail(b, first, n + 1, len);
    }
  }

  method DecodeWordArrayAt(b: Bytes, at: nat) returns (r: Result<seq<Word>, DecodeError>)
    ensures r == WordArrayAt(b, at)
  {
    if at + 32 >= TOP { return Err(Overflow); }
    if |b| < at + 32 { return Err(Truncated); }
    var len := WordU64(b, at / 32);
    if len.None? { return Err(NoLength); }
    var out: seq<Word> := [];
    for i := 0 to len.value
      invariant Elements(b, at / 32 + 1, i) == Ok(out)
    {
      var w := WordAt(b, at / 32 + 1 + i);
      if w.None? {
        ElementsFail(b, at / 32 + 1, i + 1, len.value);
        return Err(PastTheEnd(i));
      }
      out := out + [w.value];
    }
    r := Ok(out);
  }

  method DecodeAddressArrayAt(b: Bytes, at: nat) returns (r: Result<seq<string>, DecodeError>)
    ensures r == AddressArrayAt(b, at)
  {
    if at + 32 >= TOP { return Err(Overflow); }
    if |b| < at + 32 { return Err(Truncated); }
    var len := WordU64(b, at / 32);
    if len.None? { return Err(NoLength); }
    var out: seq<string> := [];
    ghost var ws: seq<Word> := [];
    for i := 0 to len.value
      invariant Elements(b, at / 32 + 1, i) == Ok(ws) && out == Texts(ws)
    {
      var w := WordAt(b, at / 32 + 1 + i);
      if w.None? {
        ElementsFail(b, at / 32 + 1, i + 1, len.value);
        return Err(PastTheEnd(i));
      }
      out := out + [AddressText(w.value)];
      ws := ws + [w.value];
    }
    r := Ok(out);
  }

  // ---- reading an encoding back -----------------------------------------

  /** `t` stands in `b` from byte `at` on. */
  predicate Here(b: Bytes, at: nat, t: Bytes) {
    at + |t| <= |b| && b[at..at + |t|] == t
  }

  lemma {:induction false} HerePart(b: Bytes, at: nat, t: Bytes, i: nat, u: Bytes)
    requires Here(b, at, t) && Here(t, i, u)
    ensures Here(b, at + i, u)
  {
    var whole := b[at..at + |t|];
    var part := whole[i..i + |u|];
    forall k | 0 <= k < |u| ensures b[at + i + k] == u[k] {
      assert part[k] == whole[i + k] == b[at + (i + k)];
    }
  }

  lemma {:induction false} ConcatHere(ws: seq<Word>, i: nat)
    requires i < |ws|
    ensures Here(Concat(ws), 32 * i, ws[i])
    decreases |ws|
  {
    var n := |ws| - 1;
    if i < n {
      ConcatHere(ws[..n], i);
      HerePart(Concat(ws), 0, Concat(ws[..n]), 32 * i, ws[i]);
    }
  }

  lemma {:induction false} TailsHere(args: seq<Arg>, n: nat, i: nat)
    requires i < n <= |args|
    ensures Here(Tails(args, n), |Tails(args, i)|, Tail(args[i]))
  {
    var before := Tails(args, n - 1);
    assert Tails(args, n) == before + Tail(args[n - 1]);
    if i < n - 1 {
      TailsHere(args, n - 1, i);
      HerePart(Tails(args, n), 0, before, |Tails(args, i)|, Tail(args[i]));
    }
  }

  /** Head words and tails stand where the layout says, after any aligned prefix. */
  lemma {:induction false} Layout(p: Bytes, k: nat, args: seq<Arg>, i: nat)
    requires |p| == 32 * k && i < |args|
    ensures WordAt(p + Encoding(args), k + i) == Some(Head(args, i))
    ensures Here(p + Encoding(args), |p| + Offset(args, i), Tail(args[i]))
    ensures Offset(args, i) % 32 == 0
  {
    EncodingParts(args, i);
    var e := Encoding(args);
    JoinedHere(p, e);
    HerePart(p + e, |p|, e, 32 * i, Head(args, i));
    HerePart(p + e, |p|, e, Offset(args, i), Tail(args[i]));
    assert 32 * (k + i) == |p| + 32 * i;
    OffsetIsAligned(args, i);
  }

  lemma {:induction false} OffsetIsAligned(args: seq<Arg>, i: nat)
    requires i < |args|
    ensures Offset(args, i) % 32 == 0
  {
    TailsAreAligned(args, i);
    SumOfWords(32 * |args|, |Tails(args, i)|);
  }

  lemma {:induction false} JoinedHere(x: Bytes, y: Bytes)
    ensures Here(x + y, 0, x) && Here(x + y, |x|, y)
  {
  }

  lemma {:induction false} EncodingParts(args: seq<Arg>, i: nat)
    requires i < |args|
    ensures Here(Encoding(args), 32 * i, Head(args, i))
    ensures Here(Encoding(args), Offset(args, i), Tail(args[i]))
  {
    var heads, tails := Concat(Heads(args)), Tails(args, |args|);
    JoinedHere(heads, tails);
    ConcatHere(Heads(args), i);
    TailsHere(args, |args|, i);
    InFirstPart(heads, tails, 32 * i, Head(args, i));
    InSecondPart(heads, tails, |Tails(args, i)|, Tail(args[i]));
  }

  lemma {:induction false} InFirstPart(x: Bytes, y: Bytes, i: nat, t: Bytes)
    requires Here(x, i, t)
    ensures Here(x + y, i, t)
  {
    JoinedHere(x, y);
    HerePart(x + y, 0, x, i, t);
  }

  lemma {:induction false} InSecondPart(x: Bytes, y: Bytes, i: nat, t: Bytes)
    requires Here(y, i, t)
    ensures Here(x + y, |x| + i, t)
  {
    JoinedHere(x, y);
    HerePart(x + y, |x|, y, i, t);
  }

  lemma {:induction false} LengthHere(b: Bytes, at: nat, n: U64, t: Bytes)
    requires at % 32 == 0 && |b| < TOP && Here(b, at, WordOf(n) + t)
    ensures at + 32 < TOP && at + 32 <= |b| && WordU64(b, at / 32) == Some(n)
    ensures Here(b, at + 32, t)
  {
    var both := WordOf(n) + t;
    assert Here(both, 0, WordOf(n)) && Here(both, 32, t);
    HerePart(b, at, both, 0, WordOf(n));
    HerePart(b, at, both, 32, t);
    assert 32 * (at / 32) == at;
    WordU64IsExact(b, at / 32, n);
  }

  lemma {:induction false} ReadsPayload(b: Bytes, at: nat, payload: Bytes)
    requires at % 32 == 0 && |b| < TOP && Here(b, at, Tail(StrArg(payload)))
    ensures PayloadAt(b, at) == Ok(payload)
  {
    var t := payload + Abi.Zeros(Padding(|payload|));
    assert Tail(StrArg(payload)) == WordOf(|payload|) + t;
    LengthHere(b, at, |payload|, t);
    assert Here(t, 0, payload);
    HerePart(b, at + 32, t, 0, payload);
  }

  lemma {:induction false} ReadsElements(b: Bytes, first: nat, ws: seq<Word>, n: nat)
    requires n <= |ws| && Here(b, 32 * first, Concat(ws))
    ensures Elements(b, first, n) == Ok(ws[..n])
  {
    if n > 0 {
      ReadsElements(b, first, ws, n - 1);
      ConcatHere(ws, n - 1);
      HerePart(b, 32 * first, Concat(ws), 32 * (n - 1), ws[n - 1]);
      assert 32 * first + 32 * (n - 1) == 32 * (first + n - 1);
      assert ws[..n] == ws[..n - 1] + [ws[n - 1]];
    }
  }

  lemma {:induction false} ReadsWords(b: Bytes, at: nat, ws: seq<Word>)
    requires at % 32 == 0 && |b| < TOP && Here(b, at, Tail(WordsArg(ws)))
    ensures WordArrayAt(b, at) == Ok(ws)
  {
    LengthHere(b, at, |ws|, Concat(ws));
    assert 32 * (at / 32 + 1) == at + 32;
    ReadsElements(b, at / 32 + 1, ws, |ws|);
    assert ws[..|ws|] == ws;
  }

  /** What the decoders find of the i-th argument: a static one is its head word; a
      dynamic one has an aligned offset, after the heads and inside the encoding, at
      which its decoder returns the whole payload. */
  predicate ReadsBack(b: Bytes, args: seq<Arg>, i: nat)
    requires i < |args|
  {
    match args[i]
    case WordArg(w) => WordAt(b, i) == Some(w)
    case UintArg(n) => WordU64(b, i) == Some(n)
    case AddressArg(a) => WordAt(b, i) == Some(PadAddress(a)) && AddressText(PadAddress(a)) == Hex.Encode(a)
    case StrArg(s) => InRange(b, args, i) && PayloadAt(b, Offset(args, i)) == Ok(s)
    case WordsArg(ws) => InRange(b, args, i) && WordArrayAt(b, Offset(args, i)) == Ok(ws)
  }

  predicate InRange(b: Bytes, args: seq<Arg>, i: nat)
    requires i < |args|
  {
    var off := Offset(args, i);
    && off < TOP && WordU64(b, i) == Some(off)
    && off % 32 == 0 && 32 * |args| <= off && off + |Tail(args[i])| <= |b|
  }

  /** Every argument of every list whose encoding fits in 64 bits reads back. */
  lemma {:induction false} RoundTrip(args: seq<Arg>, i: nat)
    requires i < |args| && |Encoding(args)| < TOP
    ensures ReadsBack(Encoding(args), args, i)
  {
    var e := Encoding(args);
    Layout([], 0, args, i);
    assert [] + e == e;
    match args[i] {
      case WordArg(_) =>
      case UintArg(n) => WordU64IsExact(e, i, n);
      case AddressArg(a) => assert PadAddress(a)[12..] == a;
      case StrArg(s) => ReadsDynamic(e, args, i);
      case WordsArg(ws) => ReadsDynamic(e, args, i);
    }
  }

  lemma {:induction false} ReadsDynamic(e: Bytes, args: seq<Arg>, i: nat)
    requires i < |args| && args[i].IsDynamic() && |e| < TOP && 32 * |args| <= Offset(args, i)
    requires WordAt(e, i) == Some(WordOf(Offset(args, i))) && Offset(args, i) % 32 == 0
    requires Here(e, Offset(args, i), Tail(args[i]))
    ensures ReadsBack(e, args, i)
  {
    var off := Offset(args, i);
    WordU64IsExact(e, i, off);
    if args[i].StrArg? {
      ReadsPayload(e, off, args[i].payload);
    } else {
      ReadsWords(e, off, args[i].words);
    }
  }

  predicate SameShape(a: Arg, b: Arg) {
    match a
    case WordArg(_) => b.WordArg?
    case UintArg(_) => b.UintArg?
    case AddressArg(_) => b.AddressArg?
    case StrArg(_) => b.StrArg?
    case WordsArg(_) => b.WordsArg?
  }

  /** Two lists of one shape with one encoding are the same list. */
  lemma {:induction false} Injective(xs: seq<Arg>, ys: seq<Arg>)
    requires |xs| == |ys| && forall i :: 0 <= i < |xs| ==> SameShape(xs[i], ys[i])
    requires Encoding(xs) == Encoding(ys) && |Encoding(xs)| < TOP
    ensures xs == ys
  {
    forall i | 0 <= i < |xs| ensures xs[i] == ys[i] {
      RoundTrip(xs, i);
      RoundTrip(ys, i);
      if xs[i].AddressArg? {
        assert PadAddress(xs[i].address)[12..] == PadAddress(ys[i].address)[12..];
      }
    }
  }

  /** A top-level string return reads back, whatever the text. */
  lemma {:induction false} StringRoundTrip(s: string)
    requires |Encoding([StrArg(Utf8.Encode(s))])| < TOP
    ensures DecodeString(Encoding([StrArg(Utf8.Encode(s))])) == Ok(s)
  {
    RoundTrip([StrArg(Utf8.Encode(s))], 0);
    Utf8.RoundTrip(s);
  }

  /** Words that are read one after the other stand one after the other. */
  lemma {:induction false} ElementsStand(b: Bytes, first: nat, n: nat)
    requires Elements(b, first, n).Ok? && 32 * first <= |b|
    ensures Here(b, 32 * first, Concat(Elements(b, first, n).value))
  {
    if n > 0 {
      ElementsStand(b, first, n - 1);
      var ws, w := Elements(b, first, n - 1).value, WordAt(b, first + n - 1).value;
      assert (ws + [w])[..n - 1] == ws;
      assert 32 * (first + n - 1) == 32 * first + |Concat(ws)|;
    }
  }

  lemma {:induction false} HereThen(b: Bytes, at: nat, t: Bytes, u: Bytes)
    requires Here(b, at, t) && Here(b, at + |t|, u)
    ensures Here(b, at, t + u)
  {
    var mid, end := at + |t|, at + |t| + |u|;
    assert b[at..end] == b[at..mid] + b[mid..end];
  }

  /** An array that decodes stands in the return, count first, from the word its offset
      falls in: an offset that is not a multiple of 32 reads what the multiple below it
      does. */
  lemma {:induction false} DecodedWordsStand(b: Bytes, at: nat, ws: seq<Word>)
    requires WordArrayAt(b, at) == Ok(ws)
    ensures Here(b, 32 * (at / 32), Tail(WordsArg(ws)))
    ensures WordArrayAt(b, 32 * (at / 32)) == Ok(ws)
  {
    var k := at / 32;
    var len := WordU64(b, k).value;
    WordU64IsExact(b, k, len);
    ElementsStand(b, k + 1, len);
    HereThen(b, 32 * k, WordOf(len), Concat(ws));
    AlignedReadsTheSame(b, at);
  }

  lemma {:induction false} AlignedReadsTheSame(b: Bytes, at: nat)
    requires WordArrayAt(b, at).Ok?
    ensures WordArrayAt(b, 32 * (at / 32)) == WordArrayAt(b, at)
  {
    var k := at / 32;
    assert 32 * k / 32 == k;
  }

  lemma {:induction false} FirstMissing(b: Bytes, first: nat, n: nat) returns (i: nat)
    requires Elements(b, first, n).Err?
    ensures i < n && Elements(b, first, n) == Err(PastTheEnd(i)) && |b| < 32 * (first + i) + 32
    ensures i > 0 ==> 32 * (first + i) <= |b|
  {
    i := n - 1;
    if Elements(b, first, i).Err? {
      i := FirstMissing(b, first, i);
    } else if i > 0 {
      assert Elements(b, first, i).Ok? && WordAt(b, first + i - 1).Some?;
    }
  }

  /** An array in bytes a 64-bit offset can address decodes to these words if and only if it
      stands there, count first, from the word its offset falls in. */
  lemma {:induction false} ArrayReadsWhatStands(b: Bytes, at: nat, ws: seq<Word>)
    requires |b| < TOP
    ensures WordArrayAt(b, at) == Ok(ws) <==> at + 32 <= |b| && Here(b, 32 * (at / 32), Tail(WordsArg(ws)))
  {
    if WordArrayAt(b, at) == Ok(ws) {
      DecodedWordsStand(b, at, ws);
    } else if at + 32 <= |b| && Here(b, 32 * (at / 32), Tail(WordsArg(ws))) {
      ReadsFromAnywhere(b, at, ws);
    }
  }

  lemma {:induction false} ReadsFromAnywhere(b: Bytes, at: nat, ws: seq<Word>)
    requires |b| < TOP && at + 32 <= |b| && Here(b, 32 * (at / 32), Tail(WordsArg(ws)))
    ensures WordArrayAt(b, at) == Ok(ws)
  {
    var aligned := 32 * (at / 32);
    assert aligned % 32 == 0 && aligned <= at && aligned / 32 == at / 32;
    ReadsWords(b, aligned, ws);
    OffsetsInOneWord(b, at, aligned);
  }

  lemma {:induction false} OffsetsInOneWord(b: Bytes, x: nat, y: nat)
    requires x / 32 == y / 32 && x + 32 <= |b| && y + 32 <= |b| && |b| < TOP
    ensures WordArrayAt(b, x) == WordArrayAt(b, y)
  {
  }

  /** Otherwise it is cut off before its count, its count is no number, or the first word
      that is missing is named. */
  lemma {:induction false} ArrayRefusals(b: Bytes, at: nat) returns (i: nat)
    requires |b| < TOP && WordArrayAt(b, at).Err?
    ensures var r := WordArrayAt(b, at);
            if |b| < at + 32 then r in {Err(Truncated), Err(Overflow)}
            else if WordU64(b, at / 32).None? then r == Err(NoLength)
            else r == Err(PastTheEnd(i)) && i < WordU64(b, at / 32).value
                 && |b| < 32 * (at / 32 + 1 + i) + 32 && 32 * (at / 32 + 1 + i) <= |b| + 31
  {
    i := 0;
    if at + 32 <= |b| && WordU64(b, at / 32).Some? {
      i := FirstMissing(b, at / 32 + 1, WordU64(b, at / 32).value);
      assert 32 * (at / 32) + 32 <= |b|;
    }
  }

  /** A string takes its length from that word but its bytes from 32 past the offset as
      given, so an unaligned offset reads past the start of the payload. */
  lemma {:induction false} DecodedPayloadStands(b: Bytes, at: nat, payload: Bytes)
    requires PayloadAt(b, at) == Ok(payload)
    ensures Here(b, 32 * (at / 32), WordOf(|payload|)) && Here(b, at + 32, payload)
    ensures at % 32 == 0 ==> Here(b, at, WordOf(|payload|) + payload)
  {
    var k := at / 32;
    WordU64IsExact(b, k, |payload|);
    if at % 32 == 0 {
      HereThen(b, at, WordOf(|payload|), payload);
    }
  }
}
