/** The Solidity contract ABI encoding of an argument list: the encoder of the
    constructor arguments and the decoders of the chain reader, which read such an
    encoding back. */
module Abi {
  import opened Basics

  type Address = a: Bytes | |a| == 20 witness seq(20, i => 0)

  /** One argument, in the shape the encoding cares about. A string or `bytes`
      argument is its payload. */
  datatype Arg =
    | WordArg(word: Word)
    | UintArg(n: U64)
    | AddressArg(address: Address)
    | StrArg(payload: Bytes)
    | WordsArg(words: seq<Word>)
  {
    predicate IsDynamic() {
      StrArg? || WordsArg?
    }
  }

  // ---- the encoding -----------------------------------------------------

  function Zeros(n: nat): (b: Bytes)
    ensures |b| == n
  {
    seq(n, i => 0)
  }

  /** A 64-bit number right-aligned in a word; higher bits are cut off. */
  function WordOf(n: nat): Word {
    Zeros(24) + BigEndian(n, 8)
  }

  function PadAddress(a: Address): Word {
    Zeros(12) + a
  }

  /** How many zero bytes bring a length to a word boundary. */
  function Padding(n: nat): (p: nat)
    ensures p < 32 && (n + p) % 32 == 0
  {
    (32 - n % 32) % 32
  }

  lemma {:induction false} PaddingIsLeast(n: nat, k: nat)
    requires k <= Padding(n) && (n + k) % 32 == 0
    ensures k == Padding(n)
  {
  }

  lemma {:induction false} PaddingAfterWord(n: nat)
    ensures Padding(32 + n) == Padding(n)
  {
  }

  lemma {:induction false} SumOfWords(a: nat, b: nat)
    requires a % 32 == 0 && b % 32 == 0
    ensures (a + b) % 32 == 0
  {
  }

  function Concat(ws: seq<Word>): (b: Bytes)
    ensures |b| == 32 * |ws|
  {
    if ws == [] then [] else Concat(ws[..|ws| - 1]) + ws[|ws| - 1]
  }

  /** The tail of an argument: length, then the payload padded to a word boundary. */
  function Tail(a: Arg): (t: Bytes) {
    match a
    case StrArg(b) => WordOf(|b|) + b + Zeros(Padding(|b|))
    case WordsArg(ws) => WordOf(|ws|) + Concat(ws)
    case _ => []
  }

  /** A string's tail to the byte: its length in 32 big-endian bytes, the payload, and zeros
      up to the next multiple of 32 and no further. */
  lemma {:induction false} StringTailBytes(payload: Bytes)
    ensures var t := Tail(StrArg(payload));
            && (forall i :: 0 <= i < 24 ==> t[i] == 0) && t[24..32] == BigEndian(|payload|, 8)
            && t[32..32 + |payload|] == payload
            && (forall i :: 32 + |payload| <= i < |t| ==> t[i] == 0)
            && |t| % 32 == 0 && 32 + |payload| <= |t| < 64 + |payload|
  {
    TailIsAligned(StrArg(payload));
  }

  /** The tails of the first `n` arguments, one after the other. */
  function Tails(args: seq<Arg>, n: nat): (t: Bytes)
    requires n <= |args|
  {
    if n == 0 then [] else Tails(args, n - 1) + Tail(args[n - 1])
  }

  lemma {:induction false} TailsAreAligned(args: seq<Arg>, n: nat)
    requires n <= |args|
    ensures |Tails(args, n)| % 32 == 0
  {
    if n > 0 {
      TailsAreAligned(args, n - 1);
      TailIsAligned(args[n - 1]);
      SumOfWords(|Tails(args, n - 1)|, |Tail(args[n - 1])|);
    }
  }

  lemma {:induction false} TailIsAligned(a: Arg)
    ensures |Tail(a)| % 32 == 0
  {
    if a.StrArg? {
      var n := |a.payload|;
      assert |Tail(a)| == 32 + (n + Padding(n));
      SumOfWords(32, n + Padding(n));
    }
  }

  /** Where the tail of the i-th argument starts. */
  function Offset(args: seq<Arg>, i: nat): nat
    requires i <= |args|
  {
    32 * |args| + |Tails(args, i)|
  }

  function Head(args: seq<Arg>, i: nat): Word
    requires i < |args|
  {
    match args[i]
    case WordArg(w) => w
    case UintArg(n) => WordOf(n)
    case AddressArg(a) => PadAddress(a)
    case _ => WordOf(Offset(args, i))
  }

  function Heads(args: seq<Arg>): (hs: seq<Word>)
    ensures |hs| == |args|
  {
    seq(|args|, i requires 0 <= i < |args| => Head(args, i))
  }

  /** enc(X1, ..., Xn) = head(X1) ... head(Xn) tail(X1) ... tail(Xn). */
  function Encoding(args: seq<Arg>): (b: Bytes)
    ensures |b| == Offset(args, |args|)
  {
    Concat(Heads(args)) + Tails(args, |args|)
  }

  lemma {:induction false} ConcatOneMore(ws: seq<Word>, i: nat)
    requires i < |ws|
    ensures Concat(ws[..i + 1]) == Concat(ws[..i]) + ws[i]
  {
    assert ws[..i + 1][..i] == ws[..i];
  }

  /** Zero bytes, one at a time, up to a word boundary. */
  method PadToWord(b: Bytes) returns (t: Bytes)
    ensures t == b + Zeros(Padding(|b|))
  {
    t := b;
    ghost var k := 0;
    while |t| % 32 != 0
      invariant k <= Padding(|b|) && t == b + Zeros(k)
      decreases Padding(|b|) - k
    {
      PaddingIsLeast(|b|, Padding(|b|));
      t := t + [0];
      k := k + 1;
    }
    PaddingIsLeast(|b|, k);
  }

  /** `Arg::tail`, padding byte by byte. */
  method TailOf(a: Arg) returns (t: Bytes)
    ensures t == Tail(a)
  {
    match a {
      case StrArg(b) =>
        t := PadToWord(WordOf(|b|) + b);
        PaddingAfterWord(|b|);
      case WordsArg(ws) =>
        t := WordOf(|ws|);
        for i := 0 to |ws|
          invariant t == WordOf(|ws|) + Concat(ws[..i])
        {
          ConcatOneMore(ws, i);
          t := t + ws[i];
        }
        assert ws[..|ws|] == ws;
      case _ => t := [];
    }
  }

  /** `abi_encode`: one pass, growing the heads and the tails side by side. */
  method AbiEncode(args: seq<Arg>) returns (out: Bytes)
    ensures out == Encoding(args)
  {
    var head: Bytes, tail: Bytes := [], [];
    ghost var heads := Heads(args);
    for i := 0 to |args|
      invariant tail == Tails(args, i)
      invariant head == Concat(heads[..i])
    {
      ConcatOneMore(heads, i);
      var h, t := EncodeOne(args, i, |tail|);
      head := head + h;
      tail := tail + t;
    }
    assert heads[..|args|] == heads;
    out := head + tail;
  }

  /** The head and the tail of one argument, given how long the tails before it are. */
  method EncodeOne(args: seq<Arg>, i: nat, before: nat) returns (h: Word, t: Bytes)
    requires i < |args| && before == |Tails(args, i)|
    ensures h == Head(args, i) && t == Tail(args[i])
  {
    if args[i].IsDynamic() {
      h := WordOf(32 * |args| + before);
      t := TailOf(args[i]);
    } else {
      h := Static(args[i]);
      t := [];
    }
  }

  /** `Arg::head_word` of a static argument. */
  function Static(a: Arg): Word {
    match a
    case WordArg(w) => w
    case UintArg(n) => WordOf(n)
    case AddressArg(a) => PadAddress(a)
    case _ => WordOf(0)
  }
}
