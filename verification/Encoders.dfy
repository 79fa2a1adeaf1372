/** The five hand-written calldata encoders. */
module Encoders {
  import opened Basics
  import opened Abi
  import opened AbiDecode
  import opened Calldata
  import Hex
  import Utf8

  // ---- bytes: the anchor's encoders -------------------------------------

  function WordArgs(ws: seq<Word>): (args: seq<Arg>)
    ensures |args| == |ws|
  {
    seq(|ws|, i requires 0 <= i < |ws| => WordArg(ws[i]))
  }

  lemma {:induction false} StaticTails(args: seq<Arg>, n: nat)
    requires n <= |args| && forall i :: 0 <= i < n ==> !args[i].IsDynamic()
    ensures Tails(args, n) == []
  {
    if n > 0 {
      StaticTails(args, n - 1);
    }
  }

  /** A call of N `bytes32` words. */
  method EncodeWords(K: Keccak, signature: string, ws: seq<Word>) returns (data: string)
    ensures data == Hex.Encode(K(Utf8.Encode(signature))[..4] + Encoding(WordArgs(ws)))
  {
    var out := Selector(K, signature);
    for i := 0 to |ws|
      invariant out == Selector(K, signature) + Concat(ws[..i])
    {
      ConcatOneMore(ws, i);
      out := out + ws[i];
    }
    assert ws[..|ws|] == ws && Heads(WordArgs(ws)) == ws;
    StaticTails(WordArgs(ws), |ws|);
    assert Encoding(WordArgs(ws)) == Concat(ws);
    data := Hex.Encode(out);
  }

  const REGISTER: string := "register(bytes32,bytes32,bytes32,bytes32,uint64,string)"

  function RegisterArgs(tenant: Word, meeting: Word, agenda: Word, minutes: Word, ratifiedAt: U64, cid: Bytes)
    : (args: seq<Arg>)
    ensures |args| == 6
  {
    [WordArg(tenant), WordArg(meeting), WordArg(agenda), WordArg(minutes), UintArg(ratifiedAt), StrArg(cid)]
  }

  lemma {:induction false} ConcatPush(ws: seq<Word>, w: Word)
    ensures Concat(ws + [w]) == Concat(ws) + w
  {
    assert (ws + [w])[..|ws|] == ws;
  }

  lemma {:induction false} RegisterLayout(tenant: Word, meeting: Word, agenda: Word, minutes: Word, ratifiedAt: U64, cid: Bytes)
    ensures Encoding(RegisterArgs(tenant, meeting, agenda, minutes, ratifiedAt, cid))
            == Concat([tenant, meeting, agenda, minutes, WordOf(ratifiedAt), WordOf(6 * 32)]) + Tail(StrArg(cid))
  {
    var args := RegisterArgs(tenant, meeting, agenda, minutes, ratifiedAt, cid);
    StaticTails(args, 5);
    assert Tails(args, 6) == Tails(args, 5) + Tail(args[5]);
    assert Heads(args) == [tenant, meeting, agenda, minutes, WordOf(ratifiedAt), WordOf(6 * 32)];
  }

  method EncodeRegister(K: Keccak, tenant: Word, meeting: Word, agenda: Word, minutes: Word, ratifiedAt: U64,
                        cid: string) returns (data: string)
    ensures data == Hex.Encode(K(Utf8.Encode("register(bytes32,bytes32,bytes32,bytes32,uint64,string)"))[..4]
                               + Encoding(RegisterArgs(tenant, meeting, agenda, minutes, ratifiedAt,
                                                       Utf8.Encode(cid))))
  {
    var bytes := Utf8.Encode(cid);
    var out := PushSix(Selector(K, REGISTER), tenant, meeting, agenda, minutes, WordOf(ratifiedAt), WordOf(6 * 32));
    out := PushPayload(out, Selector(K, REGISTER),
                       Concat([tenant, meeting, agenda, minutes, WordOf(ratifiedAt), WordOf(6 * 32)]), bytes);
    RegisterLayout(tenant, meeting, agenda, minutes, ratifiedAt, bytes);
    data := Hex.Encode(out);
  }

  method PushSix(sel: Bytes, a: Word, b: Word, c: Word, d: Word, e: Word, f: Word) returns (out: Bytes)
    ensures out == sel + Concat([a, b, c, d, e, f])
  {
    ghost var ws: seq<Word> := [];
    out := sel;
    out, ws := PushWord(out, sel, ws, a);
    out, ws := PushWord(out, sel, ws, b);
    out, ws := PushWord(out, sel, ws, c);
    out, ws := PushWord(out, sel, ws, d);
    out, ws := PushWord(out, sel, ws, e);
    out, ws := PushWord(out, sel, ws, f);
    assert ws == [a, b, c, d, e, f];
  }

  method PushWord(out: Bytes, ghost sel: Bytes, ghost ws: seq<Word>, w: Word)
    returns (r: Bytes, ghost more: seq<Word>)
    requires out == sel + Concat(ws)
    ensures r == sel + Concat(more) && more == ws + [w]
  {
    ConcatPush(ws, w);
    more := ws + [w];
    r := out + w;
  }

  /** The length word, and the payload padded unless it is empty. */
  method PushPayload(out: Bytes, ghost sel: Bytes, ghost heads: Bytes, bytes: Bytes) returns (r: Bytes)
    requires out == sel + heads
    ensures r == sel + (heads + Tail(StrArg(bytes)))
  {
    var len := WordOf(|bytes|);
    if bytes == [] {
      r := out + len;
      assert Tail(StrArg(bytes)) == len;
    } else {
      var pad := (32 - |bytes| % 32) % 32;
      r := out + len + bytes + Abi.Zeros(pad);
      assert r == sel + (heads + (len + bytes + Abi.Zeros(pad)));
    }
  }

  // ---- text: the deploy and compile encoders ----------------------------

  const DEPLOY: string := "0x3b945b77"
  const PREDICT: string := "0x23828ab5"
  const TEMPLATE_ID: string := "0x2c4d2d89"

  /** tenant, template, creation code, parameters, spec hash, spec id, ceiling, salt, correlation */
  function DeployArgs(tenant: Word, template: Word, code: Bytes, params: Bytes, specHash: Word, cid: Bytes,
                      ceiling: Byte, salt: Word, correlation: Word): (args: seq<Arg>)
    ensures |args| == 9
  {
    [WordArg(tenant), WordArg(template), StrArg(code), StrArg(params), WordArg(specHash), StrArg(cid),
     UintArg(ceiling), WordArg(salt), WordArg(correlation)]
  }

  function Padded(b: Bytes): nat {
    |b| + Padding(|b|)
  }

  /** The nine head texts `encode_deploy_protocol` prints. */
  function DeployHeads(tenant: string, template: string, code: Bytes, params: Bytes, specHash: string,
                       ceiling: Byte, salt: string, correlation: string): (texts: seq<string>)
    ensures |texts| == 9
  {
    HeadsAt(tenant, template, 288, 288 + 32 + Padded(code), specHash, 288 + 32 + Padded(code) + 32 + Padded(params),
            ceiling, salt, correlation)
  }

  /** The same with the three offsets given. */
  function HeadsAt(tenant: string, template: string, x: nat, y: nat, specHash: string, z: nat, ceiling: Byte,
                   salt: string, correlation: string): (texts: seq<string>)
    ensures |texts| == 9
  {
    [WordHex(tenant), WordHex(template), HexNumber(x), HexNumber(y), WordHex(specHash), HexNumber(z),
     HexNumber(ceiling), WordHex(salt), WordHex(correlation)]
  }

  /** `push_str`, keeping count of what the text is made of. */
  method Push(out: string, ghost sel: string, ghost texts: seq<string>, t: string)
    returns (r: string, ghost more: seq<string>)
    requires out == sel + Join(texts)
    ensures r == sel + Join(more) && more == texts + [t]
  {
    more := texts + [t];
    assert more[..|texts|] == texts;
    r := out + t;
  }

  /** The length of a payload and its padded hex. */
  function TailTexts(b: Bytes): seq<string> {
    [HexNumber(|b|), Hex.Raw(b + Abi.Zeros(Padding(|b|)))]
  }

  method PushNine(sel: string, a: string, b: string, c: string, d: string, e: string, f: string, g: string,
                  h: string, i: string) returns (out: string)
    ensures out == sel + Join([a, b, c, d, e, f, g, h, i])
  {
    ghost var texts: seq<string> := [];
    out := sel;
    out, texts := Push(out, sel, texts, a);
    out, texts := Push(out, sel, texts, b);
    out, texts := Push(out, sel, texts, c);
    out, texts := Push(out, sel, texts, d);
    out, texts := Push(out, sel, texts, e);
    out, texts := Push(out, sel, texts, f);
    out, texts := Push(out, sel, texts, g);
    out, texts := Push(out, sel, texts, h);
    out, texts := Push(out, sel, texts, i);
    assert texts == [a, b, c, d, e, f, g, h, i];
  }

  method EncodeDeployProtocol(tenant: string, template: string, code: Bytes, params: Bytes, specHash: string,
                              specCid: string, ceiling: Byte, salt: string, correlation: string)
    returns (out: string)
    ensures out == DEPLOY + Join(DeployHeads(tenant, template, code, params, specHash, ceiling, salt, correlation)
                                 + TailTexts(code) + TailTexts(params) + TailTexts(Utf8.Encode(specCid)))
  {
    var head := 9 * 32;
    var cid := Utf8.Encode(specCid);
    var cc := PadBytes(code);
    var pp := PadBytes(params);
    var ii := PadBytes(cid);
    var offCode := head;
    var offParams := offCode + 32 + |cc| / 2;
    var offCid := offParams + 32 + |pp| / 2;
    HeadsAtOffsets(tenant, template, code, params, specHash, ceiling, salt, correlation, offCode, offParams, offCid);
    ghost var texts := HeadsAt(tenant, template, offCode, offParams, specHash, offCid, ceiling, salt, correlation);
    out := PushNine(DEPLOY, WordHex(tenant), WordHex(template), HexNumber(offCode), HexNumber(offParams),
                    WordHex(specHash), HexNumber(offCid), HexNumber(ceiling), WordHex(salt), WordHex(correlation));
    out, texts := PushTail(out, DEPLOY, texts, code, cc);
    out, texts := PushTail(out, DEPLOY, texts, params, pp);
    out, texts := PushTail(out, DEPLOY, texts, cid, ii);
  }

  method PushTail(out: string, ghost sel: string, ghost texts: seq<string>, b: Bytes, padded: string)
    returns (r: string, ghost more: seq<string>)
    requires out == sel + Join(texts) && padded == Hex.Raw(b + Abi.Zeros(Padding(|b|)))
    ensures r == sel + Join(more) && more == texts + TailTexts(b)
  {
    r, more := Push(out, sel, texts, HexNumber(|b|));
    r, more := Push(r, sel, more, padded);
  }

  /** creation code, parameters, salt */
  function PredictArgs(code: Bytes, params: Bytes, salt: Word): (args: seq<Arg>)
    ensures |args| == 3
  {
    [StrArg(code), StrArg(params), WordArg(salt)]
  }

  function PredictHeads(code: Bytes, params: Bytes, salt: string): (texts: seq<string>)
    ensures |texts| == 3
  {
    [HexNumber(96), HexNumber(96 + 32 + Padded(code)), WordHex(salt)]
  }

  method EncodePredict(code: Bytes, params: Bytes, salt: string) returns (out: string)
    ensures out == PREDICT + Join(PredictHeads(code, params, salt) + TailTexts(code) + TailTexts(params))
  {
    var cc := PadBytes(code);
    var pp := PadBytes(params);
    var head := 3 * 32;
    var offCode := head;
    var offParams := offCode + 32 + |cc| / 2;
    ghost var texts: seq<string> := [];
    out := PREDICT;
    out, texts := Push(out, PREDICT, texts, HexNumber(offCode));
    out, texts := Push(out, PREDICT, texts, HexNumber(offParams));
    out, texts := Push(out, PREDICT, texts, WordHex(salt));
    assert texts == PredictHeads(code, params, salt);
    out, texts := PushTail(out, PREDICT, texts, code, cc);
    out, texts := PushTail(out, PREDICT, texts, params, pp);
  }

  function TemplateIdArgs(name: Bytes, version: U64): (args: seq<Arg>)
    ensures |args| == 2
  {
    [StrArg(name), UintArg(version)]
  }

  method EncodeTemplateId(name: string, version: U64) returns (out: string)
    requires version < 0x1_0000_0000
    ensures out == TEMPLATE_ID + Join([HexNumber(0x40), HexNumber(version)] + TailTexts(Utf8.Encode(name)))
  {
    var bytes := Utf8.Encode(name);
    ghost var texts: seq<string> := [];
    out := TEMPLATE_ID;
    out, texts := Push(out, TEMPLATE_ID, texts, HexNumber(0x40));
    out, texts := Push(out, TEMPLATE_ID, texts, HexNumber(version));
    assert texts == [HexNumber(0x40), HexNumber(version)];
    var padded := PadBytes(bytes);
    out, texts := PushTail(out, TEMPLATE_ID, texts, bytes, padded);
  }

  // ---- the text is the standard encoding --------------------------------

  lemma {:induction false} JoinConcat(xs: seq<string>, ys: seq<string>)
    ensures Join(xs + ys) == Join(xs) + Join(ys)
    decreases |ys|
  {
    if ys == [] {
      assert xs + ys == xs;
    } else {
      var n := |ys| - 1;
      assert (xs + ys)[..|xs + ys| - 1] == xs + ys[..n];
      JoinConcat(xs, ys[..n]);
    }
  }

  lemma {:induction false} JoinTwo(x: string, y: string)
    ensures Join([x, y]) == x + y
  {
    assert [x, y][..1] == [x] && [x][..0] == [];
    assert Join([x]) == [] + x;
  }

  lemma {:induction false} TailTextsAreRaw(b: Bytes)
    requires |b| < TOP
    ensures Join(TailTexts(b)) == Hex.Raw(Tail(StrArg(b)))
  {
    RawOfTail(b);
    JoinTwo(HexNumber(|b|), Hex.Raw(b + Abi.Zeros(Padding(|b|))));
  }

  /** The texts of the tails of the first `n` arguments. */
  function TailsTexts(args: seq<Arg>, n: nat): seq<string>
    requires n <= |args|
  {
    if n == 0 then []
    else TailsTexts(args, n - 1) + ArgTexts(args[n - 1])
  }

  function ArgTexts(a: Arg): seq<string> {
    if a.StrArg? then TailTexts(a.payload) else []
  }

  lemma {:induction false} ArgTextsAreRaw(a: Arg)
    requires !a.WordsArg? && (a.StrArg? ==> |a.payload| < TOP)
    ensures Join(ArgTexts(a)) == Hex.Raw(Tail(a))
  {
    if a.StrArg? {
      TailTextsAreRaw(a.payload);
    }
  }

  predicate NoWordLists(args: seq<Arg>) {
    forall i :: 0 <= i < |args| ==> !args[i].WordsArg?
  }

  lemma {:induction false} JoinStep(x: seq<string>, y: seq<string>, b: Bytes, c: Bytes)
    requires Join(x) == Hex.Raw(b) && Join(y) == Hex.Raw(c)
    ensures Join(x + y) == Hex.Raw(b + c)
  {
    JoinConcat(x, y);
    Hex.RawConcat(b, c);
  }

  lemma {:induction false} PayloadFits(args: seq<Arg>, i: nat)
    requires i < |args| && |Encoding(args)| < TOP
    ensures args[i].StrArg? ==> |args[i].payload| < TOP
  {
    EncodingParts(args, i);
  }

  predicate PayloadsFit(args: seq<Arg>) {
    forall i :: 0 <= i < |args| ==> args[i].StrArg? ==> |args[i].payload| < TOP
  }

  lemma {:induction false} OneMoreTail(args: seq<Arg>, n: nat)
    requires n < |args| && !args[n].WordsArg? && (args[n].StrArg? ==> |args[n].payload| < TOP)
    requires Join(TailsTexts(args, n)) == Hex.Raw(Tails(args, n))
    ensures Join(TailsTexts(args, n + 1)) == Hex.Raw(Tails(args, n + 1))
  {
    ArgTextsAreRaw(args[n]);
    JoinStep(TailsTexts(args, n), ArgTexts(args[n]), Tails(args, n), Tail(args[n]));
  }

  lemma {:induction false} NoTails(args: seq<Arg>)
    ensures Join(TailsTexts(args, 0)) == Hex.Raw(Tails(args, 0))
  {
  }

  lemma {:induction false} TailsTextsAreRaw(args: seq<Arg>, n: nat)
    requires n <= |args| && NoWordLists(args) && PayloadsFit(args)
    ensures Join(TailsTexts(args, n)) == Hex.Raw(Tails(args, n))
    decreases n
  {
    if n == 0 {
      NoTails(args);
    } else {
      var k := n - 1;
      TailsTextsAreRaw(args, k);
      OneMoreTail(args, k);
    }
  }

  /** Heads and tails printed one after the other are the standard encoding exactly when
      the head texts are the head words in hex. */
  lemma {:induction false} TextIsAbi(selector: string, heads: seq<string>, args: seq<Arg>)
    requires NoWordLists(args) && |Encoding(args)| < TOP
    requires |heads| == |args| && forall i :: 0 <= i < |heads| ==> |heads[i]| >= 64
    ensures selector + Join(heads + TailsTexts(args, |args|)) == selector + Hex.Raw(Encoding(args))
            <==> heads == RawHeads(args)
  {
    forall i | 0 <= i < |args| ensures args[i].StrArg? ==> |args[i].payload| < TOP {
      PayloadFits(args, i);
    }
    TailsTextsAreRaw(args, |args|);
    JoinConcat(heads, TailsTexts(args, |args|));
    HeadsAreAbi(heads, args);
    SamePrefix(selector, Join(heads + TailsTexts(args, |args|)), Hex.Raw(Encoding(args)));
  }

  lemma {:induction false} SamePrefix(p: string, x: string, y: string)
    ensures p + x == p + y <==> x == y
  {
    assert (p + x)[|p|..] == x && (p + y)[|p|..] == y;
  }

  lemma {:induction false} OffsetText(args: seq<Arg>, i: nat)
    requires i < |args| && args[i].IsDynamic() && |Encoding(args)| < TOP
    ensures HexNumber(Offset(args, i)) == Hex.Raw(Head(args, i))
  {
    EncodingParts(args, i);
    NumberIsWord(Offset(args, i));
  }

  lemma {:induction false} DeployTails(args: seq<Arg>, code: Bytes, params: Bytes, cid: Bytes)
    requires |args| == 9 && args[2] == StrArg(code) && args[3] == StrArg(params) && args[5] == StrArg(cid)
    requires forall i :: 0 <= i < 9 ==> args[i].IsDynamic() ==> i in {2, 3, 5}
    ensures TailsTexts(args, 9) == TailTexts(code) + TailTexts(params) + TailTexts(cid)
    ensures Offset(args, 2) == 288 && Offset(args, 3) == 288 + 32 + Padded(code)
    ensures Offset(args, 5) == 288 + 32 + Padded(code) + 32 + Padded(params)
  {
    StaticTails(args, 2);
    assert TailsTexts(args, 2) == TailsTexts(args, 1) == TailsTexts(args, 0);
    assert TailsTexts(args, 3) == TailTexts(code);
    assert TailsTexts(args, 5) == TailsTexts(args, 4) == TailTexts(code) + TailTexts(params);
    assert TailsTexts(args, 9) == TailsTexts(args, 8) == TailsTexts(args, 7) == TailsTexts(args, 6);
    assert Tails(args, 3) == Tails(args, 2) + Tail(args[2]);
    assert Tails(args, 4) == Tails(args, 3) + Tail(args[3]);
    assert Tails(args, 5) == Tails(args, 4) + Tail(args[4]);
  }

  lemma {:induction false} DeployHeadsMatch(tenant: string, template: string, code: Bytes, params: Bytes, specHash: string, cid: Bytes,
                         ceiling: Byte, salt: string, correlation: string, t: Word, m: Word, h: Word, s: Word, c: Word)
    requires |Encoding(DeployArgs(t, m, code, params, h, cid, ceiling, s, c))| < TOP
    ensures DeployHeads(tenant, template, code, params, specHash, ceiling, salt, correlation)
            == RawHeads(DeployArgs(t, m, code, params, h, cid, ceiling, s, c))
            <==> (WordHex(tenant) == Hex.Raw(t) && WordHex(template) == Hex.Raw(m) && WordHex(specHash) == Hex.Raw(h)
                  && WordHex(salt) == Hex.Raw(s) && WordHex(correlation) == Hex.Raw(c))
  {
    var args := DeployArgs(t, m, code, params, h, cid, ceiling, s, c);
    var x, y, z := Offset(args, 2), Offset(args, 3), Offset(args, 5);
    TailsStart(args, code, params, cid);
    HeadsAtMatch(tenant, template, code, params, specHash, cid, ceiling, salt, correlation, t, m, h, s, c, x, y, z);
    HeadsAtOffsets(tenant, template, code, params, specHash, ceiling, salt, correlation, x, y, z);
  }

  lemma {:induction false} HeadsAtOffsets(tenant: string, template: string, code: Bytes, params: Bytes, specHash: string,
                                          ceiling: Byte, salt: string, correlation: string, x: nat, y: nat, z: nat)
    requires x == 288 && y == 288 + 32 + Padded(code) && z == 288 + 32 + Padded(code) + 32 + Padded(params)
    ensures DeployHeads(tenant, template, code, params, specHash, ceiling, salt, correlation)
            == HeadsAt(tenant, template, x, y, specHash, z, ceiling, salt, correlation)
  {
  }

  lemma {:induction false} HeadsAtMatch(tenant: string, template: string, code: Bytes, params: Bytes, specHash: string,
                                        cid: Bytes, ceiling: Byte, salt: string, correlation: string, t: Word, m: Word,
                                        h: Word, s: Word, c: Word, x: nat, y: nat, z: nat)
    requires var args := DeployArgs(t, m, code, params, h, cid, ceiling, s, c);
             && |Encoding(args)| < TOP && Offset(args, 2) == x && Offset(args, 3) == y && Offset(args, 5) == z
    ensures HeadsAt(tenant, template, x, y, specHash, z, ceiling, salt, correlation)
            == RawHeads(DeployArgs(t, m, code, params, h, cid, ceiling, s, c))
            <==> (WordHex(tenant) == Hex.Raw(t) && WordHex(template) == Hex.Raw(m) && WordHex(specHash) == Hex.Raw(h)
                  && WordHex(salt) == Hex.Raw(s) && WordHex(correlation) == Hex.Raw(c))
  {
    var args := DeployArgs(t, m, code, params, h, cid, ceiling, s, c);
    var heads := HeadsAt(tenant, template, x, y, specHash, z, ceiling, salt, correlation);
    NineHeads(args, heads, x, y, z, ceiling);
    FiveHeads(t, m, code, params, h, cid, ceiling, s, c);
  }

  lemma {:induction false} FiveHeads(t: Word, m: Word, code: Bytes, params: Bytes, h: Word, cid: Bytes, ceiling: Byte,
                                     s: Word, c: Word)
    ensures var raw := RawHeads(DeployArgs(t, m, code, params, h, cid, ceiling, s, c));
            && raw[0] == Hex.Raw(t) && raw[1] == Hex.Raw(m) && raw[4] == Hex.Raw(h) && raw[7] == Hex.Raw(s)
            && raw[8] == Hex.Raw(c)
  {
  }

  /** With the four numbers in place, nine texts are the heads exactly when the other five are. */
  lemma {:induction false} NineHeads(args: seq<Arg>, texts: seq<string>, x: nat, y: nat, z: nat, ceiling: Byte)
    requires |args| == |texts| == 9 && args[2].IsDynamic() && args[3].IsDynamic() && args[5].IsDynamic()
    requires args[6] == UintArg(ceiling) && |Encoding(args)| < TOP
    requires Offset(args, 2) == x && Offset(args, 3) == y && Offset(args, 5) == z
    requires texts[2] == HexNumber(x) && texts[3] == HexNumber(y) && texts[5] == HexNumber(z)
    requires texts[6] == HexNumber(ceiling)
    ensures var raw := RawHeads(args);
            texts == raw <==> (texts[0] == raw[0] && texts[1] == raw[1] && texts[4] == raw[4] && texts[7] == raw[7]
                               && texts[8] == raw[8])
  {
    HeadText(args, 2, x);
    HeadText(args, 3, y);
    HeadText(args, 5, z);
    NumberIsWord(ceiling);
    var raw := RawHeads(args);
    if texts[0] == raw[0] && texts[1] == raw[1] && texts[4] == raw[4] && texts[7] == raw[7] && texts[8] == raw[8] {
      NineEqual(raw, texts);
    }
  }

  lemma {:induction false} NineEqual(x: seq<string>, y: seq<string>)
    requires |x| == |y| == 9
    requires x[0] == y[0] && x[1] == y[1] && x[2] == y[2] && x[3] == y[3] && x[4] == y[4]
    requires x[5] == y[5] && x[6] == y[6] && x[7] == y[7] && x[8] == y[8]
    ensures x == y
  {
  }

  lemma {:induction false} TailsStart(args: seq<Arg>, code: Bytes, params: Bytes, cid: Bytes)
    requires |args| == 9 && args[2] == StrArg(code) && args[3] == StrArg(params) && args[5] == StrArg(cid)
    requires forall i :: 0 <= i < 9 ==> args[i].IsDynamic() ==> i in {2, 3, 5}
    ensures Offset(args, 2) == 288 && Offset(args, 3) == 288 + 32 + Padded(code)
    ensures Offset(args, 5) == 288 + 32 + Padded(code) + 32 + Padded(params)
    ensures args[2].IsDynamic() && args[3].IsDynamic() && args[5].IsDynamic()
  {
    DeployTails(args, code, params, cid);
  }

  lemma {:induction false} HeadText(args: seq<Arg>, i: nat, offset: nat)
    requires i < |args| && args[i].IsDynamic() && |Encoding(args)| < TOP && Offset(args, i) == offset
    ensures RawHeads(args)[i] == HexNumber(offset)
  {
    OffsetText(args, i);
  }

  /** `deployProtocol` calldata is the standard encoding of its nine arguments exactly
      when the five identifiers are the texts of the five words. */
  lemma {:induction false} DeployIsAbi(tenant: string, template: string, code: Bytes, params: Bytes, specHash: string, cid: Bytes,
                    ceiling: Byte, salt: string, correlation: string, t: Word, m: Word, h: Word, s: Word, c: Word)
    requires |Encoding(DeployArgs(t, m, code, params, h, cid, ceiling, s, c))| < TOP
    ensures var heads := DeployHeads(tenant, template, code, params, specHash, ceiling, salt, correlation);
            DEPLOY + Join(heads + TailTexts(code) + TailTexts(params) + TailTexts(cid))
            == DEPLOY + Hex.Raw(Encoding(DeployArgs(t, m, code, params, h, cid, ceiling, s, c)))
            <==> (WordHex(tenant) == Hex.Raw(t) && WordHex(template) == Hex.Raw(m) && WordHex(specHash) == Hex.Raw(h)
                  && WordHex(salt) == Hex.Raw(s) && WordHex(correlation) == Hex.Raw(c))
  {
    var args := DeployArgs(t, m, code, params, h, cid, ceiling, s, c);
    var heads := DeployHeads(tenant, template, code, params, specHash, ceiling, salt, correlation);
    DeployTails(args, code, params, cid);
    ThreeTails(heads, TailTexts(code), TailTexts(params), TailTexts(cid));
    DeployHeadsAreWide(tenant, template, code, params, specHash, ceiling, salt, correlation);
    TextIsAbi(DEPLOY, heads, args);
    DeployHeadsMatch(tenant, template, code, params, specHash, cid, ceiling, salt, correlation, t, m, h, s, c);
  }

  lemma {:induction false} ThreeTails(heads: seq<string>, x: seq<string>, y: seq<string>, z: seq<string>)
    ensures heads + (x + y + z) == heads + x + y + z
  {
  }

  lemma {:induction false} DeployHeadsAreWide(tenant: string, template: string, code: Bytes, params: Bytes, specHash: string,
                           ceiling: Byte, salt: string, correlation: string)
    ensures var heads := DeployHeads(tenant, template, code, params, specHash, ceiling, salt, correlation);
            forall i :: 0 <= i < |heads| ==> |heads[i]| >= 64
  {
  }

  lemma {:induction false} PredictTails(args: seq<Arg>, code: Bytes, params: Bytes)
    requires |args| == 3 && args[0] == StrArg(code) && args[1] == StrArg(params) && !args[2].IsDynamic()
    ensures TailsTexts(args, 3) == [] + TailTexts(code) + TailTexts(params)
    ensures Offset(args, 0) == 96 && Offset(args, 1) == 96 + 32 + Padded(code)
  {
    assert TailsTexts(args, 1) == [] + TailTexts(code);
    assert TailsTexts(args, 3) == TailsTexts(args, 2) == TailsTexts(args, 1) + TailTexts(params);
    assert Tails(args, 1) == Tails(args, 0) + Tail(args[0]);
  }

  lemma {:induction false} PredictHeadsMatch(code: Bytes, params: Bytes, salt: string, s: Word)
    requires |Encoding(PredictArgs(code, params, s))| < TOP
    ensures PredictHeads(code, params, salt) == RawHeads(PredictArgs(code, params, s)) <==> WordHex(salt) == Hex.Raw(s)
  {
    var args := PredictArgs(code, params, s);
    var x, y := Offset(args, 0), Offset(args, 1);
    PredictTails(args, code, params);
    HeadText(args, 0, x);
    HeadText(args, 1, y);
    PredictHeadsAt(code, params, salt, x, y);
    var raw := RawHeads(args);
    assert raw[2] == Hex.Raw(s);
    assert raw == [raw[0], raw[1], raw[2]];
  }

  lemma {:induction false} PredictHeadsAt(code: Bytes, params: Bytes, salt: string, x: nat, y: nat)
    requires x == 96 && y == 96 + 32 + Padded(code)
    ensures PredictHeads(code, params, salt) == [HexNumber(x), HexNumber(y), WordHex(salt)]
  {
  }

  /** `predict` calldata likewise. */
  lemma {:induction false} PredictIsAbi(code: Bytes, params: Bytes, salt: string, s: Word)
    requires |Encoding(PredictArgs(code, params, s))| < TOP
    ensures PREDICT + Join(PredictHeads(code, params, salt) + TailTexts(code) + TailTexts(params))
            == PREDICT + Hex.Raw(Encoding(PredictArgs(code, params, s)))
            <==> WordHex(salt) == Hex.Raw(s)
  {
    var args, heads := PredictArgs(code, params, s), PredictHeads(code, params, salt);
    PredictTexts(heads, args, code, params);
    PredictHeadsMatch(code, params, salt, s);
    TextIsAbi(PREDICT, heads, args);
  }

  lemma {:induction false} PredictTexts(heads: seq<string>, args: seq<Arg>, code: Bytes, params: Bytes)
    requires |args| == 3 && args[0] == StrArg(code) && args[1] == StrArg(params) && !args[2].IsDynamic()
    ensures heads + TailsTexts(args, 3) == heads + TailTexts(code) + TailTexts(params)
  {
    PredictTails(args, code, params);
    ThreeTails(heads, [], TailTexts(code), TailTexts(params));
    assert heads + [] == heads;
  }

  /** `templateId` calldata is the standard encoding of its name and version. */
  lemma {:induction false} TemplateIdIsAbi(name: Bytes, version: U64)
    requires |Encoding(TemplateIdArgs(name, version))| < TOP
    ensures TEMPLATE_ID + Join([HexNumber(0x40), HexNumber(version)] + TailTexts(name))
            == TEMPLATE_ID + Hex.Raw(Encoding(TemplateIdArgs(name, version)))
  {
    var args, heads := TemplateIdArgs(name, version), [HexNumber(0x40), HexNumber(version)];
    assert TailsTexts(args, 2) == TailsTexts(args, 1) == TailTexts(name);
    TextIsAbi(TEMPLATE_ID, heads, args);
    OffsetText(args, 0);
    NumberIsWord(version);
    var raw := RawHeads(args);
    assert raw[0] == heads[0] && raw[1] == heads[1];
  }
}
