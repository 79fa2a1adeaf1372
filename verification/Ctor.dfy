/** Constructor arguments: the on-chain identities a protocol counts, and the two
    templates this application can construct. */
module Ctor {
  import opened Basics
  import opened Abi
  import opened AbiDecode
  import opened Calldata
  import Hex
  import Utf8

  datatype CtorError =
    | MissingParam(param: string)
    | BadParam(param: string, text: string)
    | MissingContract
    | NotEnoughApprovers(have: nat, need: U64)
    | NoApprovers
    | Unbindable(principal: string)
    | DuplicateApprover(principal: string)
    | TooManyApprovers(have: nat)
    | MinApproversTooLow
    | RosterTooSmall(have: nat, minApprovers: U64)
    | Unsupported(template: string)

  const MAX_IDENTITIES: nat := 64

  // ---- identities -------------------------------------------------------

  predicate IsHexDigit(c: char) {
    Hex.DigitValue(c).Some?
  }

  /** The forty digits of an address written with either prefix. */
  function AddressDigits(principal: string): Option<string> {
    var p := Trim(principal);
    if StartsWith(p, "0x") || StartsWith(p, "0X") then
      var digits := p[2..];
      if |digits| == 40 && forall i :: 0 <= i < 40 ==> IsHexDigit(digits[i]) then Some(digits) else None
    else None
  }

  /** `subjectKey(who)`: the hash of the lower-case text of the address. */
  function EnvelopeIdentity(K: Keccak, principal: string): Option<Word> {
    match AddressDigits(principal)
    case None => None
    case Some(digits) => Some(K(Utf8.Encode("0x" + Lower(digits))))
  }

  /** The identities of the first `n` principals, in order, or what is wrong with the
      first bad one. */
  function Identities(K: Keccak, ps: seq<string>, n: nat): (r: Result<seq<Word>, CtorError>)
    requires n <= |ps|
    ensures r.Ok? ==> |r.value| == n
  {
    if n == 0 then Ok([])
    else match Identities(K, ps, n - 1)
      case Err(e) => Err(e)
      case Ok(ids) =>
        match EnvelopeIdentity(K, ps[n - 1])
        case None => Err(Unbindable(ps[n - 1]))
        case Some(id) => if id in ids then Err(DuplicateApprover(ps[n - 1])) else Ok(ids + [id])
  }

  function AllIdentities(K: Keccak, ps: seq<string>): Result<seq<Word>, CtorError> {
    if |ps| > MAX_IDENTITIES then Err(TooManyApprovers(|ps|)) else Identities(K, ps, |ps|)
  }

  lemma {:induction false} IdentitiesFail(K: Keccak, ps: seq<string>, n: nat)
    requires n <= |ps| && Identities(K, ps, n).Err?
    ensures Identities(K, ps, |ps|) == Identities(K, ps, n)
    decreases |ps| - n
  {
    if n < |ps| {
      IdentitiesFail(K, ps, n + 1);
    }
  }

  method EnvelopeIdentities(K: Keccak, ps: seq<string>) returns (r: Result<seq<Word>, CtorError>)
    ensures r == AllIdentities(K, ps)
  {
    if |ps| > MAX_IDENTITIES { return Err(TooManyApprovers(|ps|)); }
    var out: seq<Word> := [];
    for i := 0 to |ps|
      invariant Identities(K, ps, i) == Ok(out)
    {
      var id := EnvelopeIdentity(K, ps[i]);
      if id.None? {
        IdentitiesFail(K, ps, i + 1);
        return Err(Unbindable(ps[i]));
      }
      if id.value in out {
        IdentitiesFail(K, ps, i + 1);
        return Err(DuplicateApprover(ps[i]));
      }
      out := out + [id.value];
    }
    r := Ok(out);
  }

  predicate Bindable(K: Keccak, ps: seq<string>) {
    forall i :: 0 <= i < |ps| ==> EnvelopeIdentity(K, ps[i]).Some?
  }

  predicate AllDistinct(K: Keccak, ps: seq<string>) {
    forall i, j :: 0 <= i < j < |ps| ==> EnvelopeIdentity(K, ps[i]) != EnvelopeIdentity(K, ps[j])
  }

  predicate AreTheirs(K: Keccak, ps: seq<string>, ids: seq<Word>) {
    |ids| == |ps| && forall i :: 0 <= i < |ps| ==> EnvelopeIdentity(K, ps[i]) == Some(ids[i])
  }

  lemma {:induction false} IdentitiesAre(K: Keccak, ps: seq<string>, n: nat)
    requires n <= |ps|
    ensures Identities(K, ps, n).Ok? <==> Bindable(K, ps[..n]) && AllDistinct(K, ps[..n])
    ensures Identities(K, ps, n).Ok? ==> AreTheirs(K, ps[..n], Identities(K, ps, n).value)
  {
    if n > 0 {
      var k := n - 1;
      IdentitiesAre(K, ps, k);
      var before, now := ps[..k], ps[..n];
      assert now == before + [ps[k]];
      if Bindable(K, now) && AllDistinct(K, now) {
        assert Bindable(K, before) by {
          forall i | 0 <= i < k ensures EnvelopeIdentity(K, before[i]).Some? { assert before[i] == now[i]; }
        }
        assert AllDistinct(K, before) by {
          forall i, j | 0 <= i < j < k ensures EnvelopeIdentity(K, before[i]) != EnvelopeIdentity(K, before[j]) {
            assert before[i] == now[i] && before[j] == now[j];
          }
        }
        var ids := Identities(K, ps, k).value;
        forall i | 0 <= i < k ensures Some(ids[i]) != EnvelopeIdentity(K, now[k]) {
          assert EnvelopeIdentity(K, now[i]) == Some(ids[i]);
        }
      }
    }
  }

  /** Principals bind exactly when there are at most 64, every one is an address, and no
      two are one identity; then each has its own, in the order written. */
  lemma {:induction false} IdentitiesBind(K: Keccak, ps: seq<string>)
    ensures AllIdentities(K, ps).Ok? <==> |ps| <= 64 && Bindable(K, ps) && AllDistinct(K, ps)
    ensures AllIdentities(K, ps).Ok? ==> AreTheirs(K, ps, AllIdentities(K, ps).value)
  {
    IdentitiesAre(K, ps, |ps|);
    assert ps[..|ps|] == ps;
  }

  /** The i-th principal is the first that is no address, or the first that repeats one. */
  predicate FirstBad(K: Keccak, ps: seq<string>, i: nat, e: CtorError) {
    && i < |ps| && Bindable(K, ps[..i]) && AllDistinct(K, ps[..i])
    && (if EnvelopeIdentity(K, ps[i]).None? then e == Unbindable(ps[i])
        else e == DuplicateApprover(ps[i])
             && exists j | 0 <= j < i :: EnvelopeIdentity(K, ps[j]) == EnvelopeIdentity(K, ps[i]))
  }

  lemma {:induction false} NamesTheFirstBad(K: Keccak, ps: seq<string>, n: nat) returns (i: nat)
    requires n <= |ps| && Identities(K, ps, n).Err?
    ensures i < n && FirstBad(K, ps, i, Identities(K, ps, n).error)
  {
    i := n - 1;
    IdentitiesAre(K, ps, i);
    if Identities(K, ps, i).Err? {
      i := NamesTheFirstBad(K, ps, i);
    } else {
      var ids := Identities(K, ps, i).value;
      var id := EnvelopeIdentity(K, ps[i]);
      if id.Some? {
        var j: nat :| j < |ids| && ids[j] == id.value;
        assert ps[..i][j] == ps[j];
      }
    }
  }

  /** A refusal names the first principal that is no address or repeats one; more than 64
      are refused by their number. */
  lemma {:induction false} RefusalNamesTheFirstBad(K: Keccak, ps: seq<string>) returns (i: nat)
    requires AllIdentities(K, ps).Err?
    ensures if |ps| > MAX_IDENTITIES then AllIdentities(K, ps) == Err(TooManyApprovers(|ps|))
            else FirstBad(K, ps, i, AllIdentities(K, ps).error)
  {
    i := 0;
    if |ps| <= MAX_IDENTITIES {
      i := NamesTheFirstBad(K, ps, |ps|);
    }
  }

  /** Two spellings of one address are one identity. */
  lemma {:induction false} CaseDoesNotMatter(K: Keccak, p: string, q: string)
    requires AddressDigits(p).Some? && AddressDigits(q).Some?
    requires Lower(AddressDigits(p).value) == Lower(AddressDigits(q).value)
    ensures EnvelopeIdentity(K, p) == EnvelopeIdentity(K, q)
    ensures forall ps, i, j :: 0 <= i < j < |ps| && ps[i] == p && ps[j] == q ==> AllIdentities(K, ps).Err?
  {
    forall ps: seq<string>, i, j | 0 <= i < j < |ps| && ps[i] == p && ps[j] == q
      ensures AllIdentities(K, ps).Err?
    {
      IdentitiesBind(K, ps);
    }
  }

  // ---- the two templates ------------------------------------------------

  datatype Context = Context(
    tenantId: Word,
    templateId: Word,
    version: U64,
    specHash: Word,
    specCid: string,
    params: map<string, string>,
    principals: seq<string>,
    envelopes: Option<Address>)

  function Opening(ctx: Context): (args: seq<Arg>)
    ensures |args| == 5
  {
    [WordArg(ctx.tenantId), WordArg(ctx.templateId), UintArg(ctx.version), WordArg(ctx.specHash),
     StrArg(Utf8.Encode(ctx.specCid))]
  }

  function UintParam(ctx: Context, name: string): Result<U64, CtorError> {
    if name !in ctx.params then Err(MissingParam(name))
    else match ParseU64(ctx.params[name])
      case None => Err(BadParam(name, ctx.params[name]))
      case Some(n) => Ok(n)
  }

  function ThresholdArgs(ctx: Context, envelopes: Address, approvers: seq<Word>, threshold: U64): (args: seq<Arg>)
    ensures |args| == 8
  {
    Opening(ctx) + [AddressArg(envelopes), WordsArg(approvers), UintArg(threshold)]
  }

  function RosterArgs(ctx: Context, envelopes: Address, minApprovers: U64, roster: seq<Word>): (args: seq<Arg>)
    ensures |args| == 8
  {
    Opening(ctx) + [AddressArg(envelopes), UintArg(minApprovers), WordsArg(roster)]
  }

  const LAST_U64: U64 := 0xFFFF_FFFF_FFFF_FFFF

  /** The identities of the context's principals read back from argument `i`. */
  predicate ReadsTheirs(K: Keccak, ctx: Context, b: Bytes, i: nat) {
    && WordU64(b, i).Some? && WordArrayAt(b, WordU64(b, i).value).Ok?
    && AreTheirs(K, ctx.principals, WordArrayAt(b, WordU64(b, i).value).value)
  }

  /** The i-th word of the bytes. */
  predicate WordIs(b: Bytes, i: nat, w: Bytes) {
    32 * i + 32 <= |b| && b[32 * i..32 * i + 32] == w
  }

  /** The first six arguments, each from its own field of the context. */
  predicate Opens(ctx: Context, b: Bytes) {
    && WordIs(b, 0, ctx.tenantId) && WordIs(b, 1, ctx.templateId) && WordU64(b, 2) == Some(ctx.version)
    && WordIs(b, 3, ctx.specHash)
    && WordU64(b, 4).Some? && PayloadAt(b, WordU64(b, 4).value) == Ok(Utf8.Encode(ctx.specCid))
    && ctx.envelopes.Some? && WordIs(b, 5, seq(12, i => 0) + ctx.envelopes.value)
  }

  lemma {:induction false} OpeningReads(ctx: Context, args: seq<Arg>, x: Arg, y: Arg)
    requires ctx.envelopes.Some? && args == Opening(ctx) + [AddressArg(ctx.envelopes.value), x, y]
    requires |Encoding(args)| < TOP
    ensures Opens(ctx, Encoding(args))
  {
    RoundTrip(args, 0);
    RoundTrip(args, 1);
    RoundTrip(args, 2);
    RoundTrip(args, 3);
    RoundTrip(args, 4);
    RoundTrip(args, 5);
    assert args[0] == WordArg(ctx.tenantId) && args[1] == WordArg(ctx.templateId) && args[2] == UintArg(ctx.version)
        && args[3] == WordArg(ctx.specHash) && args[4] == StrArg(Utf8.Encode(ctx.specCid))
        && args[5] == AddressArg(ctx.envelopes.value);
  }

  lemma {:induction false} EncodedOpens(K: Keccak, template: string, ctx: Context)
    ensures Encoded(K, template, ctx).Ok? && |Encoded(K, template, ctx).value| < TOP ==>
              Opens(ctx, Encoded(K, template, ctx).value)
  {
    var r := Encoded(K, template, ctx);
    if r.Ok? && |r.value| < TOP {
      var ids := AllIdentities(K, ctx.principals).value;
      if template == "ThresholdApproval" {
        var n := UintParam(ctx, "threshold").value;
        OpeningReads(ctx, ThresholdArgs(ctx, ctx.envelopes.value, ids, n), WordsArg(ids), UintArg(n));
      } else {
        var n := UintParam(ctx, "minApprovers").value;
        OpeningReads(ctx, RosterArgs(ctx, ctx.envelopes.value, n, ids), UintArg(n), WordsArg(ids));
      }
    }
  }

  /** A parameter is read exactly when it is there and is a number. */
  lemma {:induction false} ParamIs(ctx: Context, name: string, n: U64)
    ensures UintParam(ctx, name) == Ok(n) <==> name in ctx.params && ParseU64(ctx.params[name]) == Some(n)
    ensures UintParam(ctx, name) == Err(MissingParam(name)) <==> name !in ctx.params
    ensures UintParam(ctx, name).Err? <==> name !in ctx.params || ParseU64(ctx.params[name]).None?
  {
  }

  /** An identity is the hash of the address in lower case, whatever space stands around it
      and however its prefix is written; forty hex digits make an address. */
  lemma {:induction false} IdentityIs(K: Keccak, principal: string, digits: string)
    requires Trim(principal) in {"0x" + digits, "0X" + digits}
    ensures EnvelopeIdentity(K, principal)
            == if |digits| == 40 && (forall c :: c in digits ==> Hex.DigitValue(c).Some?)
               then Some(K(Utf8.Encode("0x" + Lower(digits)))) else None
  {
    assert Trim(principal)[2..] == digits && Trim(principal)[..2] in {"0x", "0X"};
    if forall i :: 0 <= i < |digits| ==> IsHexDigit(digits[i]) {
      forall c | c in digits ensures Hex.DigitValue(c).Some? {
        var i :| 0 <= i < |digits| && digits[i] == c;
        assert IsHexDigit(digits[i]);
      }
    }
  }

  /** Constructor bytes come out exactly when the protocol could be met by the people
      named, and then say who they are and how many of them it takes. */
  method Encode(K: Keccak, template: string, ctx: Context) returns (r: Result<Bytes, CtorError>)
    ensures r == Encoded(K, template, ctx)
    ensures r.Ok? ==> template in ["ThresholdApproval", "SegregationOfDuties"]
    ensures r.Ok? && |r.value| < TOP ==> Opens(ctx, r.value)
    ensures template == "ThresholdApproval" ==>
              var t := UintParam(ctx, "threshold");
              && (r.Ok? <==> t.Ok? && Seatable(K, ctx.principals) && t.value <= |ctx.principals|
                             && ctx.envelopes.Some?)
              && (r.Ok? && |r.value| < TOP ==> WordU64(r.value, 7) == Some(t.value) && ReadsTheirs(K, ctx, r.value, 6))
    ensures template == "SegregationOfDuties" ==>
              var m := UintParam(ctx, "minApprovers");
              && (r.Ok? <==> m.Ok? && m.value >= 1 && Seatable(K, ctx.principals) && m.value < |ctx.principals|
                             && ctx.envelopes.Some?)
              && (r.Ok? && |r.value| < TOP ==> WordU64(r.value, 6) == Some(m.value) && ReadsTheirs(K, ctx, r.value, 7))
  {
    ThresholdIsMeetable(K, ctx);
    RosterIsMeetable(K, ctx);
    EncodedOpens(K, template, ctx);
    if template == "ThresholdApproval" {
      var threshold := UintParam(ctx, "threshold");
      if threshold.Err? { return Err(threshold.error); }
      if ctx.principals == [] { return Err(NoApprovers); }
      var approvers := EnvelopeIdentities(K, ctx.principals);
      if approvers.Err? { return Err(approvers.error); }
      if |approvers.value| < threshold.value {
        return Err(NotEnoughApprovers(|approvers.value|, threshold.value % 0x1_0000_0000));
      }
      if ctx.envelopes.None? { return Err(MissingContract); }
      var out := AbiEncode(ThresholdArgs(ctx, ctx.envelopes.value, approvers.value, threshold.value));
      return Ok(out);
    }
    if template == "SegregationOfDuties" {
      var least := UintParam(ctx, "minApprovers");
      if least.Err? { return Err(least.error); }
      if least.value == 0 { return Err(MinApproversTooLow); }
      if ctx.principals == [] { return Err(NoApprovers); }
      var roster := EnvelopeIdentities(K, ctx.principals);
      if roster.Err? { return Err(roster.error); }
      var seats := if least.value < LAST_U64 then least.value + 1 else LAST_U64;
      if |roster.value| < seats { return Err(RosterTooSmall(|roster.value|, least.value)); }
      if ctx.envelopes.None? { return Err(MissingContract); }
      var out := AbiEncode(RosterArgs(ctx, ctx.envelopes.value, least.value, roster.value));
      return Ok(out);
    }
    r := Err(Unsupported(template));
  }

  function Encoded(K: Keccak, template: string, ctx: Context): Result<Bytes, CtorError> {
    if template == "ThresholdApproval" then
      match UintParam(ctx, "threshold")
      case Err(e) => Err(e)
      case Ok(threshold) =>
        if ctx.principals == [] then Err(NoApprovers)
        else match AllIdentities(K, ctx.principals)
          case Err(e) => Err(e)
          case Ok(approvers) =>
            if |approvers| < threshold then Err(NotEnoughApprovers(|approvers|, threshold % 0x1_0000_0000))
            else if ctx.envelopes.None? then Err(MissingContract)
            else Ok(Encoding(ThresholdArgs(ctx, ctx.envelopes.value, approvers, threshold)))
    else if template == "SegregationOfDuties" then
      match UintParam(ctx, "minApprovers")
      case Err(e) => Err(e)
      case Ok(least) =>
        if least == 0 then Err(MinApproversTooLow)
        else if ctx.principals == [] then Err(NoApprovers)
        else match AllIdentities(K, ctx.principals)
          case Err(e) => Err(e)
          case Ok(roster) =>
            if |roster| < least + 1 then Err(RosterTooSmall(|roster|, least))
            else if ctx.envelopes.None? then Err(MissingContract)
            else Ok(Encoding(RosterArgs(ctx, ctx.envelopes.value, least, roster)))
    else Err(Unsupported(template))
  }

  /** What a context lacks, in the order it is asked for; any other template is refused. */
  lemma {:induction false} Refusals(K: Keccak, template: string, ctx: Context)
    ensures template !in {"ThresholdApproval", "SegregationOfDuties"} ==>
              Encoded(K, template, ctx) == Err(Unsupported(template))
    ensures template in {"ThresholdApproval", "SegregationOfDuties"} ==>
              var name := if template == "ThresholdApproval" then "threshold" else "minApprovers";
              var r := Encoded(K, template, ctx);
              if name !in ctx.params then r == Err(MissingParam(name))
              else if ParseU64(ctx.params[name]).None? then r == Err(BadParam(name, ctx.params[name]))
              else
                var n, people := ParseU64(ctx.params[name]).value, |ctx.principals|;
                if template == "SegregationOfDuties" && n == 0 then r == Err(MinApproversTooLow)
                else if people == 0 then r == Err(NoApprovers)
                else if AllIdentities(K, ctx.principals).Err? then r == Err(AllIdentities(K, ctx.principals).error)
                else if template == "ThresholdApproval" && people < n then
                  r == Err(NotEnoughApprovers(people, n % 0x1_0000_0000))
                else if template == "SegregationOfDuties" && people <= n then r == Err(RosterTooSmall(people, n))
                else ctx.envelopes.None? <==> r == Err(MissingContract)
  {
    IdentitiesBind(K, ctx.principals);
  }

  /** The principals can be bound, and there are some. */
  predicate Seatable(K: Keccak, ps: seq<string>) {
    1 <= |ps| <= MAX_IDENTITIES && Bindable(K, ps) && AllDistinct(K, ps)
  }

  /** A threshold protocol is encoded exactly when its people bind and can meet the
      threshold; its constructor then reads back their identities and the threshold. */
  lemma {:induction false} ThresholdIsMeetable(K: Keccak, ctx: Context)
    ensures var t := UintParam(ctx, "threshold");
            Encoded(K, "ThresholdApproval", ctx).Ok?
            <==> t.Ok? && Seatable(K, ctx.principals) && t.value <= |ctx.principals| && ctx.envelopes.Some?
    ensures Encoded(K, "ThresholdApproval", ctx).Ok? && |Encoded(K, "ThresholdApproval", ctx).value| < TOP ==>
              var b := Encoded(K, "ThresholdApproval", ctx).value;
              && WordU64(b, 7) == Some(UintParam(ctx, "threshold").value)
              && ReadsTheirs(K, ctx, b, 6)
  {
    IdentitiesBind(K, ctx.principals);
    var r := Encoded(K, "ThresholdApproval", ctx);
    if r.Ok? && |r.value| < TOP {
      var args := ThresholdArgs(ctx, ctx.envelopes.value, AllIdentities(K, ctx.principals).value,
                                UintParam(ctx, "threshold").value);
      RoundTrip(args, 6);
      RoundTrip(args, 7);
    }
  }

  /** A roster protocol is encoded exactly when, beside a proposer, enough distinct
      people are left to approve, and at least one must. */
  lemma {:induction false} RosterIsMeetable(K: Keccak, ctx: Context)
    ensures var m := UintParam(ctx, "minApprovers");
            Encoded(K, "SegregationOfDuties", ctx).Ok?
            <==> m.Ok? && m.value >= 1 && Seatable(K, ctx.principals) && m.value < |ctx.principals|
                 && ctx.envelopes.Some?
    ensures Encoded(K, "SegregationOfDuties", ctx).Ok? && |Encoded(K, "SegregationOfDuties", ctx).value| < TOP ==>
              var b := Encoded(K, "SegregationOfDuties", ctx).value;
              && WordU64(b, 6) == Some(UintParam(ctx, "minApprovers").value)
              && ReadsTheirs(K, ctx, b, 7)
  {
    IdentitiesBind(K, ctx.principals);
    var r := Encoded(K, "SegregationOfDuties", ctx);
    if r.Ok? && |r.value| < TOP {
      var args := RosterArgs(ctx, ctx.envelopes.value, UintParam(ctx, "minApprovers").value,
                             AllIdentities(K, ctx.principals).value);
      RoundTrip(args, 6);
      RoundTrip(args, 7);
    }
  }
}
