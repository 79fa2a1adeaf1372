/** Decision records and the per-tenant hash chain that makes them evidence.
    The hash function is a parameter `H` throughout: nothing is assumed about it,
    so every tamper result says "the same history, or here is the collision". */
module Audit {
  import opened Basics
  import Utf8

  type Hash = Bytes -> Word

  datatype Verdict = Allow | RequireApproval | Deny | Ungoverned | Rejected | Approved

  datatype HicLevel = Observed | ApproveEach | Budgeted | PostHoc | Ungoverned

  datatype DecisionRecord = DecisionRecord(
    agent: string,
    principal: Option<string>,
    grantId: Option<string>,
    actionClass: string,
    paramsHash: Word,
    verdict: Verdict,
    hic: HicLevel,
    modelId: string,
    correlationId: string,
    timestampMs: I64)
  {
    /** `is_consistent`: which authority each verdict has to name. */
    predicate Consistent() {
      match verdict
      case Ungoverned => principal.None? && grantId.None? && hic == HicLevel.Ungoverned
      case Rejected => true
      case Approved => principal.Some?
      case _ => principal.Some? && grantId.Some?
    }

    /** The record with an absent principal or grant replaced by an empty one. */
    function Filled(): DecisionRecord {
      this.(principal := Some(OrEmpty(principal)), grantId := Some(OrEmpty(grantId)))
    }

    /** Every text field is short enough for its 32-bit length prefix. */
    predicate Framed() {
      && Short(agent) && Short(OrEmpty(principal)) && Short(OrEmpty(grantId))
      && Short(actionClass) && Short(modelId) && Short(correlationId)
    }
  }

  function OrEmpty(s: Option<string>): string {
    if s.Some? then s.value else ""
  }

  predicate Short(s: string) {
    |Utf8.Encode(s)| < Pow256(4)
  }

  function VerdictTag(v: Verdict): Byte {
    match v
    case Allow => 0
    case RequireApproval => 1
    case Deny => 2
    case Ungoverned => 3
    case Rejected => 4
    case Approved => 5
  }

  function HicTag(h: HicLevel): Byte {
    match h
    case Observed => 0
    case ApproveEach => 1
    case Budgeted => 2
    case PostHoc => 3
    case Ungoverned => 0xFF
  }

  /** A length-prefixed field; the length is cast to 32 bits. */
  function Frame(b: Bytes): Bytes {
    BigEndian(|b|, 4) + b
  }

  function FrameText(s: string): Bytes {
    Frame(Utf8.Encode(s))
  }

  /** The two's-complement image of a signed 64-bit integer. */
  function Unsigned64(n: I64): nat {
    if n < 0 then n + 0x1_0000_0000_0000_0000 else n
  }

  /** `canonical`: the bytes a record contributes to the chain. An absent principal
      or grant is written as an empty one. */
  function Canonical(r: DecisionRecord): Bytes {
    FrameText(r.agent) + (FrameText(OrEmpty(r.principal)) + (FrameText(OrEmpty(r.grantId))
    + (FrameText(r.actionClass) + (Frame(r.paramsHash) + ([VerdictTag(r.verdict), HicTag(r.hic)]
    + (FrameText(r.modelId) + (FrameText(r.correlationId)
    + BigEndian(Unsigned64(r.timestampMs), 8))))))))
  }

  lemma {:induction false} FrameCancels(a: Bytes, b: Bytes, x: Bytes, y: Bytes)
    requires |a| < Pow256(4) && |b| < Pow256(4)
    requires Frame(a) + x == Frame(b) + y
    ensures a == b && x == y
  {
    var s := Frame(a) + x;
    assert s[..4] == BigEndian(|a|, 4) && s[..4] == BigEndian(|b|, 4);
    BigEndianRoundTrip(|a|, 4);
    BigEndianRoundTrip(|b|, 4);
    assert s[4..4 + |a|] == a && s[4..4 + |a|] == b;
    assert s[4 + |a|..] == x && s[4 + |a|..] == y;
  }

  lemma {:induction false} TextCancels(a: string, b: string, x: Bytes, y: Bytes)
    requires Short(a) && Short(b)
    requires FrameText(a) + x == FrameText(b) + y
    ensures a == b && x == y
  {
    FrameCancels(Utf8.Encode(a), Utf8.Encode(b), x, y);
    Utf8.Injective(a, b);
  }

  /** Two records contribute the same bytes exactly when they differ in nothing but
      an absent authority against an empty one. The field framing leaves no other
      ambiguity. */
  lemma {:induction false} CanonicalCommits(a: DecisionRecord, b: DecisionRecord)
    requires a.Framed() && b.Framed()
    ensures Canonical(a) == Canonical(b) <==> a.Filled() == b.Filled()
  {
    if Canonical(a) == Canonical(b) {
      CanonicalInjective(a, b);
    }
  }

  lemma {:induction false} CanonicalInjective(a: DecisionRecord, b: DecisionRecord)
    requires a.Framed() && b.Framed()
    requires Canonical(a) == Canonical(b)
    ensures a.Filled() == b.Filled()
  {
    var ta, tb := BigEndian(Unsigned64(a.timestampMs), 8), BigEndian(Unsigned64(b.timestampMs), 8);
    var ca, cb := FrameText(a.correlationId) + ta, FrameText(b.correlationId) + tb;
    var ma, mb := FrameText(a.modelId) + ca, FrameText(b.modelId) + cb;
    var va, vb := [VerdictTag(a.verdict), HicTag(a.hic)], [VerdictTag(b.verdict), HicTag(b.hic)];
    var ha, hb := Frame(a.paramsHash) + (va + ma), Frame(b.paramsHash) + (vb + mb);
    var xa, xb := FrameText(a.actionClass) + ha, FrameText(b.actionClass) + hb;
    var ga, gb := FrameText(OrEmpty(a.grantId)) + xa, FrameText(OrEmpty(b.grantId)) + xb;
    var pa, pb := FrameText(OrEmpty(a.principal)) + ga, FrameText(OrEmpty(b.principal)) + gb;
    Pow256Values();
    TextCancels(a.agent, b.agent, pa, pb);
    TextCancels(OrEmpty(a.principal), OrEmpty(b.principal), ga, gb);
    TextCancels(OrEmpty(a.grantId), OrEmpty(b.grantId), xa, xb);
    TextCancels(a.actionClass, b.actionClass, ha, hb);
    FrameCancels(a.paramsHash, b.paramsHash, va + ma, vb + mb);
    assert (va + ma)[0] == VerdictTag(a.verdict) && (vb + mb)[0] == VerdictTag(b.verdict);
    assert (va + ma)[1] == HicTag(a.hic) && (vb + mb)[1] == HicTag(b.hic);
    assert (va + ma)[2..] == ma && (vb + mb)[2..] == mb;
    TextCancels(a.modelId, b.modelId, ca, cb);
    TextCancels(a.correlationId, b.correlationId, ta, tb);
    BigEndianRoundTrip(Unsigned64(a.timestampMs), 8);
    BigEndianRoundTrip(Unsigned64(b.timestampMs), 8);
  }

  // ---- a reader of the encoding -----------------------------------------

  /** The field at the front of the bytes, by its length, and what follows it. */
  function ReadFrame(b: Bytes): Option<(Bytes, Bytes)> {
    if |b| < 4 then None
    else
      var n := FromBigEndian(b[..4]);
      if |b| < 4 + n then None else Some((b[4..4 + n], b[4 + n..]))
  }

  /** The first `n` fields, as they stand one after the other. */
  function ReadFrames(b: Bytes, n: nat): (r: Option<(seq<Bytes>, Bytes)>)
    ensures r.Some? ==> |r.value.0| == n
  {
    if n == 0 then Some(([], b))
    else match ReadFrame(b)
      case None => None
      case Some((field, rest)) =>
        match ReadFrames(rest, n - 1)
        case None => None
        case Some((fields, after)) => Some(([field] + fields, after))
  }

  /** What an auditor takes a record's bytes to be: agent, principal, grant, class and
      parameter hash; a byte each for verdict and oversight level; model and correlation
      id; and the time. */
  datatype Reading = Reading(texts: seq<Bytes>, verdict: Byte, hic: Byte, more: seq<Bytes>, time: Bytes)

  function ReadCanonical(b: Bytes): Option<Reading> {
    match ReadFrames(b, 5)
    case None => None
    case Some((fields, rest)) =>
      if |rest| < 2 then None
      else match ReadFrames(rest[2..], 2)
        case None => None
        case Some((more, time)) => Some(Reading(fields, rest[0], rest[1], more, time))
  }

  lemma {:induction false} FrameReads(b: Bytes, rest: Bytes)
    requires |b| < Pow256(4)
    ensures ReadFrame(Frame(b) + rest) == Some((b, rest))
  {
    var all := Frame(b) + rest;
    BigEndianRoundTrip(|b|, 4);
    assert all[..4] == BigEndian(|b|, 4) && all[4..4 + |b|] == b && all[4 + |b|..] == rest;
  }

  lemma {:induction false} OneMoreReads(b: Bytes, rest: Bytes, n: nat, fields: seq<Bytes>, after: Bytes)
    requires |b| < Pow256(4) && n > 0 && ReadFrames(rest, n - 1) == Some((fields, after))
    ensures ReadFrames(Frame(b) + rest, n) == Some(([b] + fields, after))
  {
    FrameReads(b, rest);
  }

  lemma {:induction false} MiddleReads(v: Byte, h: Byte, m: Bytes, c: Bytes, time: Bytes)
    requires |m| < Pow256(4) && |c| < Pow256(4)
    ensures var rest := [v, h] + (Frame(m) + (Frame(c) + time));
            rest[0] == v && rest[1] == h && ReadFrames(rest[2..], 2) == Some(([m, c], time))
  {
    var rest := [v, h] + (Frame(m) + (Frame(c) + time));
    assert rest[2..] == Frame(m) + (Frame(c) + time);
    assert ReadFrames(time, 0) == Some(([], time));
    OneMoreReads(c, time, 1, [], time);
    assert [c] + [] == [c];
    OneMoreReads(m, Frame(c) + time, 2, [c], time);
    assert [m] + [c] == [m, c];
  }

  lemma {:induction false} FiveRead(a: Bytes, p: Bytes, g: Bytes, k: Bytes, w: Bytes, rest: Bytes)
    requires |a| < Pow256(4) && |p| < Pow256(4) && |g| < Pow256(4) && |k| < Pow256(4) && |w| < Pow256(4)
    ensures ReadFrames(Frame(a) + (Frame(p) + (Frame(g) + (Frame(k) + (Frame(w) + rest)))), 5)
            == Some(([a, p, g, k, w], rest))
  {
    assert ReadFrames(rest, 0) == Some(([], rest));
    OneMoreReads(w, rest, 1, [], rest);
    var ws := Frame(w) + rest;
    assert [w] + [] == [w];
    OneMoreReads(k, ws, 2, [w], rest);
    var ks := Frame(k) + ws;
    assert [k] + [w] == [k, w];
    OneMoreReads(g, ks, 3, [k, w], rest);
    var gs := Frame(g) + ks;
    assert [g] + [k, w] == [g, k, w];
    OneMoreReads(p, gs, 4, [g, k, w], rest);
    var ps := Frame(p) + gs;
    assert [p] + [g, k, w] == [p, g, k, w];
    OneMoreReads(a, ps, 5, [p, g, k, w], rest);
    assert [a] + [p, g, k, w] == [a, p, g, k, w];
  }

  /** Read back, a record's bytes give every field in its place, with the two tags and the
      time as a two's-complement word. */
  lemma {:induction false} CanonicalReads(r: DecisionRecord)
    requires r.Framed()
    ensures ReadCanonical(Canonical(r))
            == Some(Reading([Utf8.Encode(r.agent), Utf8.Encode(OrEmpty(r.principal)), Utf8.Encode(OrEmpty(r.grantId)),
                             Utf8.Encode(r.actionClass), r.paramsHash],
                            match r.verdict
                            case Allow => 0 case RequireApproval => 1 case Deny => 2
                            case Ungoverned => 3 case Rejected => 4 case Approved => 5,
                            match r.hic
                            case Observed => 0 case ApproveEach => 1 case Budgeted => 2
                            case PostHoc => 3 case Ungoverned => 0xFF,
                            [Utf8.Encode(r.modelId), Utf8.Encode(r.correlationId)],
                            BigEndian(if r.timestampMs >= 0 then r.timestampMs
                                      else 0x1_0000_0000_0000_0000 + r.timestampMs, 8)))
  {
    Pow256Values();
    LayoutReads(Utf8.Encode(r.agent), Utf8.Encode(OrEmpty(r.principal)), Utf8.Encode(OrEmpty(r.grantId)),
                Utf8.Encode(r.actionClass), r.paramsHash, VerdictTag(r.verdict), HicTag(r.hic),
                Utf8.Encode(r.modelId), Utf8.Encode(r.correlationId), BigEndian(Unsigned64(r.timestampMs), 8));
  }

  lemma {:induction false} LayoutReads(a: Bytes, p: Bytes, g: Bytes, k: Bytes, w: Bytes, v: Byte, h: Byte, m: Bytes,
                                       c: Bytes, time: Bytes)
    requires |a| < Pow256(4) && |p| < Pow256(4) && |g| < Pow256(4) && |k| < Pow256(4) && |w| < Pow256(4)
    requires |m| < Pow256(4) && |c| < Pow256(4)
    ensures ReadCanonical(Frame(a) + (Frame(p) + (Frame(g) + (Frame(k) + (Frame(w) + ([v, h] + (Frame(m) + (Frame(c) + time))))))))
            == Some(Reading([a, p, g, k, w], v, h, [m, c], time))
  {
    MiddleReads(v, h, m, c, time);
    FiveRead(a, p, g, k, w, [v, h] + (Frame(m) + (Frame(c) + time)));
  }

  // ---- the chain --------------------------------------------------------

  datatype Entry = Entry(record: DecisionRecord, hash: Word)

  datatype HashChain = HashChain(tenant: string, entries: seq<Entry>, head: Word)

  function Genesis(H: Hash, tenant: string): Word {
    H(Utf8.Encode(tenant))
  }

  function Fresh(H: Hash, tenant: string): HashChain {
    HashChain(tenant, [], Genesis(H, tenant))
  }

  function Link(H: Hash, prev: Word, r: DecisionRecord): Word {
    H(prev + Canonical(r))
  }

  /** `append`: an inconsistent record never enters the chain. */
  function Append(H: Hash, c: HashChain, r: DecisionRecord): Option<HashChain> {
    if !r.Consistent() then None
    else
      var h := Link(H, c.head, r);
      Some(HashChain(c.tenant, c.entries + [Entry(r, h)], h))
  }

  /** A record enters the chain exactly when it names what its verdict has to: nobody for an
      ungoverned action, a principal for an approval, a principal and a grant for a verdict
      of the policy. Its hash is that of the head before it and its own bytes. */
  lemma {:induction false} AppendOnFields(H: Hash, c: HashChain, r: DecisionRecord)
    ensures Append(H, c, r).Some?
            <==> (r.verdict == Verdict.Ungoverned ==>
                    r.principal == None && r.grantId == None && r.hic == HicLevel.Ungoverned)
                 && (r.verdict == Approved ==> r.principal != None)
                 && (r.verdict in {Allow, RequireApproval, Deny} ==> r.principal != None && r.grantId != None)
    ensures Append(H, c, r).Some? ==>
              var d := Append(H, c, r).value;
              && d.tenant == c.tenant && d.head == H(c.head + Canonical(r))
              && d.entries == c.entries + [Entry(r, d.head)]
  {
  }

  function Records(es: seq<Entry>): (rs: seq<DecisionRecord>)
    ensures |rs| == |es|
  {
    seq(|es|, i requires 0 <= i < |es| => es[i].record)
  }

  /** The head a tenant's chain has after exactly these records. */
  function HeadAfter(H: Hash, tenant: string, rs: seq<DecisionRecord>): Word {
    if rs == [] then Genesis(H, tenant)
    else Link(H, HeadAfter(H, tenant, rs[..|rs| - 1]), rs[|rs| - 1])
  }

  /** The hash in force before entry `i`. */
  function HashBefore(H: Hash, tenant: string, es: seq<Entry>, i: nat): Word
    requires i <= |es|
  {
    if i == 0 then Genesis(H, tenant) else es[i - 1].hash
  }

  predicate LinkedAt(H: Hash, tenant: string, es: seq<Entry>, i: nat)
    requires i < |es|
  {
    es[i].record.Consistent() && es[i].hash == Link(H, HashBefore(H, tenant, es, i), es[i].record)
  }

  /** Every entry chains to the one before it, back to the tenant's genesis. */
  ghost predicate Linked(H: Hash, c: HashChain) {
    && (forall i: nat :: i < |c.entries| ==> LinkedAt(H, c.tenant, c.entries, i))
    && c.head == HashBefore(H, c.tenant, c.entries, |c.entries|)
  }

  lemma {:induction false} AppendLinks(H: Hash, c: HashChain, r: DecisionRecord)
    requires Linked(H, c) && r.Consistent()
    ensures Linked(H, Append(H, c, r).value)
  {
    var d := Append(H, c, r).value;
    forall i: nat | i < |d.entries|
      ensures LinkedAt(H, d.tenant, d.entries, i)
    {
      if i < |c.entries| {
        assert LinkedAt(H, c.tenant, c.entries, i);
      }
    }
  }

  /** The head of a linked chain is the head its records commit to. */
  lemma {:induction false} LinkedHead(H: Hash, c: HashChain, n: nat)
    requires Linked(H, c) && n <= |c.entries|
    ensures HashBefore(H, c.tenant, c.entries, n) == HeadAfter(H, c.tenant, Records(c.entries[..n]))
  {
    if n > 0 {
      LinkedHead(H, c, n - 1);
      var rs := Records(c.entries[..n]);
      assert rs[..n - 1] == Records(c.entries[..n - 1]) && rs[n - 1] == c.entries[n - 1].record;
      assert LinkedAt(H, c.tenant, c.entries, n - 1);
    }
  }

  /** `verify`: replay from genesis and compare every stored hash, then the head. */
  method Verify(H: Hash, c: HashChain) returns (ok: bool)
    requires forall i :: 0 <= i < |c.entries| ==> c.entries[i].record.Consistent()
    ensures ok <==> Linked(H, c)
  {
    var prev := Genesis(H, c.tenant);
    for i := 0 to |c.entries|
      invariant prev == HashBefore(H, c.tenant, c.entries, i)
      invariant forall k: nat :: k < i ==> LinkedAt(H, c.tenant, c.entries, k)
    {
      var h := Link(H, prev, c.entries[i].record);
      if h != c.entries[i].hash {
        assert !LinkedAt(H, c.tenant, c.entries, i);
        return false;
      }
      prev := h;
    }
    ok := prev == c.head;
  }

  // ---- tamper evidence --------------------------------------------------

  ghost predicate Collides(H: Hash, a: Bytes, b: Bytes) {
    a != b && H(a) == H(b)
  }

  /** The tenant id's own bytes are a chain entry: a preimage of the genesis hash
      that an attacker would have to plant in the tenant's name. */
  ghost predicate GenesisIsAnEntry(H: Hash, tenant: string, prev: Word, r: DecisionRecord) {
    Utf8.Encode(tenant) == prev + Canonical(r)
  }

  predicate SameFilled(xs: seq<DecisionRecord>, ys: seq<DecisionRecord>) {
    |xs| == |ys| && forall i :: 0 <= i < |xs| ==> xs[i].Filled() == ys[i].Filled()
  }

  predicate AllFramed(rs: seq<DecisionRecord>) {
    forall i :: 0 <= i < |rs| ==> rs[i].Framed()
  }

  /** Every input that is hashed on the way to the head of a history. */
  function Hashed(H: Hash, tenant: string, rs: seq<DecisionRecord>): set<Bytes> {
    if rs == [] then {Utf8.Encode(tenant)}
    else
      var n := |rs| - 1;
      Hashed(H, tenant, rs[..n]) + {HeadAfter(H, tenant, rs[..n]) + Canonical(rs[n])}
  }

  /** What two histories with one head come to: the same history, two inputs hashed on
      the way to the heads that collide, or a record of theirs that spells the tenant's
      own name. */
  datatype Finding =
    | SameHistory
    | Collision(a: Bytes, b: Bytes)
    | PlantedGenesis(prev: Word, record: DecisionRecord)

  ghost predicate Holds(H: Hash, tenant: string, xs: seq<DecisionRecord>,
                        ys: seq<DecisionRecord>, f: Finding)
  {
    match f
    case SameHistory => SameFilled(xs, ys)
    case Collision(a, b) => Collides(H, a, b) && a in Hashed(H, tenant, xs) && b in Hashed(H, tenant, ys)
    case PlantedGenesis(prev, r) => GenesisIsAnEntry(H, tenant, prev, r) && (r in xs || r in ys)
  }

  /** A history that is not empty yet ends at the genesis hash. */
  lemma {:induction false} GenesisMeets(H: Hash, tenant: string, rs: seq<DecisionRecord>, first: bool) returns (f: Finding)
    requires rs != [] && HeadAfter(H, tenant, rs) == Genesis(H, tenant)
    ensures !f.SameHistory?
    ensures if first then Holds(H, tenant, [], rs, f) else Holds(H, tenant, rs, [], f)
  {
    var n := |rs| - 1;
    var name, last := Utf8.Encode(tenant), HeadAfter(H, tenant, rs[..n]) + Canonical(rs[n]);
    f := if name == last then PlantedGenesis(HeadAfter(H, tenant, rs[..n]), rs[n])
         else if first then Collision(name, last) else Collision(last, name);
  }

  lemma {:induction false} LinkCommits(H: Hash, hx: Word, x: DecisionRecord, hy: Word, y: DecisionRecord)
    requires x.Framed() && y.Framed()
    requires Link(H, hx, x) == Link(H, hy, y)
    ensures Collides(H, hx + Canonical(x), hy + Canonical(y)) || (hx == hy && x.Filled() == y.Filled())
  {
    var a, b := hx + Canonical(x), hy + Canonical(y);
    if a == b {
      assert a[..32] == hx && b[..32] == hy;
      assert a[32..] == Canonical(x) && b[32..] == Canonical(y);
      CanonicalInjective(x, y);
    }
  }

  /** One head commits to one history: two record sequences of a tenant with the
      same head are the same (an absent authority read as an empty one), or the
      proof hands over the collision or the planted genesis. */
  lemma {:induction false} HeadCommits(H: Hash, tenant: string, xs: seq<DecisionRecord>, ys: seq<DecisionRecord>)
    returns (f: Finding)
    requires AllFramed(xs) && AllFramed(ys)
    requires HeadAfter(H, tenant, xs) == HeadAfter(H, tenant, ys)
    ensures Holds(H, tenant, xs, ys, f)
    decreases |xs|
  {
    if xs == [] && ys == [] {
      f := SameHistory;
    } else if xs == [] {
      f := GenesisMeets(H, tenant, ys, true);
    } else if ys == [] {
      f := GenesisMeets(H, tenant, xs, false);
    } else {
      var px, py := xs[..|xs| - 1], ys[..|ys| - 1];
      var x, y := xs[|xs| - 1], ys[|ys| - 1];
      var hx, hy := HeadAfter(H, tenant, px), HeadAfter(H, tenant, py);
      LinkCommits(H, hx, x, hy, y);
      if Collides(H, hx + Canonical(x), hy + Canonical(y)) {
        f := Collision(hx + Canonical(x), hy + Canonical(y));
      } else {
        f := HeadCommits(H, tenant, px, py);
        if f.SameHistory? {
          ExtendSame(xs, ys);
        }
      }
    }
  }

  lemma {:induction false} ExtendSame(xs: seq<DecisionRecord>, ys: seq<DecisionRecord>)
    requires xs != [] && ys != []
    requires SameFilled(xs[..|xs| - 1], ys[..|ys| - 1])
    requires xs[|xs| - 1].Filled() == ys[|ys| - 1].Filled()
    ensures SameFilled(xs, ys)
  {
    forall i | 0 <= i < |xs| ensures xs[i].Filled() == ys[i].Filled() {
      if i < |xs| - 1 {
        assert xs[..|xs| - 1][i] == xs[i] && ys[..|ys| - 1][i] == ys[i];
      }
    }
  }

  /** The aliasing is real: refusing an ungoverned action records no principal, and
      rewriting that to an empty name leaves every hash of the chain as it was. */
  lemma {:induction false} AbsentAuthorityIsAliased(H: Hash, tenant: string, r: DecisionRecord)
    requires r.verdict == Rejected && r.principal.None?
    ensures var forged := r.(principal := Some(""));
            && forged != r && forged.Consistent() && r.Consistent()
            && HeadAfter(H, tenant, [forged]) == HeadAfter(H, tenant, [r])
  {
    var forged := r.(principal := Some(""));
    assert Canonical(forged) == Canonical(r);
    assert [forged][..0] == [r][..0];
  }
}
