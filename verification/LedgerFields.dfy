/** What each operation of the ledger does, on the fields alone: when it is refused, and
    what every field of the slice and of the record holds when it succeeds. */
module LedgerFields {
  import opened Basics
  import opened Audit
  import opened Policy
  import opened Store
  import opened Files
  import opened Ledger
  import opened LedgerSound
  import opened LedgerSteps
  import opened LedgerBudget
  import opened LedgerRuns
  import opened LedgerAnswers
  import opened LedgerRecords
  import opened LedgerCrash
  import opened LedgerBooks
  import opened LedgerQuestions
  import Hex

  // ---- the policy, on the fields -----------------------------------------

  /** What an action takes from its grant. */
  function Units(cost: U64): nat {
    if cost == 0 then 1 else cost
  }

  /** The text names the level, whatever its case and the space around it. */
  predicate ReadsAs(text: string, c: Classification) {
    Lower(Trim(text)) == match c
                         case Public => "public"
                         case Proprietary => "proprietary"
                         case Cui => "cui"
                         case Itar => "itar"
  }

  predicate AtMost(c: Classification, ceiling: Classification) {
    c == ceiling || c == Public || ceiling == Itar || (c == Proprietary && ceiling == Cui)
  }

  /** The grant is live, covers class and level, and has the units left. */
  predicate MayPay(g: CapabilityGrant, input: ActionInput, c: Classification, nowMs: I64) {
    && !g.revoked && g.expiresAtMs > nowMs && input.class_ in g.actionClasses && AtMost(c, g.ceiling)
    && g.consumed + Units(input.cost) <= g.budgetUnits
  }

  ghost predicate Starts(s: string, p: string) {
    exists rest :: s == p + rest
  }

  /** The acts a human always signs. */
  ghost predicate AlwaysSigned(class_: string) {
    var c := Trim(class_);
    || c == "meeting.ratify" || Starts(c, "grant.") || Starts(c, "protocol.") || Starts(c, "chain.")
    || Starts(c, "key.") || Starts(c, "classification.") || Starts(c, "disclose.")
  }

  ghost predicate MustBeSigned(input: ActionInput) {
    input.mandatoryHic1 || AlwaysSigned(input.class_)
  }

  predicate OverThreshold(input: ActionInput) {
    0 < input.hic1CostThreshold < Units(input.cost)
  }

  predicate MaySee(p: EgressPolicy, text: string, model: string) {
    text !in p.controlled || (Trim(model) != "" && text in p.allow && model in p.allow[text])
  }

  /** Verdict, oversight level and reason under the grant that pays, case by case. */
  ghost predicate Judged(p: EgressPolicy, input: ActionInput, g: CapabilityGrant, v: Verdict, hic: HicLevel, why: Reason) {
    if !MaySee(p, input.classification, input.modelId) then
      v == Deny && hic == HicLevel.ApproveEach && why == (if Trim(input.modelId) == "" then RC400 else RC401)
    else if OverThreshold(input) then
      v == RequireApproval && hic == HicLevel.ApproveEach && why == RC102
    else if MustBeSigned(input) then
      v == RequireApproval && hic == HicLevel.ApproveEach && why == RC101
    else match g.hic
      case ApproveEach => v == RequireApproval && hic == HicLevel.ApproveEach && why == RC103
      case Budgeted => v == Allow && hic == HicLevel.Budgeted && why == RC200
      case PostHoc => v == Allow && hic == HicLevel.PostHoc && why == RC200
  }

  lemma {:induction false} StartsIs(s: string, p: string)
    ensures Starts(s, p) <==> StartsWith(s, p)
  {
    if StartsWith(s, p) {
      assert s == p + s[|p|..];
    }
    if rest :| s == p + rest {
      assert s[..|p|] == p;
    }
  }

  lemma {:induction false} AlwaysSignedIs(class_: string)
    ensures AlwaysSigned(class_) <==> ClassIsMandatoryHic1(class_)
  {
    var c := Trim(class_);
    forall i | 0 <= i < 6 ensures Starts(c, L1_PREFIXES[i]) <==> StartsWith(c, L1_PREFIXES[i]) {
      StartsIs(c, L1_PREFIXES[i]);
    }
    assert L1_PREFIXES[0] == "grant." && L1_PREFIXES[1] == "protocol." && L1_PREFIXES[2] == "chain."
        && L1_PREFIXES[3] == "key." && L1_PREFIXES[4] == "classification." && L1_PREFIXES[5] == "disclose.";
  }

  lemma {:induction false} ReadsAsIs(text: string)
    ensures forall c :: ReadsAs(text, c) <==> ClassificationFromStr(text) == Some(c)
  {
    assert |"public"| == 6 && |"proprietary"| == 11 && |"cui"| == 3 && |"itar"| == 4;
  }

  lemma {:induction false} MayPayIs(g: CapabilityGrant, input: ActionInput, c: Classification, nowMs: I64)
    requires g.consumed <= g.budgetUnits
    ensures MayPay(g, input, c, nowMs) <==> g.Covers(ActionOf(input, c), nowMs)
  {
  }

  lemma {:induction false} JudgedIs(l: Ledger, input: ActionInput, c: Classification, nowMs: I64, k: nat)
    requires FirstCovers(l, input, c, nowMs, k)
    ensures var d := Decide(l, input, c, nowMs);
            Judged(l.egress, input, GrantsOf(l.mem, input.agent)[k], d.verdict, d.hic, d.reason)
            && d.grantId == Some(GrantsOf(l.mem, input.agent)[k].id)
  {
    AlwaysSignedIs(input.class_);
  }

  lemma {:induction false} NoneIsUngoverned(l: Ledger, input: ActionInput, c: Classification, nowMs: I64)
    requires NoneCovers(l, input, c, nowMs)
    ensures Decide(l, input, c, nowMs) == Decision(Verdict.Ungoverned, HicLevel.Ungoverned, None, RC000)
  {
  }

  // ---- evaluate and record ----------------------------------------------

  /** The grants of the agent, in the order they were issued. */
  function Of(s: Slice, agent: string): seq<CapabilityGrant> {
    if agent in s.grants then s.grants[agent] else []
  }

  /** One record more, about this input. */
  ghost predicate AddsRecord(l: Ledger, m: Ledger, input: ActionInput, nowMs: I64) {
    var n := |l.mem.chain.entries|;
    && |m.mem.chain.entries| == n + 1 && m.mem.chain.entries[..n] == l.mem.chain.entries
    && var r := m.mem.chain.entries[n].record;
       && r.agent == input.agent && r.actionClass == input.class_ && r.modelId == input.modelId
       && r.correlationId == input.correlationId && r.timestampMs == nowMs
       && (forall w: Word :: input.paramsHash == Hex.Encode(w) ==> r.paramsHash == w)
  }

  /** No grant of the agent may pay: the action is recorded, and nothing else happens. */
  predicate LeftUngoverned(l: Ledger, m: Ledger, r: DecisionRecord, reply: DecisionDto) {
    && r.verdict == Verdict.Ungoverned && r.hic == HicLevel.Ungoverned && r.principal == None && r.grantId == None
    && reply.reason == RC000 && reply.ungoverned
    && m.mem == l.mem.(chain := m.mem.chain)
  }

  /** The k-th grant of the agent pays: its principal answers, its units go, the charge is
      filed, and an escalation waits. */
  ghost predicate PaidFor(l: Ledger, m: Ledger, r: DecisionRecord, input: ActionInput, nowMs: I64, k: nat,
                          reply: DecisionDto)
  {
    var gs, n := Of(l.mem, input.agent), |l.mem.chain.entries|;
    && k < |gs|
    && Judged(l.egress, input, gs[k], r.verdict, r.hic, reply.reason)
    && r.principal == Some(gs[k].principal) && r.grantId == Some(gs[k].id) && !reply.ungoverned
    && gs[k].consumed + Units(input.cost) <= gs[k].budgetUnits
    && m.mem == l.mem.(
         chain := m.mem.chain,
         grants := l.mem.grants[input.agent := gs[k := gs[k].(consumed := gs[k].consumed + Units(input.cost))]],
         charges := l.mem.charges[n := Charge(n, input.agent, gs[k].id, Units(input.cost))],
         pending := if r.verdict == RequireApproval then
                      l.mem.pending[n := PendingApproval(n, input.agent, input.principal, input.class_,
                                                         input.classification, input.cost, input.correlationId,
                                                         nowMs)]
                    else l.mem.pending)
  }

  /** The first grant of the agent that may pay. */
  predicate FirstToPay(l: Ledger, input: ActionInput, c: Classification, nowMs: I64, k: nat) {
    var gs := Of(l.mem, input.agent);
    && k < |gs| && MayPay(gs[k], input, c, nowMs)
    && forall j :: 0 <= j < k ==> !MayPay(gs[j], input, c, nowMs)
  }

  predicate NoneMayPay(l: Ledger, input: ActionInput, c: Classification, nowMs: I64) {
    forall j :: 0 <= j < |Of(l.mem, input.agent)| ==> !MayPay(Of(l.mem, input.agent)[j], input, c, nowMs)
  }

  lemma {:induction false} PayersAreCovers(l: Ledger, input: ActionInput, c: Classification, nowMs: I64)
    requires MemKept(l.mem)
    ensures NoneMayPay(l, input, c, nowMs) <==> NoneCovers(l, input, c, nowMs)
    ensures forall k: nat :: FirstToPay(l, input, c, nowMs, k) <==> FirstCovers(l, input, c, nowMs, k)
  {
    var gs := GrantsOf(l.mem, input.agent);
    assert Of(l.mem, input.agent) == gs;
    forall j | 0 <= j < |gs| ensures MayPay(gs[j], input, c, nowMs) <==> gs[j].Covers(ActionOf(input, c), nowMs) {
      assert IsGrant(l.mem.grants, input.agent, j);
      MayPayIs(gs[j], input, c, nowMs);
    }
    forall k: nat ensures FirstToPay(l, input, c, nowMs, k) <==> FirstCovers(l, input, c, nowMs, k) {
    }
    if NoneCovers(l, input, c, nowMs) {
      forall j | 0 <= j < |gs| ensures !MayPay(gs[j], input, c, nowMs) {
        assert !GrantsOf(l.mem, input.agent)[j].Covers(ActionOf(input, c), nowMs);
      }
    }
    if NoneMayPay(l, input, c, nowMs) {
      forall j | 0 <= j < |gs| ensures !gs[j].Covers(ActionOf(input, c), nowMs) {
        assert !MayPay(Of(l.mem, input.agent)[j], input, c, nowMs);
      }
    }
  }

  lemma {:induction false} PayingGrant(l: Ledger, input: ActionInput, c: Classification, nowMs: I64) returns (k: nat)
    requires MemKept(l.mem) && !NoneCovers(l, input, c, nowMs)
    ensures FirstCovers(l, input, c, nowMs, k) && PaidBy(l, input, Decide(l, input, c, nowMs), k)
    ensures Accountable(l, input.agent, Decide(l, input, c, nowMs).grantId)
            == Some(GrantsOf(l.mem, input.agent)[k].principal)
  {
    k := VerdictMeans(l, input, c, nowMs);
    JudgedIs(l, input, c, nowMs, k);
    assert IsGrant(l.mem.grants, input.agent, k);
    FindsItself(l.mem.grants, input.agent, k);
  }

  lemma {:induction false} HashIsRead(input: ActionInput, d: Decision, who: Option<string>, nowMs: I64)
    ensures var r := ActionRecord(input, d, who, nowMs);
            && r.agent == input.agent && r.actionClass == input.class_ && r.modelId == input.modelId
            && r.correlationId == input.correlationId && r.timestampMs == nowMs
            && (forall w: Word :: input.paramsHash == Hex.Encode(w) ==> r.paramsHash == w)
  {
    forall w: Word | input.paramsHash == Hex.Encode(w) ensures ActionRecord(input, d, who, nowMs).paramsHash == w {
      Hex.Hex32RoundTrip(w);
    }
  }

  /** An evaluation is refused on a degraded backend or when its level cannot be read, and
      then nothing changes. */
  lemma {:induction false} EvaluateRefuses(H: Hash, l: Ledger, input: ActionInput, nowMs: I64, io: Faults)
    ensures l.degraded ==> EvaluateAndRecord(H, l, input, nowMs, io) == (l, Err(Degraded))
    ensures !l.degraded && (forall c :: !ReadsAs(input.classification, c)) ==>
              EvaluateAndRecord(H, l, input, nowMs, io) == (l, Err(UnknownClassification(input.classification)))
  {
    ReadsAsIs(input.classification);
  }

  /** One that returns a decision appended one record about its input, with the parameter
      hash it was given, and either no grant of the agent may pay and nothing else changed,
      or the first that may does. */
  lemma {:induction false} EvaluateOnFields(H: Hash, l: Ledger, input: ActionInput, nowMs: I64, io: Faults)
    returns (c: Classification, k: nat)
    requires Sound(H, l) && EvaluateAndRecord(H, l, input, nowMs, io).1.Ok?
    ensures ReadsAs(input.classification, c)
    ensures var (m, r) := EvaluateAndRecord(H, l, input, nowMs, io);
            && !m.degraded && AddsRecord(l, m, input, nowMs) && Reported(m, r.value)
            && var added := m.mem.chain.entries[|l.mem.chain.entries|].record;
               if NoneMayPay(l, input, c, nowMs) then LeftUngoverned(l, m, added, r.value)
               else FirstToPay(l, input, c, nowMs, k) && PaidFor(l, m, added, input, nowMs, k, r.value)
  {
    ReadsAsIs(input.classification);
    EvaluateAllOrNothing(H, l, input, nowMs, io);
    c, k := ClassificationFromStr(input.classification).value, 0;
    var d := Decide(l, input, c, nowMs);
    HashIsRead(input, d, Accountable(l, input.agent, d.grantId), nowMs);
    PayersAreCovers(l, input, c, nowMs);
    if NoneCovers(l, input, c, nowMs) {
      UngovernedOnFields(H, l, input, nowMs, io, c);
    } else {
      k := GovernedOnFields(H, l, input, nowMs, io, c);
    }
  }

  lemma {:induction false} SaysAllow(l: Ledger, r: DecisionRecord, m: Ledger, input: ActionInput, c: Classification, nowMs: I64,
                                     k: nat, reply: DecisionDto)
    requires reply.verdict == r.verdict
    requires if NoneMayPay(l, input, c, nowMs) then LeftUngoverned(l, m, r, reply)
             else FirstToPay(l, input, c, nowMs, k) && PaidFor(l, m, r, input, nowMs, k, reply)
    ensures reply.verdict == Allow
            <==> FirstToPay(l, input, c, nowMs, k) && MaySee(l.egress, input.classification, input.modelId)
                 && !MustBeSigned(input) && !OverThreshold(input) && Of(l.mem, input.agent)[k].hic != GrantHic.ApproveEach
  {
  }

  /** The verdict is allow exactly when some grant of the agent may pay and the first that
      may asks for no signature, the model may see the material, the class is not always
      signed, and the cost is within the threshold. */
  lemma {:induction false} AllowedExactlyWhen(H: Hash, l: Ledger, input: ActionInput, nowMs: I64, io: Faults)
    returns (c: Classification, k: nat)
    requires Sound(H, l) && EvaluateAndRecord(H, l, input, nowMs, io).1.Ok?
    ensures ReadsAs(input.classification, c)
    ensures EvaluateAndRecord(H, l, input, nowMs, io).1.value.verdict == Allow
            <==> FirstToPay(l, input, c, nowMs, k) && MaySee(l.egress, input.classification, input.modelId)
                 && !MustBeSigned(input) && !OverThreshold(input) && Of(l.mem, input.agent)[k].hic != GrantHic.ApproveEach
  {
    c, k := EvaluateOnFields(H, l, input, nowMs, io);
    var (m, r) := EvaluateAndRecord(H, l, input, nowMs, io);
    SaysAllow(l, m.mem.chain.entries[|l.mem.chain.entries|].record, m, input, c, nowMs, k, r.value);
  }

  lemma {:induction false} UngovernedOnFields(H: Hash, l: Ledger, input: ActionInput, nowMs: I64, io: Faults, c: Classification)
    requires Sound(H, l) && EvaluateAndRecord(H, l, input, nowMs, io).1.Ok?
    requires ClassificationFromStr(input.classification) == Some(c) && NoneCovers(l, input, c, nowMs)
    requires var (m, r) := EvaluateAndRecord(H, l, input, nowMs, io); Evaluated(l, m, input, Decide(l, input, c, nowMs), nowMs, r.value)
    ensures var (m, r) := EvaluateAndRecord(H, l, input, nowMs, io);
            LeftUngoverned(l, m, m.mem.chain.entries[|l.mem.chain.entries|].record, r.value)
  {
    NoneIsUngoverned(l, input, c, nowMs);
    UngovernedMemory(H, l, input, nowMs, io, c);
  }

  lemma {:induction false} GovernedOnFields(H: Hash, l: Ledger, input: ActionInput, nowMs: I64, io: Faults, c: Classification)
    returns (k: nat)
    requires Sound(H, l) && EvaluateAndRecord(H, l, input, nowMs, io).1.Ok?
    requires ClassificationFromStr(input.classification) == Some(c) && !NoneCovers(l, input, c, nowMs)
    requires var (m, r) := EvaluateAndRecord(H, l, input, nowMs, io); Evaluated(l, m, input, Decide(l, input, c, nowMs), nowMs, r.value)
    ensures FirstCovers(l, input, c, nowMs, k)
    ensures var (m, r) := EvaluateAndRecord(H, l, input, nowMs, io);
            PaidFor(l, m, m.mem.chain.entries[|l.mem.chain.entries|].record, input, nowMs, k, r.value)
  {
    k := PayingGrant(l, input, c, nowMs);
    JudgedIs(l, input, c, nowMs, k);
    GovernedMemory(H, l, input, nowMs, io, c, k);
    var (m, r) := EvaluateAndRecord(H, l, input, nowMs, io);
    PaidOnFields(l, m, input, c, nowMs, k, r.value);
  }

  lemma {:induction false} PaidOnFields(l: Ledger, m: Ledger, input: ActionInput, c: Classification, nowMs: I64, k: nat,
                                        reply: DecisionDto)
    requires MemKept(l.mem) && PaidBy(l, input, Decide(l, input, c, nowMs), k) && k < |GrantsOf(l.mem, input.agent)|
    requires var d, g := Decide(l, input, c, nowMs), GrantsOf(l.mem, input.agent)[k];
             && d.grantId == Some(g.id) && Judged(l.egress, input, g, d.verdict, d.hic, d.reason)
             && Accountable(l, input.agent, d.grantId) == Some(g.principal) && d.verdict != Verdict.Ungoverned
             && Evaluated(l, m, input, d, nowMs, reply)
             && m.mem == Affected(l.mem, input, d, k, |l.mem.chain.entries|, nowMs).(chain := m.mem.chain)
    ensures PaidFor(l, m, m.mem.chain.entries[|l.mem.chain.entries|].record, input, nowMs, k, reply)
  {
    assert IsGrant(l.mem.grants, input.agent, k);
  }

  lemma {:induction false} UngovernedMemory(H: Hash, l: Ledger, input: ActionInput, nowMs: I64, io: Faults, c: Classification)
    requires Sound(H, l) && EvaluateAndRecord(H, l, input, nowMs, io).1.Ok?
    requires ClassificationFromStr(input.classification) == Some(c)
    requires Decide(l, input, c, nowMs).grantId.None? && Decide(l, input, c, nowMs).verdict == Verdict.Ungoverned
    ensures var m := EvaluateAndRecord(H, l, input, nowMs, io).0; m.mem == l.mem.(chain := m.mem.chain)
  {
    var d := Decide(l, input, c, nowMs);
    var r := ActionRecord(input, d, Accountable(l, input.agent, d.grantId), nowMs);
    SettleReports(l.(mem := l.mem.(chain := Append(H, l.mem.chain, r).value)), input, d, 0, nowMs, io);
  }

  lemma {:induction false} GovernedMemory(H: Hash, l: Ledger, input: ActionInput, nowMs: I64, io: Faults, c: Classification, k: nat)
    requires Sound(H, l) && EvaluateAndRecord(H, l, input, nowMs, io).1.Ok?
    requires ClassificationFromStr(input.classification) == Some(c)
    requires PaidBy(l, input, Decide(l, input, c, nowMs), k) && Decide(l, input, c, nowMs).grantId.Some?
    ensures var m := EvaluateAndRecord(H, l, input, nowMs, io).0;
            var d, n := Decide(l, input, c, nowMs), |l.mem.chain.entries|;
            m.mem == Affected(l.mem, input, d, k, n, nowMs).(chain := m.mem.chain)
  {
    var d := Decide(l, input, c, nowMs);
    var r := ActionRecord(input, d, Accountable(l, input.agent, d.grantId), nowMs);
    var chain := Append(H, l.mem.chain, r).value;
    SettledIsAffected(l, chain, input, d, k, nowMs, io);
  }

  lemma {:induction false} SettledIsAffected(l: Ledger, chain: HashChain, input: ActionInput, d: Decision, k: nat, nowMs: I64,
                                             io: Faults)
    requires MemKept(l.mem) && !l.degraded && PaidBy(l, input, d, k) && |chain.entries| == |l.mem.chain.entries| + 1
    requires Settle(l.(mem := l.mem.(chain := chain)), input, d, nowMs, io).1.Ok?
    ensures Settle(l.(mem := l.mem.(chain := chain)), input, d, nowMs, io).0.mem
            == Affected(l.mem, input, d, k, |l.mem.chain.entries|, nowMs).(chain := chain)
  {
    var n := l.(mem := l.mem.(chain := chain));
    SettleReports(n, input, d, k, nowMs, io);
    AffectedIgnoresChain(l.mem, n.mem, input, d, k, |l.mem.chain.entries|, nowMs);
  }

  lemma {:induction false} AffectedIgnoresChain(s: Slice, t: Slice, input: ActionInput, d: Decision, k: nat, id: nat, nowMs: I64)
    requires t == s.(chain := t.chain)
    requires d.grantId.Some? ==> k < |GrantsOf(s, input.agent)|
                                 && ChargeFor(input.cost) <= GrantsOf(s, input.agent)[k].Remaining()
    ensures Affected(t, input, d, k, id, nowMs) == Affected(s, input, d, k, id, nowMs).(chain := t.chain)
  {
  }

  /** Every write the step may need reaches the disk, or there is none. */
  predicate Lands(l: Ledger, io: Faults) {
    l.disk.None? || (io.grants && io.charges && io.pending && io.resolved && io.allowances && io.log.LogDone?)
  }

  lemma {:induction false} EffectsSucceed(l: Ledger, input: ActionInput, d: Decision, k: nat, id: nat, nowMs: I64, io: Faults)
    requires MemKept(l.mem) && PaidBy(l, input, d, k) && Lands(l, io)
    requires l.disk.Some? ==> l.disk.value.grants.Ok?
    ensures Effects(l, input, d, id, nowMs, io).1.None?
  {
    if l.disk.Some? {
      EffectsOnDisk(l, input, d, k, id, nowMs, io);
    } else {
      NoStoreEffects(l, input, d, k, id, nowMs, io);
    }
  }

  lemma {:induction false} FinishSucceeds(l: Ledger, entry: Entry, d: Decision, id: nat, outcome: LogOutcome)
    requires l.disk.None? || outcome.LogDone?
    ensures Finish(l, None, entry, d, id, outcome).1.Ok?
  {
  }

  /** With a level that reads and its writes landing, a running backend always decides. */
  lemma {:induction false} EvaluateSucceeds(H: Hash, l: Ledger, input: ActionInput, c: Classification, nowMs: I64, io: Faults)
    requires Sound(H, l) && !l.degraded && ReadsAs(input.classification, c) && Lands(l, io)
    ensures EvaluateAndRecord(H, l, input, nowMs, io).1.Ok?
  {
    ReadsAsIs(input.classification);
    var k := DecisionNamesPayingGrant(l, input, c, nowMs);
    EvaluateAppends(H, l, input, c, nowMs);
    var d := Decide(l, input, c, nowMs);
    var r := ActionRecord(input, d, Accountable(l, input.agent, d.grantId), nowMs);
    var chain := Append(H, l.mem.chain, r).value;
    SettleSucceeds(l.(mem := l.mem.(chain := chain)), input, d, k, nowMs, io);
  }

  lemma {:induction false} SettleSucceeds(l: Ledger, input: ActionInput, d: Decision, k: nat, nowMs: I64, io: Faults)
    requires MemKept(l.mem) && PaidBy(l, input, d, k) && Lands(l, io) && l.mem.chain.entries != []
    requires l.disk.Some? ==> l.disk.value.grants.Ok?
    ensures Settle(l, input, d, nowMs, io).1.Ok?
  {
    var id := |l.mem.chain.entries| - 1;
    EffectsSucceed(l, input, d, k, id, nowMs, io);
    var m := Effects(l, input, d, id, nowMs, io).0;
    EffectsKeepDisk(l, input, d, k, id, nowMs, io);
    FinishSucceeds(m, l.mem.chain.entries[id], d, id, io.log);
  }

  lemma {:induction false} EffectsKeepDisk(l: Ledger, input: ActionInput, d: Decision, k: nat, id: nat, nowMs: I64, io: Faults)
    requires MemKept(l.mem) && PaidBy(l, input, d, k)
    ensures Effects(l, input, d, id, nowMs, io).0.disk.Some? == l.disk.Some?
  {
    EffectsAsk(l, input, d, k, id, nowMs, io);
  }

  // ---- acts put on record ------------------------------------------------

  predicate NoParameters(w: Word) {
    forall i :: 0 <= i < 32 ==> w[i] == 0
  }

  /** A human's own act. */
  predicate HumanAct(r: DecisionRecord, who: string, class_: string, detail: string, nowMs: I64) {
    && r.agent == who && r.principal == Some(who) && r.grantId == None && r.actionClass == class_
    && r.verdict == Verdict.Approved && r.hic == HicLevel.ApproveEach && NoParameters(r.paramsHash)
    && r.modelId == "" && r.correlationId == detail && r.timestampMs == nowMs
  }

  /** An agent's act for a human, under an allowance. */
  predicate AgentAct(r: DecisionRecord, agent: string, who: string, authority: string, class_: string, detail: string,
                     nowMs: I64)
  {
    && r.agent == agent && r.principal == Some(who) && r.grantId == Some(authority) && r.actionClass == class_
    && r.verdict == Verdict.Approved && r.hic == HicLevel.Budgeted && NoParameters(r.paramsHash)
    && r.modelId == "" && r.correlationId == detail && r.timestampMs == nowMs
  }

  /** The chain grew by one record, and nothing else in memory moved. */
  predicate OnlyRecorded(l: Ledger, m: Ledger) {
    var n := |l.mem.chain.entries|;
    && |m.mem.chain.entries| == n + 1 && m.mem.chain.entries[..n] == l.mem.chain.entries
    && m.mem == l.mem.(chain := m.mem.chain)
  }

  lemma {:induction false} CommitSucceeds(H: Hash, l: Ledger, r: DecisionRecord, reason: Reason, outcome: LogOutcome)
    requires r.Consistent() && r.verdict != Verdict.Ungoverned
    ensures var (m, x) := Commit(H, l, r, reason, outcome);
            && OnlyRecorded(l, m) && m.mem.chain.entries[|l.mem.chain.entries|].record == r
            && (l.disk.None? || outcome.LogDone? <==> x.Ok?)
            && (x.Ok? ==> m.degraded == l.degraded && Reported(m, x.value) && x.value.reason == reason)
            && (x.Err? ==> m.degraded && x == Err(WriteFailed))
  {
    CommitRecords(H, l, r, reason, outcome);
    assert Commit(H, l, r, reason, outcome).0.mem == l.mem.(chain := Append(H, l.mem.chain, r).value);
  }

  lemma {:induction false} NoHashIsNone()
    ensures NoParameters(NoHash())
  {
  }

  /** A human's act is refused on a degraded backend or without a name, and otherwise put
      on record as it was made. */
  lemma {:induction false} PrincipalOnFields(H: Hash, l: Ledger, who: string, class_: string, detail: string, nowMs: I64,
                                             outcome: LogOutcome)
    ensures var (m, r) := RecordPrincipal(H, l, who, class_, detail, nowMs, outcome);
            if l.degraded then (m, r) == (l, Err(Degraded))
            else if Trim(who) == "" then (m, r) == (l, Err(MustNameTheHuman))
            else
              && OnlyRecorded(l, m) && (l.disk.None? || outcome.LogDone? <==> r.Ok?)
              && HumanAct(m.mem.chain.entries[|l.mem.chain.entries|].record, who, class_, detail, nowMs)
              && (r.Ok? ==> !m.degraded && Reported(m, r.value) && r.value.reason == RC302(class_, who))
              && (r.Err? ==> m.degraded)
  {
    NoHashIsNone();
    CommitSucceeds(H, l, DecisionRecord(who, Some(who), None, class_, NoHash(), Verdict.Approved,
                                        HicLevel.ApproveEach, "", detail, nowMs), RC302(class_, who), outcome);
  }

  lemma {:induction false} DelegatedOnFields(H: Hash, l: Ledger, agent: string, who: string, authority: string, class_: string,
                                             detail: string, nowMs: I64, outcome: LogOutcome)
    ensures var (m, r) := RecordDelegated(H, l, agent, who, authority, class_, detail, nowMs, outcome);
            if l.degraded then (m, r) == (l, Err(Degraded))
            else if Trim(who) == "" then (m, r) == (l, Err(MustNameTheHuman))
            else
              && OnlyRecorded(l, m) && (l.disk.None? || outcome.LogDone? <==> r.Ok?)
              && AgentAct(m.mem.chain.entries[|l.mem.chain.entries|].record, agent, who, authority, class_, detail, nowMs)
              && (r.Ok? ==> !m.degraded && Reported(m, r.value) && r.value.reason == RC303(class_, agent, who))
              && (r.Err? ==> m.degraded)
  {
    NoHashIsNone();
    CommitSucceeds(H, l, DecisionRecord(agent, Some(who), Some(authority), class_, NoHash(), Verdict.Approved,
                                        HicLevel.Budgeted, "", detail, nowMs), RC303(class_, agent, who), outcome);
  }

  // ---- grants ------------------------------------------------------------

  predicate InUse(s: Slice, id: string) {
    exists a, i | a in s.grants && 0 <= i < |s.grants[a]| :: s.grants[a][i].id == id
  }

  lemma {:induction false} InUseIs(s: Slice, id: string)
    ensures InUse(s, id) <==> HasGrant(s.grants, id)
  {
    if HasGrant(s.grants, id) {
      var a: string :| a in s.grants && exists g: CapabilityGrant | g in s.grants[a] :: g.id == id;
      var g: CapabilityGrant :| g in s.grants[a] && g.id == id;
      var i: nat :| i < |s.grants[a]| && s.grants[a][i] == g;
      assert s.grants[a][i].id == id;
    }
    if InUse(s, id) {
      var a, i :| a in s.grants && 0 <= i < |s.grants[a]| && s.grants[a][i].id == id;
      assert s.grants[a][i] in s.grants[a];
    }
  }

  /** The level of oversight a grant is issued at. */
  predicate HicReadsAs(text: string, h: GrantHic) {
    match h
    case ApproveEach => text in {"1", "approve-each"}
    case PostHoc => text in {"3", "post-hoc"}
    case Budgeted => text !in {"1", "approve-each", "3", "post-hoc"}
  }

  /** The grant as its human signed it: nothing spent, not revoked. */
  predicate IssuedAs(g: CapabilityGrant, input: GrantInput) {
    && g.id == input.id && g.agent == input.agent && g.principal == input.principal
    && g.tenantScope == input.tenantScope && g.actionClasses == input.actionClasses
    && ReadsAs(input.ceiling, g.ceiling) && g.budgetUnits == input.budgetUnits && g.consumed == 0
    && g.expiresAtMs == input.expiresAtMs && HicReadsAs(input.hic, g.hic) && !g.revoked
  }

  /** What an issue does to memory, whatever became of its writes. */
  predicate Issues(l: Ledger, m: Ledger, input: GrantInput, g: CapabilityGrant) {
    && IssuedAs(g, input)
    && m.mem == l.mem.(chain := m.mem.chain, grants := l.mem.grants[input.agent := Of(l.mem, input.agent) + [g]])
  }

  lemma {:induction false} NewGrantIs(input: GrantInput, c: Classification)
    requires ReadsAs(input.ceiling, c)
    ensures IssuedAs(NewGrant(input, c), input)
  {
  }

  lemma {:induction false} GrantsSavedOnFields(l: Ledger, lands: bool)
    ensures var (m, ok) := SaveGrants(l, lands);
            && m.mem == l.mem && (ok <==> l.disk.None? || lands) && m.disk.Some? == l.disk.Some?
            && (ok ==> m.degraded == l.degraded) && (!ok ==> m.degraded)
  {
  }

  /** An issue is refused for a ceiling that does not read or an id in use, and then nothing
      changes. Otherwise the grant is filed as it was signed; the call succeeds exactly when
      its writes land, the issuer has a name and the backend is not degraded, and then the
      issue is on record as the issuer's act. */
  lemma {:induction false} IssueOnFields(H: Hash, l: Ledger, input: GrantInput, nowMs: I64, io: Faults)
    returns (g: CapabilityGrant)
    ensures var (m, r) := IssueGrant(H, l, input, nowMs, io);
            if forall c :: !ReadsAs(input.ceiling, c) then (m, r) == (l, Err(UnknownClassification(input.ceiling)))
            else if InUse(l.mem, input.id) then (m, r) == (l, Err(DuplicateGrant(input.id)))
            else
              && Issues(l, m, input, g)
              && (r.Ok? <==> !l.degraded && Trim(input.issuedBy) != ""
                             && (l.disk.None? || (io.grants && io.log.LogDone?)))
              && (r.Ok? ==>
                    && !m.degraded && OnlyRecorded(l.(mem := l.mem.(grants := m.mem.grants)), m)
                    && HumanAct(m.mem.chain.entries[|l.mem.chain.entries|].record, input.issuedBy, "grant.issue",
                                input.id + " \U{2192} " + input.agent, nowMs))
  {
    ReadsAsIs(input.ceiling);
    InUseIs(l.mem, input.id);
    var c := ClassificationFromStr(input.ceiling);
    if c.Some? {
      g := NewGrant(input, c.value);
      NewGrantIs(input, c.value);
      var l1 := l.(mem := l.mem.(grants := l.mem.grants[input.agent := GrantsOf(l.mem, input.agent) + [g]]));
      GrantsSavedOnFields(l1, io.grants);
      PrincipalOnFields(H, SaveGrants(l1, io.grants).0, input.issuedBy, "grant.issue", input.id + ARROW + input.agent,
                        nowMs, io.log);
    } else {
      g := NewGrant(input, Public);
    }
  }
}
