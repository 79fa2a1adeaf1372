/** Budget conservation: what a grant has consumed is exactly what its outstanding
    charges took, so a decision refunds its charge and refunds it once. */
module LedgerBudget {
  import opened Basics
  import opened Audit
  import opened Policy
  import opened Store
  import opened Files
  import opened Ledger
  import opened LedgerSound
  import opened LedgerSteps

  function UnitsFor(c: Charge, agent: string, grantId: string): nat {
    if c.agent == agent && c.grantId == grantId then c.units else 0
  }

  /** The units of all outstanding charges that name this agent and grant. */
  ghost function Outstanding(charges: map<nat, Charge>, agent: string, grantId: string): nat
    decreases |charges|
  {
    if charges == map[] then 0
    else
      var d :| d in charges;
      assert |charges - {d}| < |charges| by { assert (charges - {d}).Keys < charges.Keys; CardLess(charges, d); }
      UnitsFor(charges[d], agent, grantId) + Outstanding(charges - {d}, agent, grantId)
  }

  lemma {:induction false} CardLess(charges: map<nat, Charge>, d: nat)
    requires d in charges
    ensures |charges - {d}| == |charges| - 1
  {
    assert (charges - {d}).Keys == charges.Keys - {d};
    assert |(charges - {d}).Keys| == |charges - {d}|;
  }

  /** The sum does not depend on the order charges are counted in. */
  lemma {:induction false} OutstandingSplit(charges: map<nat, Charge>, d: nat, agent: string, grantId: string)
    requires d in charges
    ensures Outstanding(charges, agent, grantId)
            == UnitsFor(charges[d], agent, grantId) + Outstanding(charges - {d}, agent, grantId)
    decreases |charges|
  {
    var e :| e in charges && Outstanding(charges, agent, grantId)
                             == UnitsFor(charges[e], agent, grantId) + Outstanding(charges - {e}, agent, grantId);
    if e != d {
      CardLess(charges, e);
      OutstandingSplit(charges - {e}, d, agent, grantId);
      OutstandingSplit(charges - {d}, e, agent, grantId);
      assert charges - {e} - {d} == charges - {d} - {e};
    }
  }

  // ---- the invariant ----------------------------------------------------

  /** Each grant has consumed exactly what its outstanding charges took. */
  ghost predicate Conserved(s: Slice) {
    forall a, i :: IsGrant(s.grants, a, i) ==>
      s.grants[a][i].consumed == Outstanding(s.charges, a, s.grants[a][i].id)
  }

  /** Every outstanding charge names a grant of its agent. */
  ghost predicate Named(s: Slice) {
    forall d :: d in s.charges ==>
      FindGrant(GrantsOf(s, s.charges[d].agent), s.charges[d].grantId).Some?
  }

  /** Charges, questions and answers belong to recorded decisions, and no decision
      is both waiting and answered. */
  ghost predicate OnRecord(s: Slice) {
    && (forall d :: d in s.charges ==> d < |s.chain.entries|)
    && (forall d :: d in s.pending ==> d < |s.chain.entries| && d !in s.resolved)
    && (forall d :: d in s.resolved ==> d < |s.chain.entries|)
  }

  /** The budget in order. */
  ghost predicate Balanced(s: Slice) {
    Conserved(s) && Named(s)
  }

  ghost predicate Clean(s: Slice) {
    Balanced(s) && OnRecord(s)
  }

  lemma {:induction false} InitialIsClean(H: Hash, tenant: string)
    ensures Clean(Initial(H, tenant).mem)
  {
  }

  /** Rewriting grants in place, ids kept, leaves every charge with its grant. */
  lemma {:induction false} StillNamed(s: Slice, t: Slice, agent: string, gs: seq<CapabilityGrant>)
    requires Named(s) && |gs| >= |GrantsOf(s, agent)|
    requires forall i :: 0 <= i < |GrantsOf(s, agent)| ==> gs[i].id == GrantsOf(s, agent)[i].id
    requires t.grants == s.grants[agent := gs]
    requires forall d :: d in t.charges ==> d in s.charges && t.charges[d] == s.charges[d]
    ensures Named(t)
  {
    forall d | d in t.charges
      ensures FindGrant(GrantsOf(t, t.charges[d].agent), t.charges[d].grantId).Some?
    {
      var c := s.charges[d];
      if c.agent == agent {
        var v := FindGrant(GrantsOf(s, agent), c.grantId).value;
        assert gs[v].id == c.grantId;
      }
    }
  }

  // ---- taking and giving back -------------------------------------------

  function Charged(s: Slice, agent: string, k: nat, id: nat, units: U64): Slice
    requires k < |GrantsOf(s, agent)| && units <= GrantsOf(s, agent)[k].Remaining()
  {
    var gs := GrantsOf(s, agent);
    s.(grants := s.grants[agent := gs[k := gs[k].Consume(units).value]],
       charges := s.charges[id := Charge(id, agent, gs[k].id, units)])
  }

  lemma {:induction false} OutstandingAdd(charges: map<nat, Charge>, id: nat, c: Charge, agent: string, grantId: string)
    requires id !in charges
    ensures Outstanding(charges[id := c], agent, grantId)
            == UnitsFor(c, agent, grantId) + Outstanding(charges, agent, grantId)
  {
    OutstandingSplit(charges[id := c], id, agent, grantId);
    assert charges[id := c] - {id} == charges;
  }

  lemma {:induction false} ChargedConserves(s: Slice, agent: string, k: nat, id: nat, units: U64)
    requires MemKept(s) && Conserved(s) && id !in s.charges
    requires k < |GrantsOf(s, agent)| && units <= GrantsOf(s, agent)[k].Remaining()
    ensures Conserved(Charged(s, agent, k, id, units))
  {
    var t := Charged(s, agent, k, id, units);
    var c := t.charges[id];
    assert IsGrant(s.grants, agent, k);
    forall a, i | IsGrant(t.grants, a, i)
      ensures t.grants[a][i].consumed == Outstanding(t.charges, a, t.grants[a][i].id)
    {
      assert IsGrant(s.grants, a, i);
      OutstandingAdd(s.charges, id, c, a, s.grants[a][i].id);
    }
  }

  lemma {:induction false} ChargedNames(s: Slice, agent: string, k: nat, id: nat, units: U64)
    requires Named(s)
    requires k < |GrantsOf(s, agent)| && units <= GrantsOf(s, agent)[k].Remaining()
    ensures Named(Charged(s, agent, k, id, units))
  {
    var t := Charged(s, agent, k, id, units);
    StillNamed(s, t.(charges := s.charges), agent, t.grants[agent]);
    forall d | d in t.charges
      ensures FindGrant(GrantsOf(t, t.charges[d].agent), t.charges[d].grantId).Some?
    {
      if d == id {
        assert t.grants[agent][k].id == t.charges[id].grantId;
      } else {
        assert t.charges[d] == s.charges[d];
      }
    }
  }

  /** The charge of a decision, given back to the grant it came from. */
  function Refunded(s: Slice, id: nat): Slice
    requires id in s.charges
  {
    var c := s.charges[id];
    var gs := GrantsOf(s, c.agent);
    var t := s.(charges := s.charges - {id});
    match FindGrant(gs, c.grantId)
    case None => t
    case Some(k) => t.(grants := s.grants[c.agent := gs[k := gs[k].Refund(c.units)]])
  }

  /** Nothing saturates: a refund subtracts exactly what the charge took. */
  lemma {:induction false} RefundIsExact(s: Slice, id: nat, k: nat)
    requires MemKept(s) && Conserved(s) && id in s.charges
    requires FindGrant(GrantsOf(s, s.charges[id].agent), s.charges[id].grantId) == Some(k)
    ensures var g := GrantsOf(s, s.charges[id].agent)[k];
            g.Refund(s.charges[id].units).consumed == g.consumed - s.charges[id].units
  {
    var c := s.charges[id];
    assert IsGrant(s.grants, c.agent, k);
    OutstandingSplit(s.charges, id, c.agent, c.grantId);
  }

  lemma {:induction false} RefundedConserves(s: Slice, id: nat)
    requires MemKept(s) && Conserved(s) && Named(s) && id in s.charges
    ensures Conserved(Refunded(s, id))
  {
    var t := Refunded(s, id);
    var c := s.charges[id];
    var k := FindGrant(GrantsOf(s, c.agent), c.grantId).value;
    RefundIsExact(s, id, k);
    assert IsGrant(s.grants, c.agent, k);
    forall a, i | IsGrant(t.grants, a, i)
      ensures t.grants[a][i].consumed == Outstanding(t.charges, a, t.grants[a][i].id)
    {
      assert IsGrant(s.grants, a, i);
      OutstandingSplit(s.charges, id, a, s.grants[a][i].id);
    }
  }

  lemma {:induction false} RefundedNames(s: Slice, id: nat)
    requires Named(s) && id in s.charges
    ensures Named(Refunded(s, id))
  {
    var c := s.charges[id];
    var t := Refunded(s, id);
    StillNamed(s, t, c.agent, GrantsOf(t, c.agent));
  }

  // ---- memory, whatever the disk does -----------------------------------

  /** The memory a charge phase leaves does not depend on which writes landed. */
  lemma {:induction false} ChargePhaseMem(l: Ledger, agent: string, k: nat, id: nat, units: U64, io: Faults)
    requires MemKept(l.mem) && k < |GrantsOf(l.mem, agent)| && units <= GrantsOf(l.mem, agent)[k].Remaining()
    ensures ChargePhase(l, agent, Some(GrantsOf(l.mem, agent)[k].id), id, units, io).0.mem
            == Charged(l.mem, agent, k, id, units)
  {
    assert IsGrant(l.mem.grants, agent, k);
    FindsItself(l.mem.grants, agent, k);
  }

  lemma {:induction false} RefundPhaseMem(l: Ledger, id: nat, io: Faults)
    ensures RefundPhase(l, id, io).0.mem == (if id in l.mem.charges then Refunded(l.mem, id) else l.mem)
  {
  }

  lemma {:induction false} ChargeIsClean(l: Ledger, input: ActionInput, d: Decision, k: nat, id: nat, io: Faults)
    requires MemKept(l.mem) && Clean(l.mem) && PaidBy(l, input, d, k)
    requires id < |l.mem.chain.entries| && id !in l.mem.charges
    ensures var m := ChargePhase(l, input.agent, d.grantId, id, ChargeFor(input.cost), io).0;
            Clean(m.mem) && m.mem.pending == l.mem.pending && m.mem.resolved == l.mem.resolved
            && m.mem.chain == l.mem.chain
  {
    if d.grantId.Some? {
      ChargePhaseMem(l, input.agent, k, id, ChargeFor(input.cost), io);
      ChargedConserves(l.mem, input.agent, k, id, ChargeFor(input.cost));
      ChargedNames(l.mem, input.agent, k, id, ChargeFor(input.cost));
    }
  }

  lemma {:induction false} QueueIsClean(l: Ledger, input: ActionInput, verdict: Verdict, id: nat, nowMs: I64, io: Faults)
    requires Clean(l.mem) && id < |l.mem.chain.entries| && id !in l.mem.resolved
    ensures Clean(PendingPhase(l, input, verdict, id, nowMs, io).0.mem)
  {
  }

  lemma {:induction false} AppendIsClean(H: Hash, s: Slice, r: DecisionRecord)
    requires Clean(s) && r.Consistent()
    ensures Clean(s.(chain := Append(H, s.chain, r).value))
  {
  }

  lemma {:induction false} EffectsAreClean(l: Ledger, input: ActionInput, d: Decision, k: nat, id: nat, nowMs: I64, io: Faults)
    requires MemKept(l.mem) && Clean(l.mem) && PaidBy(l, input, d, k)
    requires id < |l.mem.chain.entries|
    requires id !in l.mem.charges && id !in l.mem.pending && id !in l.mem.resolved
    ensures Clean(Effects(l, input, d, id, nowMs, io).0.mem)
  {
    ChargeIsClean(l, input, d, k, id, io);
    QueueIsClean(ChargePhase(l, input.agent, d.grantId, id, ChargeFor(input.cost), io).0,
                 input, d.verdict, id, nowMs, io);
  }

  lemma {:induction false} FinishMem(l: Ledger, e: Option<Error>, entry: Entry, d: Decision, id: nat, outcome: LogOutcome)
    ensures Finish(l, e, entry, d, id, outcome).0.mem == l.mem
  {
  }

  lemma {:induction false} EvaluateIsClean(H: Hash, l: Ledger, input: ActionInput, nowMs: I64, io: Faults)
    requires MemKept(l.mem) && Clean(l.mem)
    ensures Clean(EvaluateAndRecord(H, l, input, nowMs, io).0.mem)
  {
    var c := ClassificationFromStr(input.classification);
    if !l.degraded && c.Some? {
      var k := DecisionNamesPayingGrant(l, input, c.value, nowMs);
      EvaluateAppends(H, l, input, c.value, nowMs);
      var d := Decide(l, input, c.value, nowMs);
      var r := ActionRecord(input, d, Accountable(l, input.agent, d.grantId), nowMs);
      AppendIsClean(H, l.mem, r);
      SettleIsClean(l.(mem := l.mem.(chain := Append(H, l.mem.chain, r).value)), input, d, k, nowMs, io);
    }
  }

  lemma {:induction false} SettleIsClean(l: Ledger, input: ActionInput, d: Decision, k: nat, nowMs: I64, io: Faults)
    requires MemKept(l.mem) && Clean(l.mem) && PaidBy(l, input, d, k) && l.mem.chain.entries != []
    requires var id := |l.mem.chain.entries| - 1; id !in l.mem.charges && id !in l.mem.pending && id !in l.mem.resolved
    ensures Clean(Settle(l, input, d, nowMs, io).0.mem)
  {
    var id := |l.mem.chain.entries| - 1;
    EffectsAreClean(l, input, d, k, id, nowMs, io);
    var (n, e) := Effects(l, input, d, id, nowMs, io);
    FinishMem(n, e, l.mem.chain.entries[id], d, id, io.log);
  }

  /** An answer touches the queue and the answers and nothing else in memory. */
  predicate AnswerOnly(s: Slice, t: Slice) {
    t == s.(pending := t.pending, resolved := t.resolved)
  }

  lemma {:induction false} AnswerPhaseMem(l: Ledger, id: nat, answer: Answer, io: Faults)
    ensures var m := AnswerPhase(l, id, answer, io).0.mem;
            && AnswerOnly(l.mem, m)
            && m.pending == l.mem.pending - {id}
            && m.resolved in {l.mem.resolved, l.mem.resolved[id := answer]}
  {
    DequeueMem(l, id, io.pending);
    FileMem(Dequeue(l, id, io.pending).0, id, answer, io.resolved);
  }

  lemma {:induction false} DequeueMem(l: Ledger, id: nat, lands: bool)
    ensures Dequeue(l, id, lands).0.mem == l.mem.(pending := l.mem.pending - {id})
  {
    assert id !in l.mem.pending ==> l.mem.pending - {id} == l.mem.pending;
  }

  lemma {:induction false} FileMem(l: Ledger, id: nat, answer: Answer, lands: bool)
    ensures FileAnswer(l, id, answer, lands).0.mem == l.mem.(resolved := l.mem.resolved[id := answer])
  {
  }

  lemma {:induction false} AnswerIsClean(l: Ledger, id: nat, answer: Answer, io: Faults)
    requires Clean(l.mem) && id < |l.mem.chain.entries|
    ensures Clean(AnswerPhase(l, id, answer, io).0.mem)
    ensures AnswerOnly(l.mem, AnswerPhase(l, id, answer, io).0.mem)
  {
    AnswerPhaseMem(l, id, answer, io);
    AnsweredIsClean(l.mem, AnswerPhase(l, id, answer, io).0.mem, id, answer);
  }

  lemma {:induction false} AnsweredIsClean(s: Slice, t: Slice, id: nat, answer: Answer)
    requires Clean(s) && id < |s.chain.entries|
    requires AnswerOnly(s, t) && t.pending == s.pending - {id}
    requires t.resolved in {s.resolved, s.resolved[id := answer]}
    ensures Clean(t)
  {
    forall d | d in t.charges
      ensures FindGrant(GrantsOf(t, t.charges[d].agent), t.charges[d].grantId).Some?
    {
      assert d in s.charges;
    }
    forall a, i | IsGrant(t.grants, a, i)
      ensures t.grants[a][i].consumed == Outstanding(t.charges, a, t.grants[a][i].id)
    {
      assert IsGrant(s.grants, a, i);
    }
  }

  lemma {:induction false} RefundIsClean(l: Ledger, id: nat, io: Faults)
    requires MemKept(l.mem) && Clean(l.mem)
    ensures Clean(RefundPhase(l, id, io).0.mem)
  {
    RefundPhaseMem(l, id, io);
    if id in l.mem.charges {
      RefundedConserves(l.mem, id);
      RefundedNames(l.mem, id);
    }
  }

  lemma {:induction false} CommitIsClean(H: Hash, l: Ledger, r: DecisionRecord, reason: Reason, outcome: LogOutcome)
    requires Clean(l.mem)
    ensures Clean(Commit(H, l, r, reason, outcome).0.mem)
  {
    if r.Consistent() {
      AppendIsClean(H, l.mem, r);
    }
  }

  lemma {:induction false} RejectIsClean(H: Hash, l: Ledger, id: nat, nowMs: I64, io: Faults)
    requires MemKept(l.mem) && Clean(l.mem)
    ensures Clean(Reject(H, l, id, nowMs, io).0.mem)
  {
    if !l.degraded && id < |l.mem.chain.entries| {
      var (l1, e1) := AnswerPhase(l, id, SaidNo, io);
      AnswerIsClean(l, id, SaidNo, io);
      if e1.None? {
        var (l2, e2) := RefundPhase(l1, id, io);
        assert MemKept(l1.mem);
        RefundIsClean(l1, id, io);
        if e2.None? {
          CommitIsClean(H, l2, l.mem.chain.entries[id].record.(verdict := Rejected, hic := HicLevel.ApproveEach,
                                                              timestampMs := nowMs), RC300, io.log);
        }
      }
    }
  }

  lemma {:induction false} ApproveIsClean(H: Hash, l: Ledger, id: nat, approver: string, nowMs: I64, io: Faults)
    requires Clean(l.mem)
    ensures Clean(Approve(H, l, id, approver, nowMs, io).0.mem)
  {
    if !l.degraded && !Blank(approver) && MatchesOperator(l.operator, approver) && id in l.mem.pending {
      var (l1, e1) := AnswerPhase(l, id, SaidYes, io);
      AnswerIsClean(l, id, SaidYes, io);
      if e1.None? {
        CommitIsClean(H, l1, l.mem.chain.entries[id].record.(
                               principal := Some(approver), verdict := Verdict.Approved,
                               hic := HicLevel.ApproveEach, timestampMs := nowMs),
                      RC301(approver, l.mem.pending[id].agent), io.log);
      }
    }
  }

  lemma {:induction false} PrincipalIsClean(H: Hash, l: Ledger, who: string, class_: string, detail: string,
                         nowMs: I64, outcome: LogOutcome)
    requires Clean(l.mem)
    ensures Clean(RecordPrincipal(H, l, who, class_, detail, nowMs, outcome).0.mem)
  {
    CommitIsClean(H, l, DecisionRecord(who, Some(who), None, class_, NoHash(), Verdict.Approved,
                                       HicLevel.ApproveEach, "", detail, nowMs), RC302(class_, who), outcome);
  }

  lemma {:induction false} DelegatedIsClean(H: Hash, l: Ledger, agent: string, who: string, authority: string, class_: string,
                         detail: string, nowMs: I64, outcome: LogOutcome)
    requires Clean(l.mem)
    ensures Clean(RecordDelegated(H, l, agent, who, authority, class_, detail, nowMs, outcome).0.mem)
  {
    CommitIsClean(H, l, DecisionRecord(agent, Some(who), Some(authority), class_, NoHash(), Verdict.Approved,
                                       HicLevel.Budgeted, "", detail, nowMs), RC303(class_, agent, who), outcome);
  }

  lemma {:induction false} NothingOutstanding(charges: map<nat, Charge>, agent: string, grantId: string)
    requires forall d :: d in charges ==> charges[d].grantId != grantId
    ensures Outstanding(charges, agent, grantId) == 0
    decreases |charges|
  {
    if charges != map[] {
      var d :| d in charges && Outstanding(charges, agent, grantId)
                               == UnitsFor(charges[d], agent, grantId) + Outstanding(charges - {d}, agent, grantId);
      CardLess(charges, d);
      NothingOutstanding(charges - {d}, agent, grantId);
      assert UnitsFor(charges[d], agent, grantId) == 0;
    }
  }

  /** No outstanding charge names a grant id the tenant does not have. */
  lemma {:induction false} NoChargeForNewGrant(s: Slice, grantId: string)
    requires Named(s) && !HasGrant(s.grants, grantId)
    ensures forall d :: d in s.charges ==> s.charges[d].grantId != grantId
  {
    forall d | d in s.charges ensures s.charges[d].grantId != grantId {
      var c := s.charges[d];
      var v := FindGrant(GrantsOf(s, c.agent), c.grantId).value;
      NoSuchGrant(s.grants, grantId, c.agent, v);
    }
  }

  lemma {:induction false} IssueBalances(s: Slice, g: CapabilityGrant)
    requires Balanced(s) && !HasGrant(s.grants, g.id) && g.consumed == 0
    ensures Balanced(s.(grants := s.grants[g.agent := GrantsOf(s, g.agent) + [g]]))
  {
    var t := s.(grants := s.grants[g.agent := GrantsOf(s, g.agent) + [g]]);
    NoChargeForNewGrant(s, g.id);
    NothingOutstanding(s.charges, g.agent, g.id);
    StillNamed(s, t, g.agent, t.grants[g.agent]);
    forall a, i | IsGrant(t.grants, a, i)
      ensures t.grants[a][i].consumed == Outstanding(t.charges, a, t.grants[a][i].id)
    {
      if a != g.agent || i < |GrantsOf(s, g.agent)| {
        assert IsGrant(s.grants, a, i);
      }
    }
  }

  lemma {:induction false} RevokeBalances(s: Slice, agent: string, id: string)
    requires Balanced(s) && agent in s.grants
    ensures Balanced(s.(grants := s.grants[agent := RevokeAll(s.grants[agent], id)]))
  {
    var t := s.(grants := s.grants[agent := RevokeAll(s.grants[agent], id)]);
    StillNamed(s, t, agent, t.grants[agent]);
    forall a, i | IsGrant(t.grants, a, i)
      ensures t.grants[a][i].consumed == Outstanding(t.charges, a, t.grants[a][i].id)
    {
      assert IsGrant(s.grants, a, i);
    }
  }

  lemma {:induction false} IssueGrantIsClean(H: Hash, l: Ledger, input: GrantInput, nowMs: I64, io: Faults)
    requires Clean(l.mem)
    ensures Clean(IssueGrant(H, l, input, nowMs, io).0.mem)
  {
    var c := ClassificationFromStr(input.ceiling);
    if c.Some? && !HasGrant(l.mem.grants, input.id) {
      IssueBalances(l.mem, NewGrant(input, c.value));
      var gs := GrantsOf(l.mem, input.agent) + [NewGrant(input, c.value)];
      var m := SaveGrants(l.(mem := l.mem.(grants := l.mem.grants[input.agent := gs])), io.grants).0;
      PrincipalIsClean(H, m, input.issuedBy, "grant.issue", input.id + ARROW + input.agent, nowMs, io.log);
    }
  }

  lemma {:induction false} RevokeGrantIsClean(H: Hash, l: Ledger, agent: string, id: string, actor: string, nowMs: I64, io: Faults)
    requires Clean(l.mem)
    ensures Clean(RevokeGrant(H, l, agent, id, actor, nowMs, io).0.mem)
  {
    if !Blank(actor) && FindGrant(GrantsOf(l.mem, agent), id).Some? {
      RevokeBalances(l.mem, agent, id);
      var gs := RevokeAll(GrantsOf(l.mem, agent), id);
      var m := SaveGrants(l.(mem := l.mem.(grants := l.mem.grants[agent := gs])), io.grants).0;
      PrincipalIsClean(H, m, actor, "grant.revoke", id + ARROW + agent, nowMs, io.log);
    }
  }

  lemma {:induction false} AllowancesAreClean(s: Slice, allowances: map<string, VoteAllowance>)
    requires Clean(s)
    ensures Clean(s.(allowances := allowances))
  {
    var t := s.(allowances := allowances);
    forall a, i | IsGrant(t.grants, a, i)
      ensures t.grants[a][i].consumed == Outstanding(t.charges, a, t.grants[a][i].id)
    {
      assert IsGrant(s.grants, a, i);
    }
  }

  lemma {:induction false} IssueAllowanceIsClean(H: Hash, l: Ledger, input: AllowanceInput, nowMs: I64, io: Faults)
    requires Clean(l.mem)
    ensures Clean(IssueAllowance(H, l, input, nowMs, io).0.mem)
  {
    var allowances := l.mem.allowances[input.id := NewAllowance(input)];
    AllowancesAreClean(l.mem, allowances);
    var m := SaveAllowances(l.(mem := l.mem.(allowances := allowances)), io.allowances).0;
    PrincipalIsClean(H, m, input.principal, "allowance.issue",
                     input.id + ARROW + input.agent + " (cap " + Decimal(input.weightCap) + ")", nowMs, io.log);
  }

  lemma {:induction false} CastVoteIsClean(H: Hash, l: Ledger, id: string, class_: string, weight: U64, nowMs: I64, io: Faults)
    requires Clean(l.mem)
    ensures Clean(CastVote(H, l, id, class_, weight, nowMs, io).0.mem)
  {
    if id in l.mem.allowances && l.mem.allowances[id].Cast(class_, weight, nowMs).Ok? {
      var a := l.mem.allowances[id].Cast(class_, weight, nowMs).value;
      AllowancesAreClean(l.mem, l.mem.allowances[id := a]);
      var m := SaveAllowances(l.(mem := l.mem.(allowances := l.mem.allowances[id := a])), io.allowances).0;
      DelegatedIsClean(H, m, a.agent, a.principal, id, "vote.cast",
                       id + DOT + class_ + DOT + "weight " + Decimal(weight) + DOT + Proof(a), nowMs, io.log);
    }
  }

  lemma {:induction false} RevokeAllowanceIsClean(H: Hash, l: Ledger, id: string, nowMs: I64, io: Faults)
    requires Clean(l.mem)
    ensures Clean(RevokeAllowance(H, l, id, nowMs, io).0.mem)
  {
    if id in l.mem.allowances {
      var a := l.mem.allowances[id].Revoke();
      AllowancesAreClean(l.mem, l.mem.allowances[id := a]);
      var m := SaveAllowances(l.(mem := l.mem.(allowances := l.mem.allowances[id := a])), io.allowances).0;
      PrincipalIsClean(H, m, a.principal, "allowance.revoke", id, nowMs, io.log);
    }
  }
}
