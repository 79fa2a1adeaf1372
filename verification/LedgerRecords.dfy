/** What an operation that succeeds leaves on record, and that one that fails either
    changed nothing or degraded the backend. */
module LedgerRecords {
  import opened Basics
  import opened Audit
  import opened Policy
  import opened Store
  import opened Files
  import opened Ledger
  import opened LedgerSound
  import opened LedgerSteps
  import opened LedgerBudget
  import Hex

  // ---- the policy's verdict ---------------------------------------------

  function ActionOf(input: ActionInput, c: Classification): Action {
    Action(input.class_, c, ChargeFor(input.cost), input.hic1CostThreshold,
           input.mandatoryHic1 || ClassIsMandatoryHic1(input.class_))
  }

  /** The k-th grant of the agent is the first that covers the action. */
  predicate FirstCovers(l: Ledger, input: ActionInput, c: Classification, nowMs: I64, k: nat) {
    var gs := GrantsOf(l.mem, input.agent);
    && k < |gs| && gs[k].Covers(ActionOf(input, c), nowMs)
    && forall j :: 0 <= j < k ==> !gs[j].Covers(ActionOf(input, c), nowMs)
  }

  predicate NoneCovers(l: Ledger, input: ActionInput, c: Classification, nowMs: I64) {
    forall j :: 0 <= j < |GrantsOf(l.mem, input.agent)| ==>
      !GrantsOf(l.mem, input.agent)[j].Covers(ActionOf(input, c), nowMs)
  }

  /** A human has to sign: the class demands it, the cost is over the threshold, or the
      grant itself asks every time. */
  predicate NeedsSignature(input: ActionInput, g: CapabilityGrant) {
    || input.mandatoryHic1 || ClassIsMandatoryHic1(input.class_)
    || (input.hic1CostThreshold > 0 && ChargeFor(input.cost) > input.hic1CostThreshold)
    || g.hic == GrantHic.ApproveEach
  }

  /** Each verdict says exactly this, and names the first covering grant even when the
      model may not see the material. */
  lemma {:induction false} VerdictMeans(l: Ledger, input: ActionInput, c: Classification, nowMs: I64) returns (k: nat)
    ensures var d := Decide(l, input, c, nowMs);
            && (d.verdict == Verdict.Ungoverned <==> NoneCovers(l, input, c, nowMs))
            && (d.verdict == Verdict.Ungoverned ==> d.grantId.None?)
            && (d.verdict != Verdict.Ungoverned ==>
                  FirstCovers(l, input, c, nowMs, k)
                  && d.grantId == Some(GrantsOf(l.mem, input.agent)[k].id)
                  && (d.verdict == Deny <==> !l.egress.Permits(input.classification, input.modelId))
                  && (d.verdict == RequireApproval
                      <==> l.egress.Permits(input.classification, input.modelId)
                           && NeedsSignature(input, GrantsOf(l.mem, input.agent)[k]))
                  && (d.verdict == Allow
                      <==> l.egress.Permits(input.classification, input.modelId)
                           && !NeedsSignature(input, GrantsOf(l.mem, input.agent)[k])))
  {
    var found := FindCovering(GrantsOf(l.mem, input.agent), ActionOf(input, c), nowMs);
    k := if found.Some? then found.value else 0;
  }

  // ---- one more record --------------------------------------------------

  /** The chain has this one record more, and nothing before it moved. */
  predicate OneMore(l: Ledger, m: Ledger, r: DecisionRecord) {
    var n := |l.mem.chain.entries|;
    && |m.mem.chain.entries| == n + 1 && m.mem.chain.entries[..n] == l.mem.chain.entries
    && m.mem.chain.entries[n].record == r
  }

  /** The reply is about the last record of the chain. */
  predicate Reported(m: Ledger, d: DecisionDto) {
    var n := |m.mem.chain.entries|;
    && n == d.decisionId + 1
    && d.verdict == m.mem.chain.entries[n - 1].record.verdict
    && d.hic == m.mem.chain.entries[n - 1].record.hic
    && d.grantId == m.mem.chain.entries[n - 1].record.grantId
    && d.chainHead == Hex.Encode(m.mem.chain.entries[n - 1].hash)
    && (d.ungoverned <==> d.verdict == Verdict.Ungoverned)
  }

  lemma {:induction false} CommitRecords(H: Hash, l: Ledger, r: DecisionRecord, reason: Reason, outcome: LogOutcome)
    requires r.Consistent() && r.verdict != Verdict.Ungoverned
    ensures var (m, x) := Commit(H, l, r, reason, outcome);
            && m.mem == l.mem.(chain := Append(H, l.mem.chain, r).value) && OneMore(l, m, r)
            && (x.Err? ==> m.degraded) && (x.Ok? ==> m.degraded == l.degraded && Reported(m, x.value))
  {
  }

  // ---- evaluations ------------------------------------------------------

  function QuestionOf(input: ActionInput, id: nat, nowMs: I64): PendingApproval {
    PendingApproval(id, input.agent, input.principal, input.class_, input.classification, input.cost,
                    input.correlationId, nowMs)
  }

  /** What a reported evaluation did: one record, under the principal of the grant, the
      charge of a governed action, the question of an escalation. */
  predicate Evaluated(l: Ledger, m: Ledger, input: ActionInput, d: Decision, nowMs: I64, reply: DecisionDto) {
    var id := |l.mem.chain.entries|;
    && OneMore(l, m, ActionRecord(input, d, Accountable(l, input.agent, d.grantId), nowMs))
    && Reported(m, reply) && reply.reason == d.reason
    && m.mem.charges == (if d.grantId.None? then l.mem.charges
                         else l.mem.charges[id := Charge(id, input.agent, d.grantId.value, ChargeFor(input.cost))])
    && m.mem.pending == (if d.verdict == RequireApproval then l.mem.pending[id := QuestionOf(input, id, nowMs)]
                         else l.mem.pending)
    && m.mem.resolved == l.mem.resolved && m.mem.allowances == l.mem.allowances
  }

  /** The slice after a decision has taken effect. */
  function Affected(s: Slice, input: ActionInput, d: Decision, k: nat, id: nat, nowMs: I64): Slice
    requires d.grantId.Some? ==> k < |GrantsOf(s, input.agent)|
                                 && ChargeFor(input.cost) <= GrantsOf(s, input.agent)[k].Remaining()
  {
    var t := if d.grantId.None? then s else Charged(s, input.agent, k, id, ChargeFor(input.cost));
    if d.verdict == RequireApproval then t.(pending := t.pending[id := QuestionOf(input, id, nowMs)]) else t
  }

  lemma {:induction false} EffectsReport(l: Ledger, input: ActionInput, d: Decision, k: nat, id: nat, nowMs: I64,
                                         io: Faults)
    requires MemKept(l.mem) && PaidBy(l, input, d, k)
    ensures var (m, e) := Effects(l, input, d, id, nowMs, io);
            && (e.Some? ==> m.degraded) && (e.None? ==> m.degraded == l.degraded)
            && (e.None? ==> m.mem == Affected(l.mem, input, d, k, id, nowMs))
            && m.mem.chain == l.mem.chain && m.mem.resolved == l.mem.resolved && m.mem.allowances == l.mem.allowances
  {
    if d.grantId.Some? {
      ChargePhaseMem(l, input.agent, k, id, ChargeFor(input.cost), io);
      ChargeFails(l, input.agent, k, id, ChargeFor(input.cost), io);
    }
  }

  lemma {:induction false} SettleReports(l: Ledger, input: ActionInput, d: Decision, k: nat, nowMs: I64, io: Faults)
    requires MemKept(l.mem) && !l.degraded && l.mem.chain.entries != [] && PaidBy(l, input, d, k)
    ensures var (m, r) := Settle(l, input, d, nowMs, io);
            var id := |l.mem.chain.entries| - 1;
            && (r.Err? ==> m.degraded)
            && (r.Ok? ==>
                  && !m.degraded && m.mem == Affected(l.mem, input, d, k, id, nowMs)
                  && r.value == DecisionDto(id, d.verdict, d.hic, d.grantId, d.reason,
                                            Hex.Encode(l.mem.chain.entries[id].hash),
                                            d.verdict == Verdict.Ungoverned))
  {
    var id := |l.mem.chain.entries| - 1;
    EffectsReport(l, input, d, k, id, nowMs, io);
  }

  /** A charge that can be paid fails only by a failed write. */
  lemma {:induction false} ChargeFails(l: Ledger, agent: string, k: nat, id: nat, units: U64, io: Faults)
    requires MemKept(l.mem) && k < |GrantsOf(l.mem, agent)| && units <= GrantsOf(l.mem, agent)[k].Remaining()
    ensures var (m, e) := ChargePhase(l, agent, Some(GrantsOf(l.mem, agent)[k].id), id, units, io);
            (e.Some? ==> m.degraded) && (e.None? ==> m.degraded == l.degraded)
  {
    assert IsGrant(l.mem.grants, agent, k);
    FindsItself(l.mem.grants, agent, k);
  }

  /** An evaluation that returns an error changed nothing, or a write failed and the
      backend is degraded; one that returns a decision did all of it. */
  lemma {:induction false} EvaluateAllOrNothing(H: Hash, l: Ledger, input: ActionInput, nowMs: I64, io: Faults)
    requires Sound(H, l)
    ensures var (m, r) := EvaluateAndRecord(H, l, input, nowMs, io);
            && (r.Err? ==> m == l || m.degraded)
            && (r.Ok? ==>
                  && !m.degraded && ClassificationFromStr(input.classification).Some?
                  && Evaluated(l, m, input,
                               Decide(l, input, ClassificationFromStr(input.classification).value, nowMs),
                               nowMs, r.value))
  {
    var c := ClassificationFromStr(input.classification);
    if !l.degraded && c.Some? {
      var k := DecisionNamesPayingGrant(l, input, c.value, nowMs);
      EvaluateAppends(H, l, input, c.value, nowMs);
      var d := Decide(l, input, c.value, nowMs);
      var r := ActionRecord(input, d, Accountable(l, input.agent, d.grantId), nowMs);
      SettleReports(l.(mem := l.mem.(chain := Append(H, l.mem.chain, r).value)), input, d, k, nowMs, io);
    }
  }

  // ---- answers ----------------------------------------------------------

  lemma {:induction false} DequeueLeaves(l: Ledger, id: nat, lands: bool)
    ensures var (m, ok) := Dequeue(l, id, lands);
            && m.mem == l.mem.(pending := l.mem.pending - {id})
            && (if ok then m.degraded == l.degraded else m.degraded)
  {
    assert id !in l.mem.pending ==> l.mem.pending - {id} == l.mem.pending;
  }

  lemma {:induction false} AnswerFiles(l: Ledger, id: nat, a: Answer, io: Faults)
    ensures var (m, e) := AnswerPhase(l, id, a, io);
            && m.mem.chain == l.mem.chain && m.mem.charges == l.mem.charges
            && (e.Some? ==> m.degraded)
            && (e.None? ==> m.degraded == l.degraded && id !in m.mem.pending
                            && m.mem.resolved == l.mem.resolved[id := a])
  {
    DequeueLeaves(l, id, io.pending);
    var l1 := Dequeue(l, id, io.pending).0;
    assert FileAnswer(l1, id, a, io.resolved).0.mem == l1.mem.(resolved := l1.mem.resolved[id := a]);
  }

  lemma {:induction false} SaveBudgetMem(l: Ledger, io: Faults)
    ensures var (m, e) := SaveBudget(l, io);
            m.mem == l.mem && (if e.None? then m.degraded == l.degraded else m.degraded)
  {
  }

  lemma {:induction false} RefundFiles(l: Ledger, id: nat, io: Faults)
    ensures var (m, e) := RefundPhase(l, id, io);
            && m.mem.chain == l.mem.chain && m.mem.resolved == l.mem.resolved && m.mem.pending == l.mem.pending
            && (e.Some? ==> m.degraded) && (e.None? ==> m.degraded == l.degraded)
            && id !in m.mem.charges
  {
    if id in l.mem.charges {
      SaveBudgetMem(Unspend(l.(mem := l.mem.(charges := l.mem.charges - {id})), l.mem.charges[id]), io);
    }
  }

  /** A rejection that returns an error changed nothing or degraded the backend; one that
      succeeds takes the question away, files the refusal, clears the charge, and records
      the original decision again as rejected. */
  lemma {:induction false} RejectAllOrNothing(H: Hash, l: Ledger, id: nat, nowMs: I64, io: Faults)
    ensures var (m, r) := Reject(H, l, id, nowMs, io);
            && (r.Err? ==> m == l || m.degraded)
            && (r.Ok? ==>
                  && !m.degraded && id < |l.mem.chain.entries| && id !in m.mem.pending && id !in m.mem.charges
                  && m.mem.resolved == l.mem.resolved[id := SaidNo]
                  && OneMore(l, m, l.mem.chain.entries[id].record.(verdict := Rejected, hic := HicLevel.ApproveEach,
                                                                    timestampMs := nowMs))
                  && Reported(m, r.value))
  {
    if !l.degraded && id < |l.mem.chain.entries| {
      var (l1, e1) := AnswerPhase(l, id, SaidNo, io);
      AnswerFiles(l, id, SaidNo, io);
      if e1.None? {
        var (l2, e2) := RefundPhase(l1, id, io);
        RefundFiles(l1, id, io);
        if e2.None? {
          CommitRecords(H, l2, l.mem.chain.entries[id].record.(verdict := Rejected, hic := HicLevel.ApproveEach,
                                                               timestampMs := nowMs), RC300, io.log);
        }
      }
    }
  }

  /** So does an approval, whenever questions belong to recorded decisions; the record
      names the human who approved. */
  lemma {:induction false} ApproveAllOrNothing(H: Hash, l: Ledger, id: nat, who: string, nowMs: I64, io: Faults)
    requires OnRecord(l.mem)
    ensures var (m, r) := Approve(H, l, id, who, nowMs, io);
            && (r.Err? ==> m == l || m.degraded)
            && (r.Ok? ==>
                  && !m.degraded && !Blank(who) && MatchesOperator(l.operator, who)
                  && id in l.mem.pending && id !in m.mem.pending && m.mem.charges == l.mem.charges
                  && m.mem.resolved == l.mem.resolved[id := SaidYes]
                  && OneMore(l, m, l.mem.chain.entries[id].record.(
                                     principal := Some(who), verdict := Verdict.Approved,
                                     hic := HicLevel.ApproveEach, timestampMs := nowMs))
                  && Reported(m, r.value))
  {
    if !l.degraded && !Blank(who) && MatchesOperator(l.operator, who) && id in l.mem.pending {
      var (l1, e1) := AnswerPhase(l, id, SaidYes, io);
      AnswerFiles(l, id, SaidYes, io);
      if e1.None? {
        CommitRecords(H, l1, l.mem.chain.entries[id].record.(
                               principal := Some(who), verdict := Verdict.Approved,
                               hic := HicLevel.ApproveEach, timestampMs := nowMs),
                      RC301(who, l.mem.pending[id].agent), io.log);
      }
    }
  }
}
