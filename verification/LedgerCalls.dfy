/** The other calls on the fields alone, revocations, answers, allowances and settings, and
    what two of them mean over runs: whose approvals are on file, and that a revoked
    allowance casts nothing. */
module LedgerCalls {
  import opened Basics
  import opened Audit
  import opened Policy
  import opened Store
  import opened Files
  import opened Ledger
  import opened LedgerSound
  import opened LedgerSteps
  import opened LedgerBudget
  import opened LedgerRuns
  import opened LedgerAnswers
  import opened LedgerRecords
  import opened LedgerCrash
  import opened LedgerBooks
  import opened LedgerFields

  // ---- revoking a grant --------------------------------------------------

  /** Every grant of the list with this id is revoked, and no field of any other moves. */
  predicate RevokedIn(was: seq<CapabilityGrant>, now: seq<CapabilityGrant>, id: string) {
    && |now| == |was|
    && forall i :: 0 <= i < |was| ==> now[i] == if was[i].id == id then was[i].(revoked := true) else was[i]
  }

  predicate Bears(s: Slice, agent: string, id: string) {
    exists i | 0 <= i < |Of(s, agent)| :: Of(s, agent)[i].id == id
  }

  lemma {:induction false} RevokeAllIs(gs: seq<CapabilityGrant>, id: string)
    ensures RevokedIn(gs, RevokeAll(gs, id), id)
  {
  }

  lemma {:induction false} BearsIs(s: Slice, agent: string, id: string)
    ensures Bears(s, agent, id) <==> FindGrant(GrantsOf(s, agent), id).Some?
  {
    var gs := GrantsOf(s, agent);
    assert Of(s, agent) == gs;
    if FindGrant(gs, id).Some? {
      assert gs[FindGrant(gs, id).value].id == id;
    }
  }

  /** A revocation needs a name and a grant of that agent and id; then the grant is revoked
      in memory, and the call succeeds exactly when its writes land and the backend is not
      degraded. */
  lemma {:induction false} RevokeOnFields(H: Hash, l: Ledger, agent: string, id: string, actor: string, nowMs: I64, io: Faults)
    ensures var (m, r) := RevokeGrant(H, l, agent, id, actor, nowMs, io);
            if Trim(actor) == "" then (m, r) == (l, Err(MustNameTheHuman))
            else if !Bears(l.mem, agent, id) then (m, r) == (l, Ok(false))
            else
              && m.mem == l.mem.(chain := m.mem.chain, grants := l.mem.grants[agent := Of(m.mem, agent)])
              && RevokedIn(Of(l.mem, agent), Of(m.mem, agent), id)
              && (r.Ok? <==> !l.degraded && (l.disk.None? || (io.grants && io.log.LogDone?)))
              && (r.Ok? ==>
                    && r.value && !m.degraded && OnlyRecorded(l.(mem := l.mem.(grants := m.mem.grants)), m)
                    && HumanAct(m.mem.chain.entries[|l.mem.chain.entries|].record, actor, "grant.revoke",
                                id + " \U{2192} " + agent, nowMs))
  {
    BearsIs(l.mem, agent, id);
    if Trim(actor) != "" && Bears(l.mem, agent, id) {
      var gs := RevokeAll(GrantsOf(l.mem, agent), id);
      RevokeAllIs(GrantsOf(l.mem, agent), id);
      var l1 := l.(mem := l.mem.(grants := l.mem.grants[agent := gs]));
      GrantsSavedOnFields(l1, io.grants);
      PrincipalOnFields(H, SaveGrants(l1, io.grants).0, actor, "grant.revoke", id + ARROW + agent, nowMs, io.log);
    }
  }

  // ---- allowances --------------------------------------------------------

  lemma {:induction false} AllowancesSavedOnFields(l: Ledger, lands: bool)
    ensures var (m, ok) := SaveAllowances(l, lands);
            && m.mem == l.mem && (ok <==> l.disk.None? || lands) && m.disk.Some? == l.disk.Some?
            && (ok ==> m.degraded == l.degraded) && (!ok ==> m.degraded)
  {
  }

  /** The allowance as its human gave it, nothing spent. */
  predicate GivenAs(a: VoteAllowance, input: AllowanceInput) {
    && a.id == input.id && a.principal == input.principal && a.agent == input.agent
    && a.tenantScope == input.tenantScope && a.proposalClasses == input.proposalClasses
    && a.weightCap == input.weightCap && a.spent == 0 && a.expiresAtMs == input.expiresAtMs && !a.revoked
  }

  /** An allowance needs a principal with a name; then it stands under its id, whatever
      stood there, and the call succeeds exactly when its writes land and the backend is
      not degraded. */
  lemma {:induction false} AllowOnFields(H: Hash, l: Ledger, input: AllowanceInput, nowMs: I64, io: Faults)
    ensures var (m, r) := IssueAllowance(H, l, input, nowMs, io);
            if Trim(input.principal) == "" then (m, r) == (l, Err(MustNameTheHuman))
            else
              && input.id in m.mem.allowances && GivenAs(m.mem.allowances[input.id], input)
              && m.mem == l.mem.(chain := m.mem.chain,
                                 allowances := l.mem.allowances[input.id := m.mem.allowances[input.id]])
              && (r.Ok? <==> !l.degraded && (l.disk.None? || (io.allowances && io.log.LogDone?)))
              && (r.Ok? ==>
                    && !m.degraded && OnlyRecorded(l.(mem := l.mem.(allowances := m.mem.allowances)), m)
                    && HumanAct(m.mem.chain.entries[|l.mem.chain.entries|].record, input.principal, "allowance.issue",
                                input.id + " \U{2192} " + input.agent + " (cap " + Decimal(input.weightCap) + ")", nowMs))
  {
    if Trim(input.principal) != "" {
      var l1 := l.(mem := l.mem.(allowances := l.mem.allowances[input.id := NewAllowance(input)]));
      AllowancesSavedOnFields(l1, io.allowances);
      PrincipalOnFields(H, SaveAllowances(l1, io.allowances).0, input.principal, "allowance.issue",
                        input.id + ARROW + input.agent + " (cap " + Decimal(input.weightCap) + ")", nowMs, io.log);
    }
  }

  /** The allowance may cast this weight on this class now. */
  predicate MayCast(a: VoteAllowance, class_: string, weight: U64, nowMs: I64) {
    !a.revoked && a.expiresAtMs > nowMs && class_ in a.proposalClasses && a.spent + weight <= a.weightCap
  }

  /** The text a cast returns and puts on record. */
  function Delegation(a: VoteAllowance, spent: nat): string {
    a.principal + " \U{25B8} " + a.agent + " \U{00B7} allowance " + Decimal(spent) + "/" + Decimal(a.weightCap)
  }

  /** A cast is accepted exactly when the allowance is neither revoked nor expired, the
      class is one of its own, and the weight fits what is left. Then the weight is spent;
      otherwise nothing changes and the error says which of the three failed. */
  lemma {:induction false} CastOnFields(H: Hash, l: Ledger, id: string, class_: string, weight: U64, nowMs: I64, io: Faults)
    requires MemKept(l.mem)
    ensures var (m, r) := CastVote(H, l, id, class_, weight, nowMs, io);
            if id !in l.mem.allowances then (m, r) == (l, Err(NoSuchAllowance(id)))
            else
              var a := l.mem.allowances[id];
              if !MayCast(a, class_, weight, nowMs) then
                (m, r) == (l, Err(CastRefused(if a.revoked || a.expiresAtMs <= nowMs then AllowanceInactive
                                              else if class_ !in a.proposalClasses then ClassNotCovered
                                              else OverAllowance)))
              else
                && m.mem == l.mem.(chain := m.mem.chain,
                                   allowances := l.mem.allowances[id := a.(spent := a.spent + weight)])
                && (r.Ok? <==> !l.degraded && Trim(a.principal) != "" && (l.disk.None? || (io.allowances && io.log.LogDone?)))
                && (r.Ok? ==>
                      && r.value == Delegation(a, a.spent + weight) && !m.degraded
                      && OnlyRecorded(l.(mem := l.mem.(allowances := m.mem.allowances)), m)
                      && AgentAct(m.mem.chain.entries[|l.mem.chain.entries|].record, a.agent, a.principal, id, "vote.cast",
                                  id + " \U{00B7} " + class_ + " \U{00B7} weight " + Decimal(weight) + " \U{00B7} "
                                  + Delegation(a, a.spent + weight), nowMs))
  {
    if id in l.mem.allowances && MayCast(l.mem.allowances[id], class_, weight, nowMs) {
      var a := l.mem.allowances[id].(spent := l.mem.allowances[id].spent + weight);
      var l1 := l.(mem := l.mem.(allowances := l.mem.allowances[id := a]));
      AllowancesSavedOnFields(l1, io.allowances);
      var detail := id + DOT + class_ + DOT + "weight " + Decimal(weight) + DOT + Proof(a);
      DelegatedOnFields(H, SaveAllowances(l1, io.allowances).0, a.agent, a.principal, id, "vote.cast", detail, nowMs, io.log);
      SameDetail(id, class_, weight, l.mem.allowances[id], l.mem.allowances[id].spent + weight);
    }
  }

  lemma {:induction false} SameDetail(id: string, class_: string, weight: U64, a: VoteAllowance, spent: U64)
    ensures Proof(a.(spent := spent)) == Delegation(a, spent)
    ensures id + DOT + class_ + DOT + "weight " + Decimal(weight) + DOT + Proof(a.(spent := spent))
            == id + " \U{00B7} " + class_ + " \U{00B7} weight " + Decimal(weight) + " \U{00B7} " + Delegation(a, spent)
  {
    assert DOT + "weight " == " \U{00B7} weight ";
    var w := Decimal(weight);
    assert id + DOT + class_ + DOT + "weight " == id + DOT + class_ + (DOT + "weight ");
  }

  /** Revoking an allowance marks it and nothing else; the call succeeds exactly when its
      writes land, its principal has a name and the backend is not degraded. */
  lemma {:induction false} DisallowOnFields(H: Hash, l: Ledger, id: string, nowMs: I64, io: Faults)
    ensures var (m, r) := RevokeAllowance(H, l, id, nowMs, io);
            if id !in l.mem.allowances then (m, r) == (l, Ok(false))
            else
              var a := l.mem.allowances[id];
              && m.mem == l.mem.(chain := m.mem.chain, allowances := l.mem.allowances[id := a.(revoked := true)])
              && (r.Ok? <==> !l.degraded && Trim(a.principal) != "" && (l.disk.None? || (io.allowances && io.log.LogDone?)))
              && (r.Ok? ==>
                    && r.value && !m.degraded && OnlyRecorded(l.(mem := l.mem.(allowances := m.mem.allowances)), m)
                    && HumanAct(m.mem.chain.entries[|l.mem.chain.entries|].record, a.principal, "allowance.revoke", id, nowMs))
  {
    if id in l.mem.allowances {
      var a := l.mem.allowances[id].(revoked := true);
      var l1 := l.(mem := l.mem.(allowances := l.mem.allowances[id := a]));
      AllowancesSavedOnFields(l1, io.allowances);
      PrincipalOnFields(H, SaveAllowances(l1, io.allowances).0, a.principal, "allowance.revoke", id, nowMs, io.log);
    }
  }

  // ---- answers -----------------------------------------------------------

  /** The name is the operator's, or no operator is set. */
  predicate MayAnswer(operator: Option<string>, who: string) {
    operator == None || Trim(who) == Trim(operator.value)
  }

  /** Memory after an answer that succeeded: off the queue, the answer filed. */
  predicate Answered(l: Ledger, m: Ledger, id: nat, a: Answer) {
    m.mem.pending == l.mem.pending - {id} && m.mem.resolved == l.mem.resolved[id := a]
    && m.mem.allowances == l.mem.allowances
  }

  lemma {:induction false} PhaseOnFields(l: Ledger, id: nat, a: Answer, io: Faults)
    ensures var (m, e) := AnswerPhase(l, id, a, io);
            && (Lands(l, io) ==> e.None?)
            && (e.None? ==> m.mem == l.mem.(pending := l.mem.pending - {id}, resolved := l.mem.resolved[id := a])
                            && m.degraded == l.degraded)
            && m.disk.Some? == l.disk.Some? && (e.Some? ==> m.degraded)
  {
    DequeueLeaves(l, id, io.pending);
    var (l1, ok) := Dequeue(l, id, io.pending);
    assert ok ==> FileAnswer(l1, id, a, io.resolved).0.mem == l1.mem.(resolved := l1.mem.resolved[id := a]);
  }

  /** An approval is refused, and nothing changes, on a degraded backend, without a name,
      by anyone whose trimmed name is not the operator's where one is set, and for an id
      under which nothing waits. Otherwise, where the decision is on record and the writes
      land, it succeeds; and one that succeeds records the decision again, approved by
      that person. */
  lemma {:induction false} ApproveOnFields(H: Hash, l: Ledger, id: nat, who: string, nowMs: I64, io: Faults)
    requires Sound(H, l)
    ensures var (m, r) := Approve(H, l, id, who, nowMs, io);
            if l.degraded then (m, r) == (l, Err(Degraded))
            else if Trim(who) == "" then (m, r) == (l, Err(MustNameTheHuman))
            else if l.operator.Some? && Trim(who) != Trim(l.operator.value) then (m, r) == (l, Err(NotTheOperator))
            else if id !in l.mem.pending then (m, r) == (l, Err(NotAwaiting(id)))
            else
              && (id < |l.mem.chain.entries| && Lands(l, io) ==> r.Ok?)
              && (r.Err? ==> m.degraded || r == Err(NoSuchDecision(id)))
              && (r.Ok? ==>
                    && id < |l.mem.chain.entries| && !m.degraded && Answered(l, m, id, SaidYes)
                    && m.mem.grants == l.mem.grants && m.mem.charges == l.mem.charges
                    && OneMore(l, m, l.mem.chain.entries[id].record.(
                                       principal := Some(who), verdict := Verdict.Approved,
                                       hic := HicLevel.ApproveEach, timestampMs := nowMs))
                    && Reported(m, r.value) && r.value.reason == RC301(who, l.mem.pending[id].agent))
  {
    if !l.degraded && Trim(who) != "" && MayAnswer(l.operator, who) && id in l.mem.pending {
      PhaseOnFields(l, id, SaidYes, io);
      if AnswerPhase(l, id, SaidYes, io).1.None? && id < |l.mem.chain.entries| {
        CommitSucceeds(H, AnswerPhase(l, id, SaidYes, io).0,
                       l.mem.chain.entries[id].record.(principal := Some(who), verdict := Verdict.Approved,
                                                       hic := HicLevel.ApproveEach, timestampMs := nowMs),
                       RC301(who, l.mem.pending[id].agent), io.log);
      }
    }
  }

  /** What the charge of a decision took is back on the grant it came from. */
  predicate GaveBack(l: Ledger, m: Ledger, c: Charge) {
    var gs := Of(l.mem, c.agent);
    if forall v :: 0 <= v < |gs| ==> gs[v].id != c.grantId then m.mem.grants == l.mem.grants
    else exists v | 0 <= v < |gs| :: GaveBackAt(l, m, c, v)
  }

  predicate GaveBackAt(l: Ledger, m: Ledger, c: Charge, v: nat) {
    var gs := Of(l.mem, c.agent);
    && v < |gs| && gs[v].id == c.grantId
    && m.mem.grants
       == l.mem.grants[c.agent := gs[v := gs[v].(consumed := if c.units <= gs[v].consumed then gs[v].consumed - c.units else 0)]]
  }

  lemma {:induction false} RefundOnFields(l: Ledger, id: nat, io: Faults)
    ensures var (m, e) := RefundPhase(l, id, io);
            && (Lands(l, io) ==> e.None?) && (e.Some? ==> m.degraded) && (e.None? ==> m.degraded == l.degraded)
            && m.disk.Some? == l.disk.Some?
            && m.mem == l.mem.(charges := l.mem.charges - {id}, grants := m.mem.grants)
            && (if id in l.mem.charges then GaveBack(l, m, l.mem.charges[id]) else m.mem.grants == l.mem.grants)
  {
    RefundPhaseMem(l, id, io);
    if id in l.mem.charges {
      var c := l.mem.charges[id];
      var n := Unspend(l.(mem := l.mem.(charges := l.mem.charges - {id})), c);
      SaveBudgetSucceeds(n, io);
      RefundedOnFields(l, RefundPhase(l, id, io).0, id);
    } else {
      assert l.mem.charges - {id} == l.mem.charges;
    }
  }

  lemma {:induction false} SaveBudgetSucceeds(l: Ledger, io: Faults)
    ensures var (m, e) := SaveBudget(l, io);
            && (Lands(l, io) ==> e.None?) && (e.Some? ==> m.degraded) && (e.None? ==> m.degraded == l.degraded)
            && m.disk.Some? == l.disk.Some?
  {
  }

  lemma {:induction false} RefundedOnFields(l: Ledger, m: Ledger, id: nat)
    requires id in l.mem.charges && m.mem.grants == Refunded(l.mem, id).grants
    ensures GaveBack(l, m, l.mem.charges[id])
  {
    var c := l.mem.charges[id];
    var gs := GrantsOf(l.mem, c.agent);
    assert Of(l.mem, c.agent) == gs;
    var k := FindGrant(gs, c.grantId);
    if k.Some? {
      assert GaveBackAt(l, m, c, k.value);
    }
  }

  /** A rejection is refused, and nothing changes, on a degraded backend and for an id not
      on record. Otherwise it succeeds where its writes land; and one that succeeds takes
      the question away, files the refusal, gives the decision's charge back to its grant,
      and records the decision again, rejected. */
  lemma {:induction false} RejectOnFields(H: Hash, l: Ledger, id: nat, nowMs: I64, io: Faults)
    requires Sound(H, l)
    ensures var (m, r) := Reject(H, l, id, nowMs, io);
            if l.degraded then (m, r) == (l, Err(Degraded))
            else if id >= |l.mem.chain.entries| then (m, r) == (l, Err(NoSuchDecision(id)))
            else
              && (Lands(l, io) ==> r.Ok?) && (r.Err? ==> m.degraded)
              && (r.Ok? ==>
                    && !m.degraded && Answered(l, m, id, SaidNo) && m.mem.charges == l.mem.charges - {id}
                    && (if id in l.mem.charges then GaveBack(l, m, l.mem.charges[id]) else m.mem.grants == l.mem.grants)
                    && OneMore(l, m, l.mem.chain.entries[id].record.(verdict := Rejected, hic := HicLevel.ApproveEach,
                                                                     timestampMs := nowMs))
                    && Reported(m, r.value) && r.value.reason == RC300)
  {
    if !l.degraded && id < |l.mem.chain.entries| {
      var (l1, e1) := AnswerPhase(l, id, SaidNo, io);
      PhaseOnFields(l, id, SaidNo, io);
      if e1.None? {
        RefundOnFields(l1, id, io);
        var (l2, e2) := RefundPhase(l1, id, io);
        if e2.None? {
          CommitSucceeds(H, l2, l.mem.chain.entries[id].record.(verdict := Rejected, hic := HicLevel.ApproveEach,
                                                               timestampMs := nowMs), RC300, io.log);
          if id in l.mem.charges {
            GivenBackAll(l, l1, l2, Reject(H, l, id, nowMs, io).0, l.mem.charges[id]);
          }
        }
      }
    }
  }

  lemma {:induction false} GivenBackAll(l: Ledger, l1: Ledger, l2: Ledger, m: Ledger, c: Charge)
    requires l1.mem.grants == l.mem.grants && m.mem.grants == l2.mem.grants && GaveBack(l1, l2, c)
    ensures GaveBack(l, m, c)
  {
    var gs := Of(l.mem, c.agent);
    if !(forall v :: 0 <= v < |gs| ==> gs[v].id != c.grantId) {
      var v :| 0 <= v < |gs| && GaveBackAt(l1, l2, c, v);
      assert GaveBackAt(l, m, c, v);
    }
  }

  /** What an agent that polls is told: waiting while the question is in the queue; else
      the answer on file, if it is a yes or a no; else waiting, for a decision on record;
      and nothing at all for any other id. */
  lemma {:induction false} StatusOnFields(s: Slice, id: nat)
    ensures var yes := id !in s.pending && id in s.resolved && s.resolved[id] == SaidYes;
            var no := id !in s.pending && id in s.resolved && s.resolved[id] == SaidNo;
            && (DecisionStatus(s, id) == Some(Granted) <==> yes)
            && (DecisionStatus(s, id) == Some(Refused) <==> no)
            && (DecisionStatus(s, id) == None
                <==> id !in s.pending && id !in s.resolved && id >= |s.chain.entries|)
            && (DecisionStatus(s, id) == Some(Waiting)
                <==> !yes && !no && (id in s.pending || id in s.resolved || id < |s.chain.entries|))
  {
  }

  // ---- settings and scope -----------------------------------------------

  /** The operator is the trimmed name given, in memory at once and on disk if it lands. */
  lemma {:induction false} OperatorOnFields(l: Ledger, name: string, lands: bool)
    ensures var (m, r) := SetOperator(l, name, lands);
            if Trim(name) == "" then (m, r) == (l, Err(MustNameTheHuman))
            else
              && m.operator == Some(Trim(name)) && m.mem == l.mem && m.egress == l.egress
              && (r.Ok? <==> l.disk.None? || lands)
              && (l.disk.Some? ==>
                    m.disk == Some(if lands then l.disk.value.(operator := Some(Trim(name))) else l.disk.value))
              && m.degraded == (l.degraded || r.Err?)
  {
  }

  /** Establishing the scope of a sound ledger always loads; memory is then what the files
      hold, every file of it, and only the scope file can still fail the call. */
  lemma {:induction false} ScopeOnFields(H: Hash, l: Ledger, lands: bool)
    requires Sound(H, l)
    ensures var (m, r) := SetActive(H, l, lands);
            && (r.Ok? <==> l.disk.None? || lands) && m == l.(mem := m.mem)
            && (l.disk.None? ==> m == l)
            && (l.disk.Some? ==> FromFiles(l, m.mem))
  {
    if l.disk.Some? {
      FilesLoad(H, l);
    }
  }

  /** The slice is what the files hold: the record as far as the log goes, and each other
      file as it is. */
  predicate FromFiles(l: Ledger, s: Slice)
    requires l.disk.Some?
  {
    var d := l.disk.value;
    && |s.chain.entries| == DiskLines(l) && s.chain.entries <= l.mem.chain.entries
    && d.grants == Ok(s.grants) && s.allowances == d.allowances && s.charges == d.charges
    && s.pending == d.pending && s.resolved == d.resolved
  }

  /** A new process runs undegraded, over the same files, with the settings and the slice
      they hold. */
  lemma {:induction false} RestartOnFields(H: Hash, l: Ledger)
    requires Sound(H, l) && l.disk.Some?
    ensures var m := Restart(H, l);
            && !m.degraded && m.disk == l.disk && m.tenant == l.tenant
            && m.operator == l.disk.value.operator && m.egress == l.disk.value.egress && FromFiles(l, m.mem)
  {
    FilesLoad(H, l);
  }
}
