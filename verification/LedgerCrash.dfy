/** What a crash between two durable writes of one step can break, and exactly when.
    Each lemma takes a step whose later writes fail and looks at the ledger a new
    process loads. */
module LedgerCrash {
  import opened Basics
  import opened Audit
  import opened Policy
  import opened Store
  import opened Files
  import opened Ledger
  import opened LedgerSound
  import opened LedgerSteps
  import opened LedgerBudget
  import opened LedgerRuns
  import opened LedgerAnswers
  import opened LedgerRecords

  /** A running ledger over a store. */
  ghost predicate Up(H: Hash, l: Ledger) {
    Sound(H, l) && l.disk.Some? && !l.degraded
  }

  /** One whose books are clean. */
  ghost predicate Running(H: Hash, l: Ledger) {
    Up(H, l) && Clean(l.mem)
  }

  // ---- what one evaluation leaves on disk --------------------------------

  /** The file of the grants, as far as it is readable. */
  function GrantsOnDisk(l: Ledger): map<string, seq<CapabilityGrant>> {
    if l.disk.Some? && l.disk.value.grants.Ok? then l.disk.value.grants.value else map[]
  }

  /** The writes of the budget files land, in order, as far as they land. */
  lemma {:induction false} SaveBudgetOnDisk(l: Ledger, io: Faults)
    requires l.disk.Some? && l.disk.value.grants.Ok?
    ensures var (m, e) := SaveBudget(l, io);
            && m.disk.Some? && m.disk.value.grants.Ok?
            && GrantsOnDisk(m) == (if io.grants then l.mem.grants else GrantsOnDisk(l))
            && ChargesOnDisk(m) == (if io.grants && io.charges then l.mem.charges else ChargesOnDisk(l))
            && PendingOnDisk(m) == PendingOnDisk(l) && ResolvedOnDisk(m) == ResolvedOnDisk(l)
            && DiskLines(m) == DiskLines(l)
            && (e.None? <==> io.grants && io.charges)
  {
  }

  /** The effects of a decision on the files: the charge phase first, and the queue
      only when the charge phase went through. */
  lemma {:induction false} EffectsOnDisk(l: Ledger, input: ActionInput, d: Decision, k: nat, id: nat, nowMs: I64, io: Faults)
    requires MemKept(l.mem) && PaidBy(l, input, d, k)
    requires l.disk.Some? && l.disk.value.grants.Ok?
    ensures var (m, e) := Effects(l, input, d, id, nowMs, io);
            var paid := d.grantId.None? || (io.grants && io.charges);
            && m.disk.Some? && m.disk.value.grants.Ok? && m.mem.chain == l.mem.chain
            && GrantsOnDisk(m) == (if d.grantId.Some? && io.grants
                                   then Charged(l.mem, input.agent, k, id, ChargeFor(input.cost)).grants
                                   else GrantsOnDisk(l))
            && ChargesOnDisk(m) == (if d.grantId.Some? && paid
                                    then Charged(l.mem, input.agent, k, id, ChargeFor(input.cost)).charges
                                    else ChargesOnDisk(l))
            && PendingOnDisk(m) == (if d.verdict == RequireApproval && paid && io.pending
                                    then l.mem.pending[id := QuestionOf(input, id, nowMs)] else PendingOnDisk(l))
            && ResolvedOnDisk(m) == ResolvedOnDisk(l)
            && DiskLines(m) == DiskLines(l)
            && (e.None? <==> paid && (d.verdict == RequireApproval ==> io.pending))
  {
    if d.grantId.Some? {
      ChargePhaseMem(l, input.agent, k, id, ChargeFor(input.cost), io);
      SpendKeeps(l, input.agent, k, ChargeFor(input.cost));
      var l1 := Spend(l, input.agent, d.grantId.value, ChargeFor(input.cost)).value;
      var charge := Charge(id, input.agent, d.grantId.value, ChargeFor(input.cost));
      SaveBudgetOnDisk(l1.(mem := l1.mem.(charges := l1.mem.charges[id := charge])), io);
    }
  }

  lemma {:induction false} FinishOnDisk(l: Ledger, e: Option<Error>, entry: Entry, d: Decision, id: nat, outcome: LogOutcome)
    requires l.disk.Some? && l.disk.value.grants.Ok?
    ensures var m := Finish(l, e, entry, d, id, outcome).0;
            && m.disk.Some? && m.disk.value.grants.Ok?
            && GrantsOnDisk(m) == GrantsOnDisk(l) && ChargesOnDisk(m) == ChargesOnDisk(l)
            && PendingOnDisk(m) == PendingOnDisk(l) && ResolvedOnDisk(m) == ResolvedOnDisk(l)
            && DiskLines(m) == DiskLines(l) + (if e.None? && !outcome.LogLost? then 1 else 0)
  {
  }

  /** What a new process finds after this one stopped. */
  lemma {:induction false} RestartReads(H: Hash, m: Ledger)
    requires Sound(H, m) && m.disk.Some?
    ensures var r := Restart(H, m).mem;
            && r.grants == GrantsOnDisk(m) && r.charges == ChargesOnDisk(m)
            && r.pending == PendingOnDisk(m) && r.resolved == ResolvedOnDisk(m)
            && |r.chain.entries| == DiskLines(m) && r.chain.entries <= m.mem.chain.entries
  {
    FilesLoad(H, m);
  }

  /** The decision an action is about to get, and the grant that pays for it. */
  ghost predicate Decides(l: Ledger, input: ActionInput, nowMs: I64, d: Decision, k: nat) {
    && ClassificationFromStr(input.classification).Some?
    && d == Decide(l, input, ClassificationFromStr(input.classification).value, nowMs)
    && PaidBy(l, input, d, k)
  }

  /** The durable state after an evaluation, whatever it was told about its writes. */
  lemma {:induction false} EvaluateOnDisk(H: Hash, l: Ledger, input: ActionInput, nowMs: I64, d: Decision, k: nat, io: Faults)
    requires Up(H, l) && Decides(l, input, nowMs, d, k)
    ensures var m := EvaluateAndRecord(H, l, input, nowMs, io).0;
            var id := |l.mem.chain.entries|;
            var paid := d.grantId.None? || (io.grants && io.charges);
            var asked := d.verdict == RequireApproval ==> io.pending;
            && m.disk.Some?
            && GrantsOnDisk(m) == (if d.grantId.Some? && io.grants
                                   then Charged(l.mem, input.agent, k, id, ChargeFor(input.cost)).grants
                                   else l.mem.grants)
            && ChargesOnDisk(m) == (if d.grantId.Some? && paid
                                    then Charged(l.mem, input.agent, k, id, ChargeFor(input.cost)).charges
                                    else l.mem.charges)
            && PendingOnDisk(m) == (if d.verdict == RequireApproval && paid && io.pending
                                    then l.mem.pending[id := QuestionOf(input, id, nowMs)] else l.mem.pending)
            && ResolvedOnDisk(m) == l.mem.resolved
            && DiskLines(m) == id + (if paid && asked && !io.log.LogLost? then 1 else 0)
  {
    var c := ClassificationFromStr(input.classification).value;
    EvaluateAppends(H, l, input, c, nowMs);
    var r := ActionRecord(input, d, Accountable(l, input.agent, d.grantId), nowMs);
    var n := l.(mem := l.mem.(chain := Append(H, l.mem.chain, r).value));
    var id := |l.mem.chain.entries|;
    EffectsOnDisk(n, input, d, k, id, nowMs, io);
    var (m, e) := Effects(n, input, d, id, nowMs, io);
    FinishOnDisk(m, e, n.mem.chain.entries[id], d, id, io.log);
    ChargedIgnoresChain(l.mem, n.mem, input.agent, k, id, ChargeFor(input.cost));
  }

  lemma {:induction false} ChargedIgnoresChain(s: Slice, t: Slice, agent: string, k: nat, id: nat, units: U64)
    requires t == s.(chain := t.chain)
    ensures k < |GrantsOf(s, agent)| && units <= GrantsOf(s, agent)[k].Remaining() ==>
              Charged(t, agent, k, id, units) == Charged(s, agent, k, id, units).(chain := t.chain)
  {
  }

  // ---- the budget after a crash ------------------------------------------

  lemma {:induction false} ConservedDependsOnBudget(s: Slice, t: Slice)
    requires s.grants == t.grants && s.charges == t.charges
    ensures Conserved(s) == Conserved(t)
  {
    if Conserved(s) {
      forall a, i | IsGrant(t.grants, a, i)
        ensures t.grants[a][i].consumed == Outstanding(t.charges, a, t.grants[a][i].id)
      {
        assert IsGrant(s.grants, a, i);
      }
    }
    if Conserved(t) {
      forall a, i | IsGrant(s.grants, a, i)
        ensures s.grants[a][i].consumed == Outstanding(s.charges, a, s.grants[a][i].id)
      {
        assert IsGrant(t.grants, a, i);
      }
    }
  }

  /** Grants that paid without the charge on the books do not balance. */
  lemma {:induction false} TornChargeBreaks(s: Slice, agent: string, k: nat, id: nat, units: U64)
    requires MemKept(s) && Conserved(s) && units >= 1
    requires k < |GrantsOf(s, agent)| && units <= GrantsOf(s, agent)[k].Remaining()
    ensures !Conserved(Charged(s, agent, k, id, units).(charges := s.charges))
  {
    var t := Charged(s, agent, k, id, units).(charges := s.charges);
    assert IsGrant(s.grants, agent, k) && IsGrant(t.grants, agent, k);
  }

  /** An action's budget survives a restart right after it exactly when the crash does not
      fall between the two budget writes: grants saved, charges not. */
  lemma {:induction false} EvaluateConservesAcrossCrash(H: Hash, l: Ledger, input: ActionInput, nowMs: I64, d: Decision, k: nat, io: Faults)
    requires Running(H, l) && Decides(l, input, nowMs, d, k)
    ensures var r := Restart(H, EvaluateAndRecord(H, l, input, nowMs, io).0);
            Conserved(r.mem) <==> !(d.grantId.Some? && io.grants && !io.charges)
  {
    var m := EvaluateAndRecord(H, l, input, nowMs, io).0;
    var id := |l.mem.chain.entries|;
    var units := ChargeFor(input.cost);
    EvaluateIsSound(H, l, input, nowMs, io);
    EvaluateOnDisk(H, l, input, nowMs, d, k, io);
    RestartReads(H, m);
    var r := Restart(H, m).mem;
    if d.grantId.None? || !io.grants {
      ConservedDependsOnBudget(l.mem, r);
    } else if io.charges {
      ChargedConserves(l.mem, input.agent, k, id, units);
      ConservedDependsOnBudget(Charged(l.mem, input.agent, k, id, units), r);
    } else {
      TornChargeBreaks(l.mem, input.agent, k, id, units);
      ConservedDependsOnBudget(Charged(l.mem, input.agent, k, id, units).(charges := l.mem.charges), r);
    }
  }

  /** The answer of a rejection reaches both of its files. */
  predicate AnswerLands(l: Ledger, id: nat, io: Faults) {
    (id in l.mem.pending ==> io.pending) && io.resolved
  }

  lemma {:induction false} AnswerOnDisk(l: Ledger, id: nat, answer: Answer, io: Faults)
    requires l.disk.Some? && l.disk.value.grants.Ok?
    ensures var (m, e) := AnswerPhase(l, id, answer, io);
            && m.disk.Some? && m.disk.value.grants.Ok?
            && GrantsOnDisk(m) == GrantsOnDisk(l) && ChargesOnDisk(m) == ChargesOnDisk(l)
            && (e.None? <==> AnswerLands(l, id, io))
            && PendingOnDisk(m) == (if id in l.mem.pending && io.pending
                                    then l.mem.pending - {id} else PendingOnDisk(l))
            && ResolvedOnDisk(m) == (if AnswerLands(l, id, io) then l.mem.resolved[id := answer]
                                     else ResolvedOnDisk(l))
  {
  }

  lemma {:induction false} RefundOnDisk(l: Ledger, id: nat, io: Faults)
    requires l.disk.Some? && l.disk.value.grants.Ok?
    ensures var m := RefundPhase(l, id, io).0;
            && m.disk.Some? && m.disk.value.grants.Ok?
            && GrantsOnDisk(m) == (if id in l.mem.charges && io.grants
                                   then Refunded(l.mem, id).grants else GrantsOnDisk(l))
            && ChargesOnDisk(m) == (if id in l.mem.charges && io.grants && io.charges
                                    then Refunded(l.mem, id).charges else ChargesOnDisk(l))
            && PendingOnDisk(m) == PendingOnDisk(l) && ResolvedOnDisk(m) == ResolvedOnDisk(l)
  {
    if id in l.mem.charges {
      RefundPhaseMem(l, id, io);
      var n := Unspend(l.(mem := l.mem.(charges := l.mem.charges - {id})), l.mem.charges[id]);
      SaveBudgetOnDisk(n, io);
    }
  }

  lemma {:induction false} CommitOnDisk(H: Hash, l: Ledger, r: DecisionRecord, reason: Reason, outcome: LogOutcome)
    requires l.disk.Some? && l.disk.value.grants.Ok?
    ensures var m := Commit(H, l, r, reason, outcome).0;
            && m.disk.Some? && m.disk.value.grants.Ok?
            && GrantsOnDisk(m) == GrantsOnDisk(l) && ChargesOnDisk(m) == ChargesOnDisk(l)
            && PendingOnDisk(m) == PendingOnDisk(l) && ResolvedOnDisk(m) == ResolvedOnDisk(l)
  {
  }

  /** What a rejection leaves on disk, whatever it was told about its writes. */
  lemma {:induction false} RejectOnDisk(H: Hash, l: Ledger, id: nat, nowMs: I64, io: Faults)
    requires Up(H, l) && id < |l.mem.chain.entries|
    ensures var m := Reject(H, l, id, nowMs, io).0;
            var refunds := AnswerLands(l, id, io) && id in l.mem.charges && io.grants;
            && m.disk.Some?
            && GrantsOnDisk(m) == (if refunds then Refunded(l.mem, id).grants else l.mem.grants)
            && ChargesOnDisk(m) == (if refunds && io.charges then Refunded(l.mem, id).charges else l.mem.charges)
            && PendingOnDisk(m) == (if id in l.mem.pending && io.pending
                                    then l.mem.pending - {id} else l.mem.pending)
            && ResolvedOnDisk(m) == (if AnswerLands(l, id, io) then l.mem.resolved[id := SaidNo]
                                     else l.mem.resolved)
  {
    var (l1, e1) := AnswerPhase(l, id, SaidNo, io);
    AnswerOnDisk(l, id, SaidNo, io);
    AnswerPhaseMem(l, id, SaidNo, io);
    if e1.None? {
      RefundOnDisk(l1, id, io);
      if id in l.mem.charges {
        RefundedIgnoresAnswers(l.mem, l1.mem, id);
      }
      var (l2, e2) := RefundPhase(l1, id, io);
      CommitOnDisk(H, l2, l.mem.chain.entries[id].record.(verdict := Rejected, hic := HicLevel.ApproveEach,
                                                         timestampMs := nowMs), RC300, io.log);
    }
  }

  lemma {:induction false} RefundedIgnoresAnswers(s: Slice, t: Slice, id: nat)
    requires AnswerOnly(s, t) && id in s.charges
    ensures Refunded(t, id).grants == Refunded(s, id).grants && Refunded(t, id).charges == Refunded(s, id).charges
  {
  }

  /** Grants that were paid back while the charge is still on the books do not
      balance: the same charge could be refunded again. */
  lemma {:induction false} TornRefundBreaks(s: Slice, id: nat)
    requires MemKept(s) && Conserved(s) && Named(s) && id in s.charges
    ensures !Conserved(Refunded(s, id).(charges := s.charges))
  {
    var c := s.charges[id];
    var k := FindGrant(GrantsOf(s, c.agent), c.grantId).value;
    RefundIsExact(s, id, k);
    var t := Refunded(s, id).(charges := s.charges);
    assert IsGrant(s.grants, c.agent, k) && IsGrant(t.grants, c.agent, k);
  }

  /** A rejection's refund survives a restart right after it exactly when the crash does
      not fall between the two budget writes. */
  lemma {:induction false} RejectConservesAcrossCrash(H: Hash, l: Ledger, id: nat, nowMs: I64, io: Faults)
    requires Running(H, l) && id < |l.mem.chain.entries|
    ensures var r := Restart(H, Reject(H, l, id, nowMs, io).0);
            Conserved(r.mem)
            <==> !(AnswerLands(l, id, io) && id in l.mem.charges && io.grants && !io.charges)
  {
    var m := Reject(H, l, id, nowMs, io).0;
    RejectIsSound(H, l, id, nowMs, io);
    RejectOnDisk(H, l, id, nowMs, io);
    RestartReads(H, m);
    var r := Restart(H, m).mem;
    if !(AnswerLands(l, id, io) && id in l.mem.charges && io.grants) {
      ConservedDependsOnBudget(l.mem, r);
    } else if io.charges {
      RefundedConserves(l.mem, id);
      ConservedDependsOnBudget(Refunded(l.mem, id), r);
    } else {
      TornRefundBreaks(l.mem, id);
      ConservedDependsOnBudget(Refunded(l.mem, id).(charges := l.mem.charges), r);
    }
  }

  // ---- decisions that never made the record ------------------------------

  /** Files that mention one new decision are on record exactly when the decision is. */
  lemma {:induction false} OnRecordIff(s: Slice, r: Slice, charged: bool, asked: bool, landed: bool)
    requires OnRecord(s) && r.resolved == s.resolved && (asked ==> charged)
    requires var id := |s.chain.entries|;
             && |r.chain.entries| == id + (if landed then 1 else 0)
             && r.charges.Keys == s.charges.Keys + (if charged then {id} else {})
             && r.pending.Keys == s.pending.Keys + (if asked then {id} else {})
    ensures OnRecord(r) <==> !(charged && !landed)
  {
    var id := |s.chain.entries|;
    if charged {
      assert id in r.charges.Keys;
    }
    forall p | p in r.pending ensures p in s.pending || (asked && p == id) {
      assert p in r.pending.Keys;
    }
    forall c | c in r.charges ensures c in s.charges || (charged && c == id) {
      assert c in r.charges.Keys;
    }
  }

  /** After a crash in an action, every charge and question still belongs to a
      recorded decision exactly when the charge did not reach the disk without the
      record: the record is the last write, so its loss leaves the rest behind. */
  lemma {:induction false} OnRecordAcrossCrash(H: Hash, l: Ledger, input: ActionInput, nowMs: I64, d: Decision, k: nat, io: Faults)
    requires Running(H, l) && Decides(l, input, nowMs, d, k)
    ensures var r := Restart(H, EvaluateAndRecord(H, l, input, nowMs, io).0);
            var recorded := (d.verdict == RequireApproval ==> io.pending) && !io.log.LogLost?;
            OnRecord(r.mem) <==> !(d.grantId.Some? && io.grants && io.charges && !recorded)
  {
    var m := EvaluateAndRecord(H, l, input, nowMs, io).0;
    EvaluateIsSound(H, l, input, nowMs, io);
    EvaluateOnDisk(H, l, input, nowMs, d, k, io);
    var _ := DecisionNamesPayingGrant(l, input, ClassificationFromStr(input.classification).value, nowMs);
    RestartReads(H, m);
    ReadsAreOnRecord(l, Restart(H, m).mem, m, input, d, k, nowMs, io);
  }

  lemma {:induction false} ReadsAreOnRecord(l: Ledger, r: Slice, m: Ledger, input: ActionInput, d: Decision, k: nat,
                                            nowMs: I64, io: Faults)
    requires MemKept(l.mem) && OnRecord(l.mem) && PaidBy(l, input, d, k)
    requires d.verdict == RequireApproval ==> d.grantId.Some?
    requires r.charges == ChargesOnDisk(m) && r.pending == PendingOnDisk(m) && r.resolved == l.mem.resolved
    requires |r.chain.entries| == DiskLines(m)
    requires var id := |l.mem.chain.entries|;
             var paid := d.grantId.None? || (io.grants && io.charges);
             var asked := d.verdict == RequireApproval ==> io.pending;
             && ChargesOnDisk(m) == (if d.grantId.Some? && paid
                                     then Charged(l.mem, input.agent, k, id, ChargeFor(input.cost)).charges
                                     else l.mem.charges)
             && PendingOnDisk(m) == (if d.verdict == RequireApproval && paid && io.pending
                                     then l.mem.pending[id := QuestionOf(input, id, nowMs)] else l.mem.pending)
             && DiskLines(m) == id + (if paid && asked && !io.log.LogLost? then 1 else 0)
    ensures var recorded := (d.verdict == RequireApproval ==> io.pending) && !io.log.LogLost?;
            OnRecord(r) <==> !(d.grantId.Some? && io.grants && io.charges && !recorded)
  {
    var id := |l.mem.chain.entries|;
    var paid := d.grantId.None? || (io.grants && io.charges);
    var charged := d.grantId.Some? && paid;
    var asked := d.verdict == RequireApproval && paid && io.pending;
    var recorded := (d.verdict == RequireApproval ==> io.pending) && !io.log.LogLost?;
    OnRecordIff(l.mem, r, charged, asked, paid && recorded);
  }

  // ---- a refusal that a crash turns into an approval ----------------------

  const ALL_LAND: Faults := Faults(true, true, true, true, true, true, LogDone)

  /** Everything of the step reaches the disk but its record. */
  const RECORD_LOST: Faults := Faults(true, true, true, true, true, true, LogLost)

  /** The question leaves the queue on disk, and the answer is lost. */
  const ANSWER_LOST: Faults := Faults(true, true, true, false, true, true, LogLost)

  /** A question is waiting on disk and in memory about a decision not on record. */
  ghost predicate Haunted(H: Hash, l: Ledger, id: nat) {
    && Sound(H, l) && l.disk.Some? && !l.degraded
    && id == |l.mem.chain.entries| && id in l.mem.pending
  }

  /** A crash just before the record of an escalation leaves its question behind. */
  lemma {:induction false} LostRecordHaunts(H: Hash, l: Ledger, input: ActionInput, nowMs: I64, d: Decision, k: nat)
    requires Running(H, l) && Decides(l, input, nowMs, d, k) && d.verdict == RequireApproval
    ensures Haunted(H, Restart(H, EvaluateAndRecord(H, l, input, nowMs, RECORD_LOST).0), |l.mem.chain.entries|)
  {
    var m := EvaluateAndRecord(H, l, input, nowMs, RECORD_LOST).0;
    EvaluateIsSound(H, l, input, nowMs, RECORD_LOST);
    EvaluateOnDisk(H, l, input, nowMs, d, k, RECORD_LOST);
    RestartReads(H, m);
    RestartIsSound(H, m);
    RestartRuns(H, m);
  }

  lemma {:induction false} RestartRuns(H: Hash, m: Ledger)
    requires m.disk.Some?
    ensures !Restart(H, m).degraded && Restart(H, m).disk == m.disk
  {
  }

  /** Approving such a question fails, and files the approval all the same. */
  lemma {:induction false} ApprovingANonDecision(H: Hash, l: Ledger, id: nat, who: string, nowMs: I64)
    requires Haunted(H, l, id) && !Blank(who) && MatchesOperator(l.operator, who)
    ensures var (m, r) := Approve(H, l, id, who, nowMs, ALL_LAND);
            && r == Err(NoSuchDecision(id))
            && m == l.(mem := m.mem, disk := m.disk) && m.disk.Some?
            && m.mem.chain == l.mem.chain && m.mem.grants == l.mem.grants
            && id in m.mem.resolved && m.mem.resolved[id] == SaidYes
  {
  }

  /** The next escalation takes the id, and the filed approval with it. */
  lemma {:induction false} NextDecisionInherits(H: Hash, l: Ledger, input: ActionInput, nowMs: I64, d: Decision, k: nat)
    requires Sound(H, l) && l.disk.Some? && !l.degraded
    requires Decides(l, input, nowMs, d, k) && d.verdict == RequireApproval
    ensures var (m, r) := EvaluateAndRecord(H, l, input, nowMs, ALL_LAND);
            var id := |l.mem.chain.entries|;
            && r.Ok? && r.value.decisionId == id && !m.degraded && m.disk.Some?
            && id in m.mem.pending && m.mem.resolved == l.mem.resolved
            && |m.mem.chain.entries| == id + 1
  {
    var c := ClassificationFromStr(input.classification).value;
    var k' := DecisionNamesPayingGrant(l, input, c, nowMs);
    EvaluateAppends(H, l, input, c, nowMs);
    var r := ActionRecord(input, d, Accountable(l, input.agent, d.grantId), nowMs);
    var n := l.(mem := l.mem.(chain := Append(H, l.mem.chain, r).value));
    var id := |l.mem.chain.entries|;
    EffectsAsk(n, input, d, k, id, nowMs, ALL_LAND);
    EffectsAllLand(n, input, d, k, id, nowMs);
  }

  lemma {:induction false} EffectsAllLand(l: Ledger, input: ActionInput, d: Decision, k: nat, id: nat, nowMs: I64)
    requires MemKept(l.mem) && PaidBy(l, input, d, k) && l.disk.Some?
    ensures var (m, e) := Effects(l, input, d, id, nowMs, ALL_LAND);
            && e.None? && m.degraded == l.degraded && m.disk.Some?
            && (d.verdict == RequireApproval ==> id in m.mem.pending)
  {
    if d.grantId.Some? {
      SpendKeeps(l, input.agent, k, ChargeFor(input.cost));
    }
  }

  /** A rejection that crashes before its answer is saved gives the decision back
      whatever answer was on file. */
  lemma {:induction false} RejectionLosesToFile(H: Hash, l: Ledger, id: nat, nowMs: I64)
    requires Sound(H, l) && l.disk.Some? && !l.degraded && id < |l.mem.chain.entries|
    requires id in l.mem.pending && id in l.mem.resolved && l.mem.resolved[id] == SaidYes
    ensures var r := Restart(H, Reject(H, l, id, nowMs, ANSWER_LOST).0);
            DecisionStatus(r.mem, id) == Some(Granted)
  {
    var m := Reject(H, l, id, nowMs, ANSWER_LOST).0;
    RejectIsSound(H, l, id, nowMs, ANSWER_LOST);
    AnswerOnDisk(l, id, SaidNo, ANSWER_LOST);
    RestartReads(H, m);
  }

  /** What a rejection leaves of questions and answers on disk. */
  lemma {:induction false} RejectedOnDisk(H: Hash, l: Ledger, id: nat, nowMs: I64, io: Faults)
    requires Sound(H, l) && l.disk.Some? && !l.degraded && id < |l.mem.chain.entries|
    ensures var m := Reject(H, l, id, nowMs, io).0;
            && m.disk.Some?
            && PendingOnDisk(m) == (if id in l.mem.pending && io.pending
                                    then l.mem.pending - {id} else l.mem.pending)
            && ResolvedOnDisk(m) == (if AnswerLands(l, id, io) then l.mem.resolved[id := SaidNo]
                                     else l.mem.resolved)
  {
    var (l1, e1) := AnswerPhase(l, id, SaidNo, io);
    AnswerOnDisk(l, id, SaidNo, io);
    if e1.None? {
      RefundOnDisk(l1, id, io);
      var (l2, e2) := RefundPhase(l1, id, io);
      CommitOnDisk(H, l2, l.mem.chain.entries[id].record.(verdict := Rejected, hic := HicLevel.ApproveEach,
                                                         timestampMs := nowMs), RC300, io.log);
    }
  }

  /** A decision refused while it waits reads as approved after a crash exactly when an
      approval was already on file under its id and the crash fell between taking it off
      the queue and filing the refusal. A ledger where no decision is both waiting and
      answered is never in that case. */
  lemma {:induction false} RefusalAcrossCrash(H: Hash, l: Ledger, id: nat, nowMs: I64, io: Faults)
    requires Sound(H, l) && l.disk.Some? && !l.degraded && id < |l.mem.chain.entries| && id in l.mem.pending
    ensures var r := Restart(H, Reject(H, l, id, nowMs, io).0);
            DecisionStatus(r.mem, id) == Some(Granted)
            <==> id in l.mem.resolved && l.mem.resolved[id] == SaidYes && io.pending && !io.resolved
    ensures OnRecord(l.mem) ==>
              DecisionStatus(Restart(H, Reject(H, l, id, nowMs, io).0).mem, id) in {Some(Waiting), Some(Refused)}
  {
    var m := Reject(H, l, id, nowMs, io).0;
    RejectIsSound(H, l, id, nowMs, io);
    RejectedOnDisk(H, l, id, nowMs, io);
    RejectKeepsLines(H, l, id, nowMs, io);
    RestartStatus(H, m, id);
  }

  lemma {:induction false} RestartStatus(H: Hash, m: Ledger, id: nat)
    requires Sound(H, m) && m.disk.Some? && id < DiskLines(m)
    ensures DecisionStatus(Restart(H, m).mem, id)
            == (if id in PendingOnDisk(m) || id !in ResolvedOnDisk(m) then Some(Waiting)
                else match ResolvedOnDisk(m)[id]
                     case SaidYes => Some(Granted)
                     case SaidNo => Some(Refused)
                     case SaidOther(_) => Some(Waiting))
  {
    RestartReads(H, m);
  }

  lemma {:induction false} RejectKeepsLines(H: Hash, l: Ledger, id: nat, nowMs: I64, io: Faults)
    requires Sound(H, l) && l.disk.Some? && !l.degraded && id < |l.mem.chain.entries|
    ensures Reject(H, l, id, nowMs, io).0.disk.Some? && id < DiskLines(Reject(H, l, id, nowMs, io).0)
  {
    RejectAnswers(H, l, id, nowMs, io);
  }

  /** Once a question waits about a decision not on record, one approval and one more
      crash make a later, refused decision read as approved: the stronger claim, that
      a refusal is safe as soon as its question has left the queue, does not hold of
      the code. */
  lemma {:induction false} RefusalLostToCrashes(H: Hash, l: Ledger, id: nat, input: ActionInput, who: string,
                             nowMs: I64, d: Decision, k: nat)
    returns (filed: Ledger, asked: Ledger, refused: Ledger)
    requires Haunted(H, l, id) && !Blank(who) && MatchesOperator(l.operator, who)
    requires Decides(Approve(H, l, id, who, nowMs, ALL_LAND).0, input, nowMs, d, k)
    requires d.verdict == RequireApproval
    ensures filed == Approve(H, l, id, who, nowMs, ALL_LAND).0
    ensures asked == EvaluateAndRecord(H, filed, input, nowMs, ALL_LAND).0
    ensures DecisionStatus(asked.mem, id) == Some(Waiting)
    ensures refused == Restart(H, Reject(H, asked, id, nowMs, ANSWER_LOST).0)
    ensures DecisionStatus(refused.mem, id) == Some(Granted)
  {
    filed := Approve(H, l, id, who, nowMs, ALL_LAND).0;
    ApprovingANonDecision(H, l, id, who, nowMs);
    ApproveIsSound(H, l, id, who, nowMs, ALL_LAND);
    asked := EvaluateAndRecord(H, filed, input, nowMs, ALL_LAND).0;
    NextDecisionInherits(H, filed, input, nowMs, d, k);
    EvaluateIsSound(H, filed, input, nowMs, ALL_LAND);
    refused := Restart(H, Reject(H, asked, id, nowMs, ANSWER_LOST).0);
    RejectionLosesToFile(H, asked, id, nowMs);
  }
}
