/** Who may act, over whole runs: every approval on file is an operator's, an operator once
    set is never unset, and a revoked allowance casts nothing until it is issued again. */
module LedgerStanding {
  import opened Basics
  import opened Audit
  import opened Policy
  import opened Store
  import opened Files
  import opened Ledger
  import opened LedgerSound
  import opened LedgerSteps
  import opened LedgerBudget
  import opened LedgerRuns
  import opened LedgerAnswers
  import opened LedgerRecords
  import opened LedgerCalls

  // ---- what a step does to settings and allowances -----------------------

  predicate SameSettings(l: Ledger, m: Ledger) {
    && m.operator == l.operator && m.egress == l.egress && m.disk.Some? == l.disk.Some?
    && (l.disk.Some? ==> m.disk.value.operator == l.disk.value.operator && m.disk.value.egress == l.disk.value.egress)
  }

  predicate SameAllowances(l: Ledger, m: Ledger) {
    && m.mem.allowances == l.mem.allowances
    && (l.disk.Some? && m.disk.Some? ==> m.disk.value.allowances == l.disk.value.allowances)
  }

  predicate Aside(l: Ledger, m: Ledger) {
    SameSettings(l, m) && SameAllowances(l, m)
  }

  lemma {:induction false} CommitAside(H: Hash, l: Ledger, r: DecisionRecord, reason: Reason, outcome: LogOutcome)
    ensures Aside(l, Commit(H, l, r, reason, outcome).0)
  {
    var c := Append(H, l.mem.chain, r);
    if c.Some? {
      var m := l.(mem := l.mem.(chain := c.value));
      var e := c.value.entries[|l.mem.chain.entries|];
      SavedEntryAside(m, e, outcome);
      assert Commit(H, l, r, reason, outcome).0 == SaveEntry(m, e, outcome).0;
    }
  }

  lemma {:induction false} SavedEntryAside(l: Ledger, e: Entry, outcome: LogOutcome)
    ensures Aside(l, SaveEntry(l, e, outcome).0)
  {
  }

  lemma {:induction false} PrincipalAside(H: Hash, l: Ledger, who: string, class_: string, detail: string, nowMs: I64,
                                          outcome: LogOutcome)
    ensures Aside(l, RecordPrincipal(H, l, who, class_, detail, nowMs, outcome).0)
  {
    CommitAside(H, l, DecisionRecord(who, Some(who), None, class_, NoHash(), Verdict.Approved,
                                     HicLevel.ApproveEach, "", detail, nowMs), RC302(class_, who), outcome);
  }

  lemma {:induction false} DelegatedAside(H: Hash, l: Ledger, agent: string, who: string, authority: string, class_: string,
                                          detail: string, nowMs: I64, outcome: LogOutcome)
    ensures Aside(l, RecordDelegated(H, l, agent, who, authority, class_, detail, nowMs, outcome).0)
  {
    CommitAside(H, l, DecisionRecord(agent, Some(who), Some(authority), class_, NoHash(), Verdict.Approved,
                                     HicLevel.Budgeted, "", detail, nowMs), RC303(class_, agent, who), outcome);
  }

  lemma {:induction false} SaveBudgetAside(l: Ledger, io: Faults)
    ensures Aside(l, SaveBudget(l, io).0)
  {
  }

  lemma {:induction false} ChargeAside(l: Ledger, agent: string, k: nat, id: nat, units: U64, io: Faults)
    requires MemKept(l.mem) && k < |GrantsOf(l.mem, agent)| && units <= GrantsOf(l.mem, agent)[k].Remaining()
    ensures Aside(l, ChargePhase(l, agent, Some(GrantsOf(l.mem, agent)[k].id), id, units, io).0)
  {
    var g := GrantsOf(l.mem, agent)[k];
    SpendKeeps(l, agent, k, units);
    var l1 := Spend(l, agent, g.id, units).value;
    SpentAside(l, l1);
    SaveBudgetAside(l1.(mem := l1.mem.(charges := l1.mem.charges[id := Charge(id, agent, g.id, units)])), io);
  }

  lemma {:induction false} SpentAside(l: Ledger, m: Ledger)
    requires m == l.(mem := l.mem.(grants := m.mem.grants))
    ensures Aside(l, m)
  {
  }

  lemma {:induction false} QueueAside(l: Ledger, input: ActionInput, verdict: Verdict, id: nat, nowMs: I64, io: Faults)
    ensures Aside(l, PendingPhase(l, input, verdict, id, nowMs, io).0)
  {
  }

  lemma {:induction false} EffectsAside(l: Ledger, input: ActionInput, d: Decision, k: nat, id: nat, nowMs: I64, io: Faults)
    requires MemKept(l.mem) && PaidBy(l, input, d, k)
    ensures Aside(l, Effects(l, input, d, id, nowMs, io).0)
  {
    if d.grantId.Some? {
      ChargeAside(l, input.agent, k, id, ChargeFor(input.cost), io);
    }
    QueueAside(ChargePhase(l, input.agent, d.grantId, id, ChargeFor(input.cost), io).0, input, d.verdict, id, nowMs, io);
  }

  lemma {:induction false} SettleAside(l: Ledger, input: ActionInput, d: Decision, k: nat, nowMs: I64, io: Faults)
    requires MemKept(l.mem) && PaidBy(l, input, d, k) && l.mem.chain.entries != []
    ensures Aside(l, Settle(l, input, d, nowMs, io).0)
  {
    var id := |l.mem.chain.entries| - 1;
    EffectsAside(l, input, d, k, id, nowMs, io);
    SavedEntryAside(Effects(l, input, d, id, nowMs, io).0, l.mem.chain.entries[id], io.log);
  }

  lemma {:induction false} EvaluateAside(H: Hash, l: Ledger, input: ActionInput, nowMs: I64, io: Faults)
    requires MemKept(l.mem)
    ensures Aside(l, EvaluateAndRecord(H, l, input, nowMs, io).0)
  {
    var c := ClassificationFromStr(input.classification);
    if !l.degraded && c.Some? {
      var k := DecisionNamesPayingGrant(l, input, c.value, nowMs);
      EvaluateAppends(H, l, input, c.value, nowMs);
      var d := Decide(l, input, c.value, nowMs);
      var r := ActionRecord(input, d, Accountable(l, input.agent, d.grantId), nowMs);
      SettleAside(l.(mem := l.mem.(chain := Append(H, l.mem.chain, r).value)), input, d, k, nowMs, io);
    }
  }

  lemma {:induction false} AnswerAside(l: Ledger, id: nat, a: Answer, io: Faults)
    ensures Aside(l, AnswerPhase(l, id, a, io).0)
  {
    DequeueAside(l, id, io.pending);
    FileAside(Dequeue(l, id, io.pending).0, id, a, io.resolved);
  }

  lemma {:induction false} DequeueAside(l: Ledger, id: nat, lands: bool)
    ensures Aside(l, Dequeue(l, id, lands).0)
  {
  }

  lemma {:induction false} FileAside(l: Ledger, id: nat, a: Answer, lands: bool)
    ensures Aside(l, FileAnswer(l, id, a, lands).0)
  {
  }

  lemma {:induction false} RefundAside(l: Ledger, id: nat, io: Faults)
    ensures Aside(l, RefundPhase(l, id, io).0)
  {
    if id in l.mem.charges {
      SaveBudgetAside(Unspend(l.(mem := l.mem.(charges := l.mem.charges - {id})), l.mem.charges[id]), io);
    }
  }

  lemma {:induction false} RejectAside(H: Hash, l: Ledger, id: nat, nowMs: I64, io: Faults)
    ensures Aside(l, Reject(H, l, id, nowMs, io).0)
  {
    if !l.degraded && id < |l.mem.chain.entries| {
      var (l1, e1) := AnswerPhase(l, id, SaidNo, io);
      AnswerAside(l, id, SaidNo, io);
      if e1.None? {
        RefundAside(l1, id, io);
        CommitAside(H, RefundPhase(l1, id, io).0,
                    l.mem.chain.entries[id].record.(verdict := Rejected, hic := HicLevel.ApproveEach,
                                                    timestampMs := nowMs), RC300, io.log);
      }
    }
  }

  lemma {:induction false} ApproveAside(H: Hash, l: Ledger, id: nat, who: string, nowMs: I64, io: Faults)
    ensures Aside(l, Approve(H, l, id, who, nowMs, io).0)
  {
    if !l.degraded && id in l.mem.pending {
      var (l1, e1) := AnswerPhase(l, id, SaidYes, io);
      AnswerAside(l, id, SaidYes, io);
      if e1.None? && id < |l.mem.chain.entries| {
        CommitAside(H, l1, l.mem.chain.entries[id].record.(principal := Some(who), verdict := Verdict.Approved,
                                                           hic := HicLevel.ApproveEach, timestampMs := nowMs),
                    RC301(who, l.mem.pending[id].agent), io.log);
      }
    }
  }

  lemma {:induction false} SavedGrantsAside(l: Ledger, agent: string, gs: seq<CapabilityGrant>, lands: bool)
    ensures Aside(l, SaveGrants(l.(mem := l.mem.(grants := l.mem.grants[agent := gs])), lands).0)
  {
  }

  lemma {:induction false} IssueAside(H: Hash, l: Ledger, g: GrantInput, nowMs: I64, io: Faults)
    ensures Aside(l, IssueGrant(H, l, g, nowMs, io).0)
  {
    var c := ClassificationFromStr(g.ceiling);
    if c.Some? {
      var gs := GrantsOf(l.mem, g.agent) + [NewGrant(g, c.value)];
      SavedGrantsAside(l, g.agent, gs, io.grants);
      PrincipalAside(H, SaveGrants(l.(mem := l.mem.(grants := l.mem.grants[g.agent := gs])), io.grants).0, g.issuedBy,
                     "grant.issue", g.id + ARROW + g.agent, nowMs, io.log);
    }
  }

  lemma {:induction false} RevokeAside(H: Hash, l: Ledger, agent: string, id: string, who: string, nowMs: I64, io: Faults)
    ensures Aside(l, RevokeGrant(H, l, agent, id, who, nowMs, io).0)
  {
    var gs := RevokeAll(GrantsOf(l.mem, agent), id);
    SavedGrantsAside(l, agent, gs, io.grants);
    PrincipalAside(H, SaveGrants(l.(mem := l.mem.(grants := l.mem.grants[agent := gs])), io.grants).0, who,
                   "grant.revoke", id + ARROW + agent, nowMs, io.log);
  }

  predicate AboutAllowances(s: Step) {
    s.AllowStep? || s.VoteStep? || s.DisallowStep?
  }

  lemma {:induction false} OtherStepsAside(H: Hash, l: Ledger, s: Step)
    requires MemKept(l.mem) && !AboutAllowances(s) && !IsReload(s) && !s.OperatorStep?
    ensures Aside(l, Apply(H, l, s).0)
  {
    match s {
      case ActStep(input, now, io) => EvaluateAside(H, l, input, now, io);
      case RejectStep(id, now, io) => RejectAside(H, l, id, now, io);
      case ApproveStep(id, who, now, io) => ApproveAside(H, l, id, who, now, io);
      case PrincipalStep(who, c, detail, now, io) => PrincipalAside(H, l, who, c, detail, now, io.log);
      case ElsewhereFails =>
      case IssueStep(g, now, io) => IssueAside(H, l, g, now, io);
      case RevokeStep(a, id, who, now, io) => RevokeAside(H, l, a, id, who, now, io);
    }
  }

  /** The one entry of the allowances that a step rewrote, in memory, and on disk if the
      write landed. */
  predicate Rewrites(l: Ledger, m: Ledger, id: string, a: VoteAllowance) {
    && SameSettings(l, m) && m.mem.allowances == l.mem.allowances[id := a]
    && (l.disk.Some? ==> m.disk.value.allowances in {l.disk.value.allowances, m.mem.allowances})
  }

  lemma {:induction false} RewrittenAside(l: Ledger, id: string, a: VoteAllowance, lands: bool, n: Ledger)
    requires Aside(SaveAllowances(l.(mem := l.mem.(allowances := l.mem.allowances[id := a])), lands).0, n)
    ensures Rewrites(l, n, id, a)
  {
  }

  lemma {:induction false} AllowRewrites(H: Hash, l: Ledger, input: AllowanceInput, nowMs: I64, io: Faults)
    ensures var m := IssueAllowance(H, l, input, nowMs, io).0; m == l || Rewrites(l, m, input.id, NewAllowance(input))
  {
    var l1 := SaveAllowances(l.(mem := l.mem.(allowances := l.mem.allowances[input.id := NewAllowance(input)])),
                             io.allowances).0;
    PrincipalAside(H, l1, input.principal, "allowance.issue",
                   input.id + ARROW + input.agent + " (cap " + Decimal(input.weightCap) + ")", nowMs, io.log);
    if !Blank(input.principal) {
      RewrittenAside(l, input.id, NewAllowance(input), io.allowances, IssueAllowance(H, l, input, nowMs, io).0);
    }
  }

  lemma {:induction false} VoteRewrites(H: Hash, l: Ledger, id: string, class_: string, weight: U64, nowMs: I64, io: Faults)
    ensures var m := CastVote(H, l, id, class_, weight, nowMs, io).0;
            || m == l
            || (id in l.mem.allowances
                && Rewrites(l, m, id, l.mem.allowances[id].(spent := l.mem.allowances[id].spent + weight)))
  {
    if id in l.mem.allowances && l.mem.allowances[id].Cast(class_, weight, nowMs).Ok? {
      var a := l.mem.allowances[id].Cast(class_, weight, nowMs).value;
      var l1 := SaveAllowances(l.(mem := l.mem.(allowances := l.mem.allowances[id := a])), io.allowances).0;
      DelegatedAside(H, l1, a.agent, a.principal, id, "vote.cast",
                     id + DOT + class_ + DOT + "weight " + Decimal(weight) + DOT + Proof(a), nowMs, io.log);
      RewrittenAside(l, id, a, io.allowances, CastVote(H, l, id, class_, weight, nowMs, io).0);
    }
  }

  lemma {:induction false} DisallowRewrites(H: Hash, l: Ledger, id: string, nowMs: I64, io: Faults)
    ensures var m := RevokeAllowance(H, l, id, nowMs, io).0;
            m == l || (id in l.mem.allowances && Rewrites(l, m, id, l.mem.allowances[id].(revoked := true)))
  {
    if id in l.mem.allowances {
      var a := l.mem.allowances[id].Revoke();
      var l1 := SaveAllowances(l.(mem := l.mem.(allowances := l.mem.allowances[id := a])), io.allowances).0;
      PrincipalAside(H, l1, a.principal, "allowance.revoke", id, nowMs, io.log);
      RewrittenAside(l, id, a, io.allowances, RevokeAllowance(H, l, id, nowMs, io).0);
    }
  }

  // ---- a revoked allowance ----------------------------------------------

  /** The allowance is revoked, in memory and on disk. */
  predicate Barred(l: Ledger, id: string) {
    && id in l.mem.allowances && l.mem.allowances[id].revoked
    && (l.disk.Some? ==> id in l.disk.value.allowances && l.disk.value.allowances[id].revoked)
  }

  predicate IssuesIt(s: Step, id: string) {
    s.AllowStep? && s.allowance.id == id
  }

  lemma {:induction false} RewritingKeepsBarred(l: Ledger, m: Ledger, other: string, a: VoteAllowance, id: string)
    requires Barred(l, id) && Rewrites(l, m, other, a) && (other == id ==> a.revoked)
    ensures Barred(m, id)
  {
  }

  lemma {:induction false} AllowanceStepKeepsBarred(H: Hash, l: Ledger, s: Step, id: string)
    requires Barred(l, id) && AboutAllowances(s) && !IssuesIt(s, id)
    ensures Barred(Apply(H, l, s).0, id)
  {
    var m := Apply(H, l, s).0;
    if m != l {
      match s {
        case AllowStep(a, now, io) =>
          AllowRewrites(H, l, a, now, io);
          RewritingKeepsBarred(l, m, a.id, NewAllowance(a), id);
        case VoteStep(other, c, w, now, io) =>
          VoteRewrites(H, l, other, c, w, now, io);
          RewritingKeepsBarred(l, m, other, l.mem.allowances[other].(spent := l.mem.allowances[other].spent + w), id);
        case DisallowStep(other, now, io) =>
          DisallowRewrites(H, l, other, now, io);
          RewritingKeepsBarred(l, m, other, l.mem.allowances[other].(revoked := true), id);
      }
    }
  }

  lemma {:induction false} StepKeepsBarred(H: Hash, l: Ledger, s: Step, id: string)
    requires Sound(H, l) && Barred(l, id) && !IssuesIt(s, id)
    ensures Barred(Apply(H, l, s).0, id)
  {
    if AboutAllowances(s) {
      AllowanceStepKeepsBarred(H, l, s, id);
    } else if IsReload(s) {
      if l.disk.Some? { FilesLoad(H, l); }
    } else if !s.OperatorStep? {
      OtherStepsAside(H, l, s);
    }
  }

  predicate NeverIssues(steps: seq<Step>, id: string) {
    forall i :: 0 <= i < |steps| ==> !IssuesIt(steps[i], id)
  }

  lemma {:induction false} BarredForLong(H: Hash, l: Ledger, steps: seq<Step>, id: string)
    requires Sound(H, l) && Barred(l, id) && NeverIssues(steps, id)
    ensures Barred(Run(H, l, steps), id)
  {
    if steps != [] {
      var before, last := steps[..|steps| - 1], steps[|steps| - 1];
      BarredForLong(H, l, before, id);
      RunIsSound(H, l, before);
      assert !IssuesIt(last, id);
      StepKeepsBarred(H, Run(H, l, before), last, id);
    }
  }

  lemma {:induction false} DisallowBars(H: Hash, l: Ledger, id: string, nowMs: I64, io: Faults)
    requires Sound(H, l) && RevokeAllowance(H, l, id, nowMs, io).1 == Ok(true)
    ensures Barred(RevokeAllowance(H, l, id, nowMs, io).0, id)
  {
    DisallowOnFields(H, l, id, nowMs, io);
    RevokeAllowanceIsSound(H, l, id, nowMs, io);
  }

  /** Once a revocation of an allowance has been reported, every later cast under its id,
      through any failures, reloads and crashes, is refused and changes nothing, until an
      allowance of that id is issued again. */
  lemma {:induction false} RevokedCastsNothing(H: Hash, l: Ledger, id: string, now0: I64, io0: Faults, steps: seq<Step>,
                                               class_: string, weight: U64, nowMs: I64, io: Faults)
    requires Sound(H, l) && RevokeAllowance(H, l, id, now0, io0).1 == Ok(true) && NeverIssues(steps, id)
    ensures var m := Run(H, RevokeAllowance(H, l, id, now0, io0).0, steps);
            CastVote(H, m, id, class_, weight, nowMs, io) == (m, Err(CastRefused(AllowanceInactive)))
  {
    var l1 := RevokeAllowance(H, l, id, now0, io0).0;
    DisallowBars(H, l, id, now0, io0);
    RevokeAllowanceIsSound(H, l, id, now0, io0);
    BarredForLong(H, l1, steps, id);
    RunIsSound(H, l1, steps);
    CastOnFields(H, Run(H, l1, steps), id, class_, weight, nowMs, io);
  }

  // ---- the operator -----------------------------------------------------

  /** The name is the one a call of the run set, or one the start already had. */
  predicate Appointed(l: Ledger, steps: seq<Step>, name: string) {
    || l.operator == Some(name) || (l.disk.Some? && l.disk.value.operator == Some(name))
    || exists i | 0 <= i < |steps| :: Appoints(steps[i], name)
  }

  predicate Appoints(s: Step, name: string) {
    s.OperatorStep? && Trim(s.name) == name && name != ""
  }

  /** The operators in memory and on disk are appointed ones. */
  predicate InOffice(l: Ledger, steps: seq<Step>, m: Ledger) {
    && (m.operator.Some? ==> Appointed(l, steps, m.operator.value))
    && (m.disk.Some? && m.disk.value.operator.Some? ==> Appointed(l, steps, m.disk.value.operator.value))
  }

  /** An operator is set, in memory and on disk. */
  predicate HasOperator(l: Ledger) {
    l.operator.Some? && (l.disk.Some? ==> l.disk.value.operator.Some?)
  }

  lemma {:induction false} StillAppointed(l: Ledger, steps: seq<Step>, s: Step, name: string)
    requires Appointed(l, steps, name)
    ensures Appointed(l, steps + [s], name)
  {
    if i :| 0 <= i < |steps| && Appoints(steps[i], name) {
      assert Appoints((steps + [s])[i], name);
    }
  }

  lemma {:induction false} AllowanceSettings(H: Hash, l: Ledger, s: Step)
    requires AboutAllowances(s)
    ensures SameSettings(l, Apply(H, l, s).0)
  {
    match s {
      case AllowStep(a, now, io) => AllowRewrites(H, l, a, now, io);
      case VoteStep(id, c, w, now, io) => VoteRewrites(H, l, id, c, w, now, io);
      case DisallowStep(id, now, io) => DisallowRewrites(H, l, id, now, io);
    }
  }

  lemma {:induction false} StepSettings(H: Hash, l: Ledger, s: Step)
    requires Sound(H, l) && !s.OperatorStep? && !s.RestartStep?
    ensures SameSettings(l, Apply(H, l, s).0)
  {
    if AboutAllowances(s) {
      AllowanceSettings(H, l, s);
    } else if !s.ReloadStep? {
      OtherStepsAside(H, l, s);
    }
  }

  lemma {:induction false} StepKeepsOffice(H: Hash, l: Ledger, b: Ledger, steps: seq<Step>, s: Step)
    requires Sound(H, b) && InOffice(l, steps, b)
    ensures InOffice(l, steps + [s], Apply(H, b, s).0)
    ensures HasOperator(b) ==> HasOperator(Apply(H, b, s).0)
  {
    var m := Apply(H, b, s).0;
    if b.operator.Some? { StillAppointed(l, steps, s, b.operator.value); }
    if b.disk.Some? && b.disk.value.operator.Some? { StillAppointed(l, steps, s, b.disk.value.operator.value); }
    if s.OperatorStep? {
      OperatorOnFields(b, s.name, s.lands);
      assert Trim(s.name) != "" ==> Appoints((steps + [s])[|steps|], Trim(s.name));
    } else if s.RestartStep? {
      if b.disk.Some? { RestartOnFields(H, b); }
    } else {
      StepSettings(H, b, s);
    }
  }

  /** Over every run the operator in force is one some call appointed, or one the start
      had; and once one is set, in memory and on disk, there always is one. */
  lemma {:induction false} OperatorsAreAppointed(H: Hash, l: Ledger, steps: seq<Step>)
    requires Sound(H, l)
    ensures InOffice(l, steps, Run(H, l, steps))
    ensures HasOperator(l) ==> HasOperator(Run(H, l, steps))
  {
    if steps != [] {
      var before, last := steps[..|steps| - 1], steps[|steps| - 1];
      OperatorsAreAppointed(H, l, before);
      RunIsSound(H, l, before);
      StepKeepsOffice(H, l, Run(H, l, before), before, last);
      assert before + [last] == steps;
    }
  }

  /** Whatever fails or crashes, an approval on file was given by a person with a name, who
      is, where an operator was set at that moment, that operator, letter for letter but
      for the space around the name; and that operator is one some call appointed before,
      or one the start had. */
  lemma {:induction false} ApprovedByTheOperator(H: Hash, l: Ledger, steps: seq<Step>, id: nat) returns (k: nat)
    requires Sound(H, l) && !ApprovedSomewhere(l, id)
    requires ApprovedSomewhere(Run(H, l, steps), id)
    ensures k < |steps| && steps[k].ApproveStep? && steps[k].id == id && Trim(steps[k].approver) != ""
    ensures var operator := Run(H, l, steps[..k]).operator;
            operator.Some? ==> Trim(steps[k].approver) == Trim(operator.value) && Appointed(l, steps[..k], operator.value)
    ensures HasOperator(l) ==> Run(H, l, steps[..k]).operator.Some?
  {
    k := ApprovedOnlyByCall(H, l, steps, id);
    OperatorsAreAppointed(H, l, steps[..k]);
  }
}
