/** How answers move: a decision's status only goes forward, a refusal is final,
    an approval is only ever reported after a human's call on that very decision,
    a charge is refunded once, and a degraded ledger appends nothing. */
module LedgerAnswers {
  import opened Basics
  import opened Audit
  import opened Policy
  import opened Store
  import opened Files
  import opened Ledger
  import opened LedgerSound
  import opened LedgerSteps
  import opened LedgerBudget
  import opened LedgerRuns

  // ---- what a step can do to questions, answers and charges --------------

  /** The lines of the tenant's log on disk. */
  function DiskLines(l: Ledger): nat {
    if l.disk.Some? then |l.disk.value.log.Lines()| else 0
  }

  function PendingOnDisk(l: Ledger): map<nat, PendingApproval> {
    if l.disk.Some? then l.disk.value.pending else map[]
  }

  function ResolvedOnDisk(l: Ledger): map<nat, Answer> {
    if l.disk.Some? then l.disk.value.resolved else map[]
  }

  function ChargesOnDisk(l: Ledger): map<nat, Charge> {
    if l.disk.Some? then l.disk.value.charges else map[]
  }

  /** The chain and the log only grow. */
  predicate Grows(l: Ledger, m: Ledger) {
    && l.mem.chain.entries <= m.mem.chain.entries && DiskLines(l) <= DiskLines(m)
    && m.disk.Some? == l.disk.Some?
  }

  predicate SameRecord(l: Ledger, m: Ledger) {
    && m.mem.chain == l.mem.chain && DiskLines(m) == DiskLines(l)
    && m.disk.Some? == l.disk.Some?
  }

  /** Nothing that was added to the record is an escalation. */
  predicate NothingEscalated(l: Ledger, m: Ledger) {
    forall i :: |l.mem.chain.entries| <= i < |m.mem.chain.entries| ==>
      m.mem.chain.entries[i].record.verdict != RequireApproval
  }

  /** A step that is not about answering anything. */
  predicate Quiet(l: Ledger, m: Ledger) {
    && Grows(l, m) && NothingEscalated(l, m)
    && m.mem.pending == l.mem.pending && m.mem.resolved == l.mem.resolved
    && m.mem.charges == l.mem.charges
    && PendingOnDisk(m) == PendingOnDisk(l) && ResolvedOnDisk(m) == ResolvedOnDisk(l)
    && ChargesOnDisk(m) == ChargesOnDisk(l)
  }

  /** What the effects of decision `id` may do to questions, answers and charges. */
  predicate AsksAt(l: Ledger, m: Ledger, id: nat) {
    && m.mem.pending - {id} == l.mem.pending - {id}
    && m.mem.charges - {id} == l.mem.charges - {id}
    && m.mem.resolved == l.mem.resolved
    && (PendingOnDisk(m) == PendingOnDisk(l) || PendingOnDisk(m) == m.mem.pending)
    && ResolvedOnDisk(m) == ResolvedOnDisk(l)
    && ChargesOnDisk(m) in {ChargesOnDisk(l), m.mem.charges}
  }

  /** An evaluation: the new decision may be charged and may wait. */
  predicate Asks(l: Ledger, m: Ledger) {
    Grows(l, m) && AsksAt(l, m, |l.mem.chain.entries|)
  }

  /** An answer to one decision; its charge may be taken off the books. */
  predicate Answers(l: Ledger, m: Ledger, id: nat, a: Answer) {
    && Grows(l, m) && NothingEscalated(l, m)
    && m.mem.pending == l.mem.pending - {id}
    && m.mem.resolved in {l.mem.resolved, l.mem.resolved[id := a]}
    && m.mem.charges in {l.mem.charges, l.mem.charges - {id}}
    && PendingOnDisk(m) in {PendingOnDisk(l), m.mem.pending}
    && ResolvedOnDisk(m) in {ResolvedOnDisk(l), m.mem.resolved}
    && ChargesOnDisk(m) in {ChargesOnDisk(l), m.mem.charges}
  }

  lemma {:induction false} SaveEntryIsQuiet(l: Ledger, e: Entry, outcome: LogOutcome)
    ensures Quiet(l, SaveEntry(l, e, outcome).0)
  {
  }

  lemma {:induction false} CommitIsQuiet(H: Hash, l: Ledger, r: DecisionRecord, reason: Reason, outcome: LogOutcome)
    requires r.verdict != RequireApproval
    ensures Quiet(l, Commit(H, l, r, reason, outcome).0)
  {
    var c := Append(H, l.mem.chain, r);
    if c.Some? {
      var m := l.(mem := l.mem.(chain := c.value));
      assert Quiet(l, m);
      SaveEntryIsQuiet(m, c.value.entries[|l.mem.chain.entries|], outcome);
      assert Commit(H, l, r, reason, outcome).0
             == SaveEntry(m, c.value.entries[|l.mem.chain.entries|], outcome).0;
    }
  }

  lemma {:induction false} PrincipalIsQuiet(H: Hash, l: Ledger, who: string, class_: string, detail: string,
                         nowMs: I64, outcome: LogOutcome)
    ensures Quiet(l, RecordPrincipal(H, l, who, class_, detail, nowMs, outcome).0)
  {
    CommitIsQuiet(H, l, DecisionRecord(who, Some(who), None, class_, NoHash(), Verdict.Approved,
                                       HicLevel.ApproveEach, "", detail, nowMs), RC302(class_, who), outcome);
  }

  lemma {:induction false} DelegatedIsQuiet(H: Hash, l: Ledger, agent: string, who: string, authority: string, class_: string,
                         detail: string, nowMs: I64, outcome: LogOutcome)
    ensures Quiet(l, RecordDelegated(H, l, agent, who, authority, class_, detail, nowMs, outcome).0)
  {
    CommitIsQuiet(H, l, DecisionRecord(agent, Some(who), Some(authority), class_, NoHash(), Verdict.Approved,
                                       HicLevel.Budgeted, "", detail, nowMs), RC303(class_, agent, who), outcome);
  }

  predicate IsQuietStep(s: Step) {
    || s.IssueStep? || s.RevokeStep? || s.AllowStep? || s.VoteStep? || s.DisallowStep?
    || s.PrincipalStep? || s.OperatorStep? || s.ElsewhereFails?
  }

  lemma {:induction false} IssueIsQuiet(H: Hash, l: Ledger, input: GrantInput, nowMs: I64, io: Faults)
    ensures Quiet(l, IssueGrant(H, l, input, nowMs, io).0)
  {
    var c := ClassificationFromStr(input.ceiling);
    if c.Some? && !HasGrant(l.mem.grants, input.id) {
      var gs := GrantsOf(l.mem, input.agent) + [NewGrant(input, c.value)];
      var m := SaveGrants(l.(mem := l.mem.(grants := l.mem.grants[input.agent := gs])), io.grants).0;
      PrincipalIsQuiet(H, m, input.issuedBy, "grant.issue", input.id + ARROW + input.agent, nowMs, io.log);
    }
  }

  lemma {:induction false} RevokeIsQuiet(H: Hash, l: Ledger, agent: string, id: string, actor: string, nowMs: I64, io: Faults)
    ensures Quiet(l, RevokeGrant(H, l, agent, id, actor, nowMs, io).0)
  {
    var gs := RevokeAll(GrantsOf(l.mem, agent), id);
    var m := SaveGrants(l.(mem := l.mem.(grants := l.mem.grants[agent := gs])), io.grants).0;
    PrincipalIsQuiet(H, m, actor, "grant.revoke", id + ARROW + agent, nowMs, io.log);
  }

  lemma {:induction false} AllowIsQuiet(H: Hash, l: Ledger, input: AllowanceInput, nowMs: I64, io: Faults)
    ensures Quiet(l, IssueAllowance(H, l, input, nowMs, io).0)
  {
    var allowances := l.mem.allowances[input.id := NewAllowance(input)];
    var m := SaveAllowances(l.(mem := l.mem.(allowances := allowances)), io.allowances).0;
    PrincipalIsQuiet(H, m, input.principal, "allowance.issue",
                     input.id + ARROW + input.agent + " (cap " + Decimal(input.weightCap) + ")", nowMs, io.log);
  }

  lemma {:induction false} VoteIsQuiet(H: Hash, l: Ledger, id: string, class_: string, weight: U64, nowMs: I64, io: Faults)
    ensures Quiet(l, CastVote(H, l, id, class_, weight, nowMs, io).0)
  {
    if id in l.mem.allowances && l.mem.allowances[id].Cast(class_, weight, nowMs).Ok? {
      var a := l.mem.allowances[id].Cast(class_, weight, nowMs).value;
      var m := SaveAllowances(l.(mem := l.mem.(allowances := l.mem.allowances[id := a])), io.allowances).0;
      DelegatedIsQuiet(H, m, a.agent, a.principal, id, "vote.cast",
                       id + DOT + class_ + DOT + "weight " + Decimal(weight) + DOT + Proof(a), nowMs, io.log);
    }
  }

  lemma {:induction false} DisallowIsQuiet(H: Hash, l: Ledger, id: string, nowMs: I64, io: Faults)
    ensures Quiet(l, RevokeAllowance(H, l, id, nowMs, io).0)
  {
    if id in l.mem.allowances {
      var a := l.mem.allowances[id].Revoke();
      var m := SaveAllowances(l.(mem := l.mem.(allowances := l.mem.allowances[id := a])), io.allowances).0;
      PrincipalIsQuiet(H, m, a.principal, "allowance.revoke", id, nowMs, io.log);
    }
  }

  lemma {:induction false} QuietSteps(H: Hash, l: Ledger, s: Step)
    requires IsQuietStep(s)
    ensures Quiet(l, Apply(H, l, s).0)
  {
    match s {
      case IssueStep(g, now, io) => IssueIsQuiet(H, l, g, now, io);
      case RevokeStep(a, id, who, now, io) => RevokeIsQuiet(H, l, a, id, who, now, io);
      case AllowStep(a, now, io) => AllowIsQuiet(H, l, a, now, io);
      case VoteStep(id, c, w, now, io) => VoteIsQuiet(H, l, id, c, w, now, io);
      case DisallowStep(id, now, io) => DisallowIsQuiet(H, l, id, now, io);
      case PrincipalStep(who, c, detail, now, io) => PrincipalIsQuiet(H, l, who, c, detail, now, io.log);
      case OperatorStep(name, lands) =>
      case ElsewhereFails =>
    }
  }

  lemma {:induction false} EffectsAsk(l: Ledger, input: ActionInput, d: Decision, k: nat, id: nat, nowMs: I64, io: Faults)
    requires MemKept(l.mem) && PaidBy(l, input, d, k)
    ensures var m := Effects(l, input, d, id, nowMs, io).0;
            SameRecord(l, m) && AsksAt(l, m, id)
  {
    ChargeAsks(l, input, d, k, id, io);
    QueueAsks(ChargePhase(l, input.agent, d.grantId, id, ChargeFor(input.cost), io).0,
              input, d.verdict, id, nowMs, io);
  }

  lemma {:induction false} SettleAsks(l: Ledger, input: ActionInput, d: Decision, k: nat, nowMs: I64, io: Faults)
    requires MemKept(l.mem) && PaidBy(l, input, d, k) && l.mem.chain.entries != []
    ensures var m := Settle(l, input, d, nowMs, io).0;
            Grows(l, m) && AsksAt(l, m, |l.mem.chain.entries| - 1)
  {
    var id := |l.mem.chain.entries| - 1;
    EffectsAsk(l, input, d, k, id, nowMs, io);
    var (m, e) := Effects(l, input, d, id, nowMs, io);
    FinishAsks(m, e, l.mem.chain.entries[id], d, id, io.log);
  }

  lemma {:induction false} EvaluateAsks(H: Hash, l: Ledger, input: ActionInput, nowMs: I64, io: Faults)
    requires MemKept(l.mem)
    ensures Asks(l, EvaluateAndRecord(H, l, input, nowMs, io).0)
  {
    var c := ClassificationFromStr(input.classification);
    if !l.degraded && c.Some? {
      var k := DecisionNamesPayingGrant(l, input, c.value, nowMs);
      EvaluateAppends(H, l, input, c.value, nowMs);
      var d := Decide(l, input, c.value, nowMs);
      var r := ActionRecord(input, d, Accountable(l, input.agent, d.grantId), nowMs);
      var m := l.(mem := l.mem.(chain := Append(H, l.mem.chain, r).value));
      SettleAsks(m, input, d, k, nowMs, io);
    }
  }

  lemma {:induction false} ChargeAsks(l: Ledger, input: ActionInput, d: Decision, k: nat, id: nat, io: Faults)
    requires MemKept(l.mem) && PaidBy(l, input, d, k)
    ensures var m := ChargePhase(l, input.agent, d.grantId, id, ChargeFor(input.cost), io).0;
            && SameRecord(l, m)
            && m.mem.pending == l.mem.pending && m.mem.resolved == l.mem.resolved
            && m.mem.charges - {id} == l.mem.charges - {id}
            && PendingOnDisk(m) == PendingOnDisk(l) && ResolvedOnDisk(m) == ResolvedOnDisk(l)
            && ChargesOnDisk(m) in {ChargesOnDisk(l), m.mem.charges}
  {
    if d.grantId.Some? {
      ChargePhaseMem(l, input.agent, k, id, ChargeFor(input.cost), io);
    }
  }

  lemma {:induction false} QueueAsks(l: Ledger, input: ActionInput, verdict: Verdict, id: nat, nowMs: I64, io: Faults)
    ensures var m := PendingPhase(l, input, verdict, id, nowMs, io).0;
            && SameRecord(l, m)
            && m.mem.pending - {id} == l.mem.pending - {id}
            && m.mem.resolved == l.mem.resolved && m.mem.charges == l.mem.charges
            && (PendingOnDisk(m) == PendingOnDisk(l) || PendingOnDisk(m) == m.mem.pending)
            && ResolvedOnDisk(m) == ResolvedOnDisk(l) && ChargesOnDisk(m) == ChargesOnDisk(l)
  {
  }

  lemma {:induction false} FinishAsks(l: Ledger, e: Option<Error>, entry: Entry, d: Decision, id: nat, outcome: LogOutcome)
    ensures Quiet(l, Finish(l, e, entry, d, id, outcome).0)
  {
  }

  lemma {:induction false} DequeueAnswers(l: Ledger, id: nat, a: Answer, lands: bool)
    ensures var m := Dequeue(l, id, lands).0;
            && m.mem == l.mem.(pending := l.mem.pending - {id})
            && SameRecord(l, m)
            && PendingOnDisk(m) in {PendingOnDisk(l), m.mem.pending}
            && ResolvedOnDisk(m) == ResolvedOnDisk(l) && ChargesOnDisk(m) == ChargesOnDisk(l)
  {
    if id !in l.mem.pending {
      assert l.mem.pending - {id} == l.mem.pending;
    }
  }

  lemma {:induction false} FileAnswers(l: Ledger, id: nat, a: Answer, lands: bool)
    ensures var m := FileAnswer(l, id, a, lands).0;
            && m.mem == l.mem.(resolved := l.mem.resolved[id := a])
            && SameRecord(l, m)
            && PendingOnDisk(m) == PendingOnDisk(l) && ChargesOnDisk(m) == ChargesOnDisk(l)
            && ResolvedOnDisk(m) in {ResolvedOnDisk(l), m.mem.resolved}
  {
  }

  lemma {:induction false} AnswerPhaseAnswers(l: Ledger, id: nat, a: Answer, io: Faults)
    ensures var m := AnswerPhase(l, id, a, io).0;
            Answers(l, m, id, a) && SameRecord(l, m)
            && m.mem.charges == l.mem.charges && ChargesOnDisk(m) == ChargesOnDisk(l)
  {
    var (m, ok) := Dequeue(l, id, io.pending);
    DequeueAnswers(l, id, a, io.pending);
    FileAnswers(m, id, a, io.resolved);
  }

  lemma {:induction false} SaveBudgetAnswers(l: Ledger, io: Faults)
    ensures var m := SaveBudget(l, io).0;
            && m.mem == l.mem && SameRecord(l, m)
            && PendingOnDisk(m) == PendingOnDisk(l) && ResolvedOnDisk(m) == ResolvedOnDisk(l)
            && ChargesOnDisk(m) in {ChargesOnDisk(l), l.mem.charges}
  {
  }

  lemma {:induction false} RefundAnswers(l: Ledger, id: nat, io: Faults)
    ensures var m := RefundPhase(l, id, io).0;
            && SameRecord(l, m)
            && m.mem.pending == l.mem.pending && m.mem.resolved == l.mem.resolved
            && m.mem.charges == l.mem.charges - {id}
            && PendingOnDisk(m) == PendingOnDisk(l) && ResolvedOnDisk(m) == ResolvedOnDisk(l)
            && ChargesOnDisk(m) in {ChargesOnDisk(l), m.mem.charges}
  {
    RefundPhaseMem(l, id, io);
    if id !in l.mem.charges {
      assert l.mem.charges - {id} == l.mem.charges;
    } else {
      var m := Unspend(l.(mem := l.mem.(charges := l.mem.charges - {id})), l.mem.charges[id]);
      SaveBudgetAnswers(m, io);
    }
  }

  lemma {:induction false} AnsweredThenQuiet(l: Ledger, m: Ledger, n: Ledger, id: nat, a: Answer)
    requires Answers(l, m, id, a) && Quiet(m, n) && m.mem.chain == l.mem.chain
    ensures Answers(l, n, id, a)
  {
  }

  lemma {:induction false} AnsweredThenRefunded(l: Ledger, m: Ledger, id: nat, io: Faults)
    requires Answers(l, m, id, SaidNo) && m.mem.charges == l.mem.charges && ChargesOnDisk(m) == ChargesOnDisk(l)
    ensures Answers(l, RefundPhase(m, id, io).0, id, SaidNo)
    ensures RefundPhase(m, id, io).0.mem.chain == m.mem.chain
  {
    RefundAnswers(m, id, io);
  }

  lemma {:induction false} RejectAnswers(H: Hash, l: Ledger, id: nat, nowMs: I64, io: Faults)
    ensures var m := Reject(H, l, id, nowMs, io).0;
            Quiet(l, m) || Answers(l, m, id, SaidNo)
  {
    if !l.degraded && id < |l.mem.chain.entries| {
      var (l1, e1) := AnswerPhase(l, id, SaidNo, io);
      AnswerPhaseAnswers(l, id, SaidNo, io);
      if e1.None? {
        var (l2, e2) := RefundPhase(l1, id, io);
        AnsweredThenRefunded(l, l1, id, io);
        if e2.None? {
          var r := l.mem.chain.entries[id].record.(verdict := Rejected, hic := HicLevel.ApproveEach,
                                                   timestampMs := nowMs);
          CommitIsQuiet(H, l2, r, RC300, io.log);
          AnsweredThenQuiet(l, l2, Commit(H, l2, r, RC300, io.log).0, id, SaidNo);
        }
      }
    }
  }

  lemma {:induction false} ApproveAnswers(H: Hash, l: Ledger, id: nat, who: string, nowMs: I64, io: Faults)
    ensures var m := Approve(H, l, id, who, nowMs, io).0;
            Quiet(l, m) || (!Blank(who) && MatchesOperator(l.operator, who) && id in l.mem.pending
                            && Answers(l, m, id, SaidYes))
  {
    if !l.degraded && !Blank(who) && MatchesOperator(l.operator, who) && id in l.mem.pending {
      var (l1, e1) := AnswerPhase(l, id, SaidYes, io);
      AnswerPhaseAnswers(l, id, SaidYes, io);
      if e1.None? && id < |l.mem.chain.entries| {
        CommitIsQuiet(H, l1, l.mem.chain.entries[id].record.(
                               principal := Some(who), verdict := Verdict.Approved,
                               hic := HicLevel.ApproveEach, timestampMs := nowMs),
                      RC301(who, l.mem.pending[id].agent), io.log);
      }
    }
  }

  /** The files replace memory; unless a write has failed that changes nothing. */
  predicate Reloaded(l: Ledger, m: Ledger) {
    && m.disk == l.disk
    && (l.degraded ==>
          || m.mem == l.mem
          || (l.disk.Some? && |m.mem.chain.entries| == DiskLines(l)
              && m.mem.pending == PendingOnDisk(l) && m.mem.resolved == ResolvedOnDisk(l)
              && m.mem.charges == ChargesOnDisk(l)))
    && (!l.degraded ==> m.mem == l.mem)
  }

  predicate IsApprovalOf(s: Step, operator: Option<string>, id: nat) {
    s.ApproveStep? && s.id == id && !Blank(s.approver) && MatchesOperator(operator, s.approver)
  }

  /** All a step can do to questions, answers, charges and the record. */
  predicate Effect(l: Ledger, s: Step, m: Ledger) {
    || Quiet(l, m)
    || Asks(l, m)
    || (s.RejectStep? && Answers(l, m, s.id, SaidNo))
    || (s.ApproveStep? && IsApprovalOf(s, l.operator, s.id) && s.id in l.mem.pending
        && Answers(l, m, s.id, SaidYes))
    || (IsReload(s) && Reloaded(l, m))
  }

  lemma {:induction false} ReloadEffect(H: Hash, l: Ledger, lands: bool)
    requires Sound(H, l)
    ensures Reloaded(l, SetActive(H, l, lands).0) && Reloaded(l, Restart(H, l))
  {
    if l.disk.Some? {
      FilesLoad(H, l);
      if !l.degraded {
        CleanRestartIsIdentity(H, l);
      }
    }
  }

  lemma {:induction false} StepEffect(H: Hash, l: Ledger, s: Step)
    requires Sound(H, l)
    ensures Effect(l, s, Apply(H, l, s).0)
  {
    if IsQuietStep(s) {
      QuietSteps(H, l, s);
    } else {
      match s {
        case ActStep(input, now, io) => EvaluateAsks(H, l, input, now, io);
        case RejectStep(id, now, io) => RejectAnswers(H, l, id, now, io);
        case ApproveStep(id, who, now, io) => ApproveAnswers(H, l, id, who, now, io);
        case ReloadStep(lands) => ReloadEffect(H, l, lands);
        case RestartStep => ReloadEffect(H, l, true);
      }
    }
  }

  // ---- status goes forward ----------------------------------------------

  /** pending, then approved, then rejected. */
  function Rank(s: Option<Status>): nat {
    match s
    case Some(Granted) => 1
    case Some(Refused) => 2
    case _ => 0
  }

  function StatusRank(l: Ledger, id: nat): nat {
    Rank(DecisionStatus(l.mem, id))
  }

  /** One step never takes a status back, failed writes included, as long as the
      files are not read back after a failed write. */
  lemma {:induction false} StatusGoesForward(l: Ledger, s: Step, m: Ledger, id: nat)
    requires OnRecord(l.mem) && Effect(l, s, m) && id < |l.mem.chain.entries|
    requires IsReload(s) ==> !l.degraded
    ensures id < |m.mem.chain.entries| && StatusRank(l, id) <= StatusRank(m, id)
  {
    if Asks(l, m) {
      assert id in m.mem.pending <==> id in m.mem.pending - {|l.mem.chain.entries|};
      assert id in l.mem.pending <==> id in l.mem.pending - {|l.mem.chain.entries|};
    }
  }

  /** Over any run without a lossy reload, a decision's status only moves from
      pending to approved to rejected. */
  lemma {:induction false} StatusIsOneWay(H: Hash, l: Ledger, steps: seq<Step>, id: nat)
    requires Sound(H, l) && Clean(l.mem) && CleanReloads(H, l, steps)
    requires id < |l.mem.chain.entries|
    ensures var m := Run(H, l, steps);
            id < |m.mem.chain.entries| && StatusRank(l, id) <= StatusRank(m, id)
  {
    if steps != [] {
      var n := |steps| - 1;
      var before := steps[..n];
      StatusIsOneWay(H, l, before, id);
      RunIsSound(H, l, before);
      RunIsClean(H, l, before);
      StepEffect(H, Run(H, l, before), steps[n]);
      StatusGoesForward(Run(H, l, before), steps[n], Run(H, l, steps), id);
    }
  }

  // ---- one refund -------------------------------------------------------

  /** A decision on record, in memory and on disk, that owes its grant nothing back, on
      either book. */
  predicate Settled(l: Ledger, id: nat) {
    && id < |l.mem.chain.entries| && id !in l.mem.charges
    && (l.disk.Some? ==> id < DiskLines(l) && id !in ChargesOnDisk(l))
  }

  /** It never gets a charge again, whatever fails and whenever files are read back. */
  lemma {:induction false} NoNewCharge(l: Ledger, s: Step, m: Ledger, id: nat)
    requires Effect(l, s, m) && Settled(l, id)
    ensures Settled(m, id)
  {
    if Asks(l, m) {
      assert id in m.mem.charges <==> id in m.mem.charges - {|l.mem.chain.entries|};
      assert id in l.mem.charges <==> id in l.mem.charges - {|l.mem.chain.entries|};
    }
  }

  lemma {:induction false} ChargeStaysGone(H: Hash, l: Ledger, steps: seq<Step>, id: nat)
    requires Sound(H, l) && Settled(l, id)
    ensures Settled(Run(H, l, steps), id)
  {
    if steps != [] {
      var n := |steps| - 1;
      var before := steps[..n];
      ChargeStaysGone(H, l, before, id);
      RunIsSound(H, l, before);
      StepEffect(H, Run(H, l, before), steps[n]);
      NoNewCharge(Run(H, l, before), steps[n], Run(H, l, steps), id);
    }
  }

  lemma {:induction false} CommitMem(H: Hash, l: Ledger, r: DecisionRecord, reason: Reason, outcome: LogOutcome)
    ensures var m := Commit(H, l, r, reason, outcome).0; m.mem == l.mem.(chain := m.mem.chain)
  {
  }

  /** The refund a rejection of `id` makes to this slice's grants. */
  function RefundedGrants(s: Slice, id: nat): map<string, seq<CapabilityGrant>> {
    if id in s.charges then Refunded(s, id).grants else s.grants
  }

  lemma {:induction false} RefundedGrantsIgnoreAnswers(s: Slice, t: Slice, id: nat)
    requires AnswerOnly(s, t)
    ensures RefundedGrants(s, id) == RefundedGrants(t, id)
  {
  }

  lemma {:induction false} RefundPhaseRefunds(l: Ledger, id: nat, io: Faults)
    ensures RefundPhase(l, id, io).0.mem.grants == RefundedGrants(l.mem, id)
  {
    RefundPhaseMem(l, id, io);
  }

  /** What a rejection does to the grants: it gives back this decision's charge, or
      nothing when there is none. */
  lemma {:induction false} RejectRefunds(H: Hash, l: Ledger, id: nat, nowMs: I64, io: Faults)
    requires Reject(H, l, id, nowMs, io).1.Ok?
    ensures var m := Reject(H, l, id, nowMs, io).0;
            && id < |l.mem.chain.entries| && id !in m.mem.charges
            && m.mem.grants == RefundedGrants(l.mem, id)
  {
    var l1 := AnswerPhase(l, id, SaidNo, io).0;
    AnswerPhaseMem(l, id, SaidNo, io);
    RefundedGrantsIgnoreAnswers(l.mem, l1.mem, id);
    var l2 := RefundPhase(l1, id, io).0;
    RefundPhaseRefunds(l1, id, io);
    RefundAnswers(l1, id, io);
    CommitMem(H, l2, l.mem.chain.entries[id].record.(verdict := Rejected, hic := HicLevel.ApproveEach,
                                                    timestampMs := nowMs), RC300, io.log);
  }

  lemma {:induction false} SettledIsNotRefunded(H: Hash, l: Ledger, id: nat, nowMs: I64, io: Faults)
    requires id !in l.mem.charges
    ensures Reject(H, l, id, nowMs, io).0.mem.grants == l.mem.grants
  {
    var l1 := AnswerPhase(l, id, SaidNo, io).0;
    AnswerPhaseMem(l, id, SaidNo, io);
    RefundPhaseMem(l1, id, io);
  }

  lemma {:induction false} RejectSettles(H: Hash, l: Ledger, id: nat, nowMs: I64, io: Faults)
    requires Sound(H, l) && Reject(H, l, id, nowMs, io).1.Ok?
    ensures Settled(Reject(H, l, id, nowMs, io).0, id)
  {
    RejectRefunds(H, l, id, nowMs, io);
    RejectAnswers(H, l, id, nowMs, io);
    RejectFiles(H, l, id, nowMs, io);
    RejectIsSound(H, l, id, nowMs, io);
  }

  /** Over every later run, crashes and lossy reloads included, a decision is refunded at
      most once: once a rejection of it has succeeded, every later one leaves all grants
      as they are. */
  lemma {:induction false} RefundedOnce(H: Hash, l: Ledger, id: nat, now0: I64, io0: Faults, steps: seq<Step>, nowMs: I64, io: Faults)
    requires Sound(H, l) && Reject(H, l, id, now0, io0).1.Ok?
    ensures var m := Run(H, Reject(H, l, id, now0, io0).0, steps);
            Reject(H, m, id, nowMs, io).0.mem.grants == m.mem.grants
  {
    RejectSettles(H, l, id, now0, io0);
    RejectIsSound(H, l, id, now0, io0);
    ChargeStaysGone(H, Reject(H, l, id, now0, io0).0, steps, id);
    SettledIsNotRefunded(H, Run(H, Reject(H, l, id, now0, io0).0, steps), id, nowMs, io);
  }

  // ---- an approval needs a call -----------------------------------------

  /** The decision is on file as approved, in memory or on disk. */
  predicate ApprovedSomewhere(l: Ledger, id: nat) {
    || (id in l.mem.resolved && l.mem.resolved[id] == SaidYes)
    || (id in ResolvedOnDisk(l) && ResolvedOnDisk(l)[id] == SaidYes)
  }

  lemma {:induction false} ApprovalNeedsCall(l: Ledger, s: Step, m: Ledger, id: nat)
    requires Effect(l, s, m) && ApprovedSomewhere(m, id)
    ensures ApprovedSomewhere(l, id) || IsApprovalOf(s, l.operator, id)
  {
  }

  /** Whatever fails or crashes along the way, a decision reported approved was
      approved by a call on that very decision, by a named human who matched the
      operator of the moment, if one was set. */
  lemma {:induction false} ApprovedOnlyByCall(H: Hash, l: Ledger, steps: seq<Step>, id: nat) returns (k: nat)
    requires Sound(H, l) && !ApprovedSomewhere(l, id)
    requires ApprovedSomewhere(Run(H, l, steps), id)
    ensures k < |steps|
    ensures IsApprovalOf(steps[k], Run(H, l, steps[..k]).operator, id)
  {
    var n := |steps| - 1;
    var before := Run(H, l, steps[..n]);
    RunIsSound(H, l, steps[..n]);
    StepEffect(H, before, steps[n]);
    ApprovalNeedsCall(before, steps[n], Run(H, l, steps), id);
    if ApprovedSomewhere(before, id) {
      k := ApprovedOnlyByCall(H, l, steps[..n], id);
      assert steps[..n][..k] == steps[..k];
    } else {
      k := n;
    }
  }

  // ---- a refusal is final -----------------------------------------------

  /** The decision is refused, in memory and on disk, and nothing is waiting on it. */
  predicate FinallyRefused(l: Ledger, id: nat) {
    && id < |l.mem.chain.entries| && id !in l.mem.pending
    && id in l.mem.resolved && l.mem.resolved[id] == SaidNo
    && (l.disk.Some? ==>
          && id < DiskLines(l) && id !in PendingOnDisk(l)
          && id in ResolvedOnDisk(l) && ResolvedOnDisk(l)[id] == SaidNo)
  }

  lemma {:induction false} RefusalStays(l: Ledger, s: Step, m: Ledger, id: nat)
    requires Effect(l, s, m) && FinallyRefused(l, id)
    ensures FinallyRefused(m, id)
  {
    if Asks(l, m) {
      assert id in m.mem.pending <==> id in m.mem.pending - {|l.mem.chain.entries|};
      assert id in l.mem.pending <==> id in l.mem.pending - {|l.mem.chain.entries|};
    }
  }

  lemma {:induction false} RejectFiles(H: Hash, l: Ledger, id: nat, nowMs: I64, io: Faults)
    requires Reject(H, l, id, nowMs, io).1.Ok?
    ensures var m := Reject(H, l, id, nowMs, io).0;
            && !m.degraded && id < |l.mem.chain.entries|
            && m.mem.pending == l.mem.pending - {id}
            && m.mem.resolved == l.mem.resolved[id := SaidNo]
  {
    var (l1, e1) := AnswerPhase(l, id, SaidNo, io);
    DequeueAnswers(l, id, SaidNo, io.pending);
    FileAnswers(Dequeue(l, id, io.pending).0, id, SaidNo, io.resolved);
    PhaseStillRunning(l, id, SaidNo, io);
    RefundAnswers(l1, id, io);
    RefundStillRunning(l1, id, io);
  }

  /** A rejection that succeeds makes the refusal final. */
  lemma {:induction false} RejectIsFinal(H: Hash, l: Ledger, id: nat, nowMs: I64, io: Faults)
    requires Sound(H, l) && Reject(H, l, id, nowMs, io).1.Ok?
    ensures FinallyRefused(Reject(H, l, id, nowMs, io).0, id)
  {
    RejectIsSound(H, l, id, nowMs, io);
    RejectFiles(H, l, id, nowMs, io);
    RejectAnswers(H, l, id, nowMs, io);
    FiledIsFinal(H, Reject(H, l, id, nowMs, io).0, id);
  }

  lemma {:induction false} FiledIsFinal(H: Hash, m: Ledger, id: nat)
    requires Sound(H, m) && !m.degraded
    requires id < |m.mem.chain.entries| && id !in m.mem.pending
    requires id in m.mem.resolved && m.mem.resolved[id] == SaidNo
    ensures FinallyRefused(m, id)
  {
  }

  lemma {:induction false} StepKeepsRefusal(H: Hash, l: Ledger, s: Step, id: nat)
    requires Sound(H, l) && FinallyRefused(l, id)
    ensures FinallyRefused(Apply(H, l, s).0, id)
  {
    StepEffect(H, l, s);
    RefusalStays(l, s, Apply(H, l, s).0, id);
  }

  lemma {:induction false} RefusedForEver(H: Hash, l: Ledger, steps: seq<Step>, id: nat)
    requires Sound(H, l) && FinallyRefused(l, id)
    ensures FinallyRefused(Run(H, l, steps), id)
  {
    if steps != [] {
      var n := |steps| - 1;
      RefusedForEver(H, l, steps[..n], id);
      RunIsSound(H, l, steps[..n]);
      StepKeepsRefusal(H, Run(H, l, steps[..n]), steps[n], id);
    }
  }

  /** Whatever fails or crashes later, a decision whose rejection succeeded is
      reported refused for ever after. */
  lemma {:induction false} RefusalIsFinal(H: Hash, l: Ledger, id: nat, nowMs: I64, io: Faults, steps: seq<Step>)
    requires Sound(H, l) && Reject(H, l, id, nowMs, io).1.Ok?
    ensures var m := Run(H, Reject(H, l, id, nowMs, io).0, steps);
            FinallyRefused(m, id) && DecisionStatus(m.mem, id) == Some(Refused)
  {
    RejectIsFinal(H, l, id, nowMs, io);
    RejectIsSound(H, l, id, nowMs, io);
    RefusedForEver(H, Reject(H, l, id, nowMs, io).0, steps, id);
  }

  // ---- degraded ---------------------------------------------------------

  /** Nothing recorded is added to or lost from memory, and nothing reaches the log. */
  predicate Stalled(l: Ledger, m: Ledger) {
    m.degraded && m.mem.chain == l.mem.chain && DiskLines(m) == DiskLines(l)
  }

  lemma {:induction false} DegradedPrincipal(H: Hash, l: Ledger, who: string, class_: string, detail: string,
                          nowMs: I64, outcome: LogOutcome)
    requires l.degraded
    ensures RecordPrincipal(H, l, who, class_, detail, nowMs, outcome).0 == l
  {
  }

  lemma {:induction false} DegradedIssue(H: Hash, l: Ledger, input: GrantInput, nowMs: I64, io: Faults)
    requires l.degraded
    ensures Stalled(l, IssueGrant(H, l, input, nowMs, io).0)
  {
    var c := ClassificationFromStr(input.ceiling);
    if c.Some? && !HasGrant(l.mem.grants, input.id) {
      var gs := GrantsOf(l.mem, input.agent) + [NewGrant(input, c.value)];
      var m := SaveGrants(l.(mem := l.mem.(grants := l.mem.grants[input.agent := gs])), io.grants).0;
      DegradedPrincipal(H, m, input.issuedBy, "grant.issue", input.id + ARROW + input.agent, nowMs, io.log);
    }
  }

  lemma {:induction false} DegradedRevoke(H: Hash, l: Ledger, agent: string, id: string, actor: string, nowMs: I64, io: Faults)
    requires l.degraded
    ensures Stalled(l, RevokeGrant(H, l, agent, id, actor, nowMs, io).0)
  {
  }

  lemma {:induction false} DegradedAllow(H: Hash, l: Ledger, input: AllowanceInput, nowMs: I64, io: Faults)
    requires l.degraded
    ensures Stalled(l, IssueAllowance(H, l, input, nowMs, io).0)
  {
  }

  lemma {:induction false} DegradedVote(H: Hash, l: Ledger, id: string, class_: string, weight: U64, nowMs: I64, io: Faults)
    requires l.degraded
    ensures Stalled(l, CastVote(H, l, id, class_, weight, nowMs, io).0)
  {
  }

  lemma {:induction false} DegradedDisallow(H: Hash, l: Ledger, id: string, nowMs: I64, io: Faults)
    requires l.degraded
    ensures Stalled(l, RevokeAllowance(H, l, id, nowMs, io).0)
  {
  }

  /** After a failed write no step but a restart appends anything, in memory or on
      disk, and none clears the mark. */
  lemma {:induction false} DegradedAppendsNothing(H: Hash, l: Ledger, s: Step)
    requires Sound(H, l) && l.degraded && !s.RestartStep?
    ensures var m := Apply(H, l, s).0;
            m.degraded && m.mem.chain.entries <= l.mem.chain.entries && DiskLines(m) == DiskLines(l)
  {
    match s {
      case ActStep(input, now, io) =>
      case RejectStep(id, now, io) =>
      case ApproveStep(id, who, now, io) =>
      case IssueStep(g, now, io) => DegradedIssue(H, l, g, now, io);
      case RevokeStep(a, id, who, now, io) => DegradedRevoke(H, l, a, id, who, now, io);
      case AllowStep(a, now, io) => DegradedAllow(H, l, a, now, io);
      case VoteStep(id, c, w, now, io) => DegradedVote(H, l, id, c, w, now, io);
      case DisallowStep(id, now, io) => DegradedDisallow(H, l, id, now, io);
      case PrincipalStep(who, c, detail, now, io) =>
      case OperatorStep(name, lands) =>
      case ReloadStep(lands) => if l.disk.Some? { FilesLoad(H, l); }
      case ElsewhereFails =>
    }
  }
}
