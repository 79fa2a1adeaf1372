/** The two budget files over whole runs: exactly when every grant balances with its
    charges at every point, whatever fails and wherever the files are read back. */
module LedgerBooks {
  import opened Basics
  import opened Audit
  import opened Policy
  import opened Store
  import opened Files
  import opened Ledger
  import opened LedgerSound
  import opened LedgerSteps
  import opened LedgerBudget
  import opened LedgerRuns
  import opened LedgerAnswers
  import opened LedgerRecords
  import opened LedgerRevocation
  import opened LedgerCrash

  // ---- how the files stand to memory ------------------------------------

  /** What this process charged or gave back is in both files, the last of it is in
      neither, or it is in the grants file alone. */
  datatype Books = Even | Owed | Torn

  /** The action is governed, and let in. */
  predicate TakesCharge(l: Ledger, s: Step) {
    && s.ActStep? && !l.degraded
    && var c := ClassificationFromStr(s.input.classification);
       c.Some? && Decide(l, s.input, c.value, s.nowMs).grantId.Some?
  }

  /** The rejection gets as far as a charge to give back. */
  predicate GivesBack(l: Ledger, s: Step) {
    && s.RejectStep? && !l.degraded && s.id < |l.mem.chain.entries|
    && (l.disk.None? || AnswerLands(l, s.id, s.io)) && s.id in l.mem.charges
  }

  predicate MovesBudget(l: Ledger, s: Step) {
    TakesCharge(l, s) || GivesBack(l, s)
  }

  /** An issue or a revocation whose grants write lands; neither asks whether the backend
      is degraded. */
  predicate WritesGrants(l: Ledger, s: Step) {
    match s
    case IssueStep(g, _, io) => ClassificationFromStr(g.ceiling).Some? && !HasGrant(l.mem.grants, g.id) && io.grants
    case RevokeStep(agent, id, actor, _, io) =>
      !Blank(actor) && FindGrant(GrantsOf(l.mem, agent), id).Some? && io.grants
    case _ => false
  }

  function BooksStep(l: Ledger, s: Step, b: Books): Books {
    if l.disk.None? || IsReload(s) then Even
    else if MovesBudget(l, s) then
      if !s.io.grants then Owed else if !s.io.charges then Torn else Even
    else if b == Owed && WritesGrants(l, s) then Torn
    else b
  }

  function BooksAfter(H: Hash, l: Ledger, b: Books, steps: seq<Step>): Books {
    if steps == [] then b
    else
      var n := |steps| - 1;
      BooksStep(Run(H, l, steps[..n]), steps[n], BooksAfter(H, l, b, steps[..n]))
  }

  // ---- the invariant ----------------------------------------------------

  /** The slice as the budget files have it. */
  function OnDisk(l: Ledger): Slice {
    l.mem.(grants := GrantsOnDisk(l), charges := ChargesOnDisk(l))
  }

  /** Memory's grants beside the charges file. */
  function Mixed(l: Ledger): Slice {
    l.mem.(charges := ChargesOnDisk(l))
  }

  ghost predicate Agree(l: Ledger, b: Books) {
    match b
    case Even => ChargesOnDisk(l) == l.mem.charges && Balanced(OnDisk(l))
    case Owed => Balanced(OnDisk(l)) && !Conserved(Mixed(l))
    case Torn => !Conserved(OnDisk(l)) && !Conserved(Mixed(l))
  }

  ghost predicate InBooks(H: Hash, l: Ledger, b: Books) {
    && Sound(H, l) && Balanced(l.mem)
    && (if l.disk.Some? then Agree(l, b) else b == Even)
  }

  lemma {:induction false} BalancedDependsOnBudget(s: Slice, t: Slice)
    requires s.grants == t.grants && s.charges == t.charges
    ensures Conserved(s) == Conserved(t) && Named(s) == Named(t)
  {
    ConservedDependsOnBudget(s, t);
  }

  lemma {:induction false} RunningIsInBooks(H: Hash, l: Ledger)
    requires Sound(H, l) && Balanced(l.mem) && !l.degraded
    ensures InBooks(H, l, Even)
  {
    if l.disk.Some? {
      BalancedDependsOnBudget(l.mem, OnDisk(l));
    }
  }

  // ---- steps that move no budget ----------------------------------------

  predicate Spent(g: Grants, a: string, i: int, id: string, consumed: int) {
    IsGrant(g, a, i) && g[a][i].id == id && g[a][i].consumed == consumed
  }

  /** Every grant is still there, under its id, with what it has consumed. */
  ghost predicate SameSpending(g: Grants, h: Grants) {
    forall a, i :: IsGrant(g, a, i) ==> Spent(h, a, i, g[a][i].id, g[a][i].consumed)
  }

  lemma {:induction false} StaysOff(s: Slice, t: Slice)
    requires SameSpending(s.grants, t.grants) && s.charges == t.charges && !Conserved(s)
    ensures !Conserved(t)
  {
    var a: string, i: int :| IsGrant(s.grants, a, i)
                             && s.grants[a][i].consumed != Outstanding(s.charges, a, s.grants[a][i].id);
    assert Spent(t.grants, a, i, s.grants[a][i].id, s.grants[a][i].consumed);
    assert IsGrant(t.grants, a, i);
  }

  /** What such a step does to the two files and to memory. */
  ghost predicate LeavesBudget(l: Ledger, m: Ledger, written: bool) {
    && m.disk.Some? == l.disk.Some?
    && m.mem.charges == l.mem.charges && ChargesOnDisk(m) == ChargesOnDisk(l)
    && SameSpending(l.mem.grants, m.mem.grants)
    && (l.disk.Some? ==> GrantsOnDisk(m) == if written then m.mem.grants else GrantsOnDisk(l))
    && Balanced(m.mem)
  }

  /** Grants in memory and on disk are what they were. */
  predicate SameBudget(l: Ledger, m: Ledger) {
    && m.disk.Some? == l.disk.Some?
    && m.mem.grants == l.mem.grants && m.mem.charges == l.mem.charges
    && GrantsOnDisk(m) == GrantsOnDisk(l) && ChargesOnDisk(m) == ChargesOnDisk(l)
  }

  lemma {:induction false} SameLeaves(l: Ledger, m: Ledger)
    requires SameBudget(l, m) && Balanced(l.mem)
    ensures LeavesBudget(l, m, false)
  {
    BalancedDependsOnBudget(l.mem, m.mem);
  }

  lemma {:induction false} SavingSameBudget(l: Ledger, e: Entry, outcome: LogOutcome)
    ensures SameBudget(l, SaveEntry(l, e, outcome).0)
  {
  }

  lemma {:induction false} CommitSameBudget(H: Hash, l: Ledger, r: DecisionRecord, reason: Reason, outcome: LogOutcome)
    ensures SameBudget(l, Commit(H, l, r, reason, outcome).0)
  {
    var c := Append(H, l.mem.chain, r);
    if c.Some? {
      var m := l.(mem := l.mem.(chain := c.value));
      var e := c.value.entries[|l.mem.chain.entries|];
      SavingSameBudget(m, e, outcome);
      assert Commit(H, l, r, reason, outcome).0 == SaveEntry(m, e, outcome).0;
    }
  }

  lemma {:induction false} PrincipalSameBudget(H: Hash, l: Ledger, who: string, class_: string, detail: string,
                                               nowMs: I64, outcome: LogOutcome)
    ensures SameBudget(l, RecordPrincipal(H, l, who, class_, detail, nowMs, outcome).0)
  {
    CommitSameBudget(H, l, DecisionRecord(who, Some(who), None, class_, NoHash(), Verdict.Approved,
                                          HicLevel.ApproveEach, "", detail, nowMs), RC302(class_, who), outcome);
  }

  lemma {:induction false} IssuingSpendsNothing(g: Grants, agent: string, x: CapabilityGrant)
    ensures SameSpending(g, g[agent := (if agent in g then g[agent] else []) + [x]])
  {
  }

  lemma {:induction false} RevokingSpendsNothing(g: Grants, agent: string, id: string)
    requires agent in g
    ensures SameSpending(g, g[agent := RevokeAll(g[agent], id)])
  {
  }

  lemma {:induction false} SavedGrantsLeave(l: Ledger, grants: Grants, lands: bool, n: Ledger)
    requires SameSpending(l.mem.grants, grants) && Balanced(l.mem.(grants := grants))
    requires l.disk.Some? ==> l.disk.value.grants.Ok?
    requires SameBudget(SaveGrants(l.(mem := l.mem.(grants := grants)), lands).0, n)
    ensures LeavesBudget(l, n, lands)
  {
    BalancedDependsOnBudget(l.mem.(grants := grants), n.mem);
  }

  lemma {:induction false} IssueLeaves(H: Hash, l: Ledger, g: GrantInput, nowMs: I64, io: Faults)
    requires Sound(H, l) && Balanced(l.mem)
    ensures LeavesBudget(l, IssueGrant(H, l, g, nowMs, io).0, WritesGrants(l, IssueStep(g, nowMs, io)))
  {
    var c := ClassificationFromStr(g.ceiling);
    if c.Some? && !HasGrant(l.mem.grants, g.id) {
      var x := NewGrant(g, c.value);
      var grants := l.mem.grants[g.agent := GrantsOf(l.mem, g.agent) + [x]];
      IssueBalances(l.mem, x);
      IssuingSpendsNothing(l.mem.grants, g.agent, x);
      var m := SaveGrants(l.(mem := l.mem.(grants := grants)), io.grants).0;
      PrincipalSameBudget(H, m, g.issuedBy, "grant.issue", g.id + ARROW + g.agent, nowMs, io.log);
      SavedGrantsLeave(l, grants, io.grants, IssueGrant(H, l, g, nowMs, io).0);
    } else {
      SameLeaves(l, l);
    }
  }

  lemma {:induction false} RevokeLeaves(H: Hash, l: Ledger, agent: string, id: string, actor: string, nowMs: I64, io: Faults)
    requires Sound(H, l) && Balanced(l.mem)
    ensures LeavesBudget(l, RevokeGrant(H, l, agent, id, actor, nowMs, io).0,
                         WritesGrants(l, RevokeStep(agent, id, actor, nowMs, io)))
  {
    if !Blank(actor) && FindGrant(GrantsOf(l.mem, agent), id).Some? {
      var grants := l.mem.grants[agent := RevokeAll(GrantsOf(l.mem, agent), id)];
      RevokeBalances(l.mem, agent, id);
      RevokingSpendsNothing(l.mem.grants, agent, id);
      var m := SaveGrants(l.(mem := l.mem.(grants := grants)), io.grants).0;
      PrincipalSameBudget(H, m, actor, "grant.revoke", id + ARROW + agent, nowMs, io.log);
      SavedGrantsLeave(l, grants, io.grants, RevokeGrant(H, l, agent, id, actor, nowMs, io).0);
    } else {
      SameLeaves(l, l);
    }
  }

  lemma {:induction false} QuietlyUntouched(l: Ledger, m: Ledger)
    requires Untouched(l, m) && Quiet(l, m)
    ensures SameBudget(l, m)
  {
  }

  lemma {:induction false} AllowanceStepsSameBudget(H: Hash, l: Ledger, s: Step)
    requires s.AllowStep? || s.VoteStep? || s.DisallowStep?
    ensures SameBudget(l, Apply(H, l, s).0)
  {
    var m := Apply(H, l, s).0;
    match s {
      case AllowStep(a, now, io) => AllowTouchesNoGrant(H, l, a, now, io);
      case VoteStep(id, c, w, now, io) => VoteTouchesNoGrant(H, l, id, c, w, now, io);
      case DisallowStep(id, now, io) => DisallowTouchesNoGrant(H, l, id, now, io);
    }
    QuietSteps(H, l, s);
    QuietlyUntouched(l, m);
  }

  lemma {:induction false} DequeueSameBudget(l: Ledger, id: nat, lands: bool)
    ensures var (m, ok) := Dequeue(l, id, lands);
            SameBudget(l, m) && (ok <==> l.disk.None? || (id in l.mem.pending ==> lands))
  {
  }

  lemma {:induction false} FilingSameBudget(l: Ledger, id: nat, a: Answer, lands: bool)
    ensures var (m, ok) := FileAnswer(l, id, a, lands); SameBudget(l, m) && (ok <==> l.disk.None? || lands)
  {
  }

  lemma {:induction false} AnswerSameBudget(l: Ledger, id: nat, a: Answer, io: Faults)
    ensures SameBudget(l, AnswerPhase(l, id, a, io).0)
    ensures AnswerPhase(l, id, a, io).1.None? <==> l.disk.None? || AnswerLands(l, id, io)
  {
    DequeueSameBudget(l, id, io.pending);
    FilingSameBudget(Dequeue(l, id, io.pending).0, id, a, io.resolved);
  }

  lemma {:induction false} ApproveSameBudget(H: Hash, l: Ledger, id: nat, who: string, nowMs: I64, io: Faults)
    ensures SameBudget(l, Approve(H, l, id, who, nowMs, io).0)
  {
    if !l.degraded && !Blank(who) && MatchesOperator(l.operator, who) && id in l.mem.pending {
      var (l1, e1) := AnswerPhase(l, id, SaidYes, io);
      AnswerSameBudget(l, id, SaidYes, io);
      if e1.None? && id < |l.mem.chain.entries| {
        CommitSameBudget(H, l1, l.mem.chain.entries[id].record.(
                                  principal := Some(who), verdict := Verdict.Approved,
                                  hic := HicLevel.ApproveEach, timestampMs := nowMs),
                         RC301(who, l.mem.pending[id].agent), io.log);
      }
    }
  }

  lemma {:induction false} IdleRejectSameBudget(H: Hash, l: Ledger, id: nat, nowMs: I64, io: Faults)
    requires !GivesBack(l, RejectStep(id, nowMs, io))
    ensures SameBudget(l, Reject(H, l, id, nowMs, io).0)
  {
    if !l.degraded && id < |l.mem.chain.entries| {
      var (l1, e1) := AnswerPhase(l, id, SaidNo, io);
      AnswerSameBudget(l, id, SaidNo, io);
      if e1.None? {
        CommitSameBudget(H, l1, l.mem.chain.entries[id].record.(verdict := Rejected, hic := HicLevel.ApproveEach,
                                                               timestampMs := nowMs), RC300, io.log);
      }
    }
  }

  lemma {:induction false} FreeEffectsSameBudget(l: Ledger, input: ActionInput, d: Decision, id: nat, nowMs: I64, io: Faults)
    requires d.grantId.None?
    ensures SameBudget(l, Effects(l, input, d, id, nowMs, io).0)
  {
  }

  lemma {:induction false} FinishSameBudget(l: Ledger, e: Option<Error>, entry: Entry, d: Decision, id: nat, outcome: LogOutcome)
    ensures SameBudget(l, Finish(l, e, entry, d, id, outcome).0)
  {
  }

  lemma {:induction false} FreeActSameBudget(H: Hash, l: Ledger, input: ActionInput, nowMs: I64, io: Faults)
    requires MemKept(l.mem) && !TakesCharge(l, ActStep(input, nowMs, io))
    ensures SameBudget(l, EvaluateAndRecord(H, l, input, nowMs, io).0)
  {
    var c := ClassificationFromStr(input.classification);
    if !l.degraded && c.Some? {
      EvaluateAppends(H, l, input, c.value, nowMs);
      var d := Decide(l, input, c.value, nowMs);
      var r := ActionRecord(input, d, Accountable(l, input.agent, d.grantId), nowMs);
      var n := l.(mem := l.mem.(chain := Append(H, l.mem.chain, r).value));
      var id := |l.mem.chain.entries|;
      FreeEffectsSameBudget(n, input, d, id, nowMs, io);
      var (m, e) := Effects(n, input, d, id, nowMs, io);
      FinishSameBudget(m, e, n.mem.chain.entries[id], d, id, io.log);
    }
  }

  lemma {:induction false} OtherStepsSameBudget(H: Hash, l: Ledger, s: Step)
    requires MemKept(l.mem) && !IsReload(s) && !MovesBudget(l, s) && !s.IssueStep? && !s.RevokeStep?
    ensures SameBudget(l, Apply(H, l, s).0)
  {
    match s {
      case ActStep(input, now, io) => FreeActSameBudget(H, l, input, now, io);
      case RejectStep(id, now, io) => IdleRejectSameBudget(H, l, id, now, io);
      case ApproveStep(id, who, now, io) => ApproveSameBudget(H, l, id, who, now, io);
      case PrincipalStep(who, c, detail, now, io) => PrincipalSameBudget(H, l, who, c, detail, now, io.log);
      case OperatorStep(name, lands) =>
      case ElsewhereFails =>
      case _ => AllowanceStepsSameBudget(H, l, s);
    }
  }

  lemma {:induction false} IdleStepLeaves(H: Hash, l: Ledger, s: Step)
    requires Sound(H, l) && Balanced(l.mem) && !IsReload(s) && !MovesBudget(l, s)
    ensures LeavesBudget(l, Apply(H, l, s).0, WritesGrants(l, s))
  {
    if s.IssueStep? {
      IssueLeaves(H, l, s.grant, s.nowMs, s.io);
    } else if s.RevokeStep? {
      RevokeLeaves(H, l, s.agent, s.grantId, s.actor, s.nowMs, s.io);
    } else {
      OtherStepsSameBudget(H, l, s);
      SameLeaves(l, Apply(H, l, s).0);
    }
  }

  /** Such a step keeps the books as they stand, unless it writes grants over a debt. */
  lemma {:induction false} LeavingKeepsBooks(l: Ledger, m: Ledger, written: bool, b: Books)
    requires Balanced(l.mem) && l.disk.Some? && Agree(l, b) && LeavesBudget(l, m, written)
    ensures Agree(m, if b == Owed && written then Torn else b)
  {
    if b != Even {
      StaysOff(Mixed(l), Mixed(m));
    }
    if written {
      BalancedDependsOnBudget(Mixed(m), OnDisk(m));
      BalancedDependsOnBudget(m.mem, if b == Even then OnDisk(m) else m.mem);
    } else {
      BalancedDependsOnBudget(OnDisk(l), OnDisk(m));
    }
  }

  lemma {:induction false} IdleBooks(l: Ledger, s: Step, b: Books)
    requires !IsReload(s) && !MovesBudget(l, s)
    ensures BooksStep(l, s, b) == if l.disk.None? then Even else if b == Owed && WritesGrants(l, s) then Torn else b
  {
  }

  lemma {:induction false} IdleStepKeepsBooks(H: Hash, l: Ledger, s: Step, b: Books)
    requires InBooks(H, l, b) && !IsReload(s) && !MovesBudget(l, s)
    ensures InBooks(H, Apply(H, l, s).0, BooksStep(l, s, b))
  {
    var m := Apply(H, l, s).0;
    IdleStepLeaves(H, l, s);
    ApplyIsSound(H, l, s);
    IdleBooks(l, s, b);
    if l.disk.Some? {
      LeavingKeepsBooks(l, m, WritesGrants(l, s), b);
    }
  }

  // ---- a charge ---------------------------------------------------------

  lemma {:induction false} EffectsChargeInMemory(l: Ledger, input: ActionInput, d: Decision, k: nat, id: nat, nowMs: I64,
                                                 io: Faults)
    requires MemKept(l.mem) && PaidBy(l, input, d, k) && d.grantId.Some?
    ensures var m := Effects(l, input, d, id, nowMs, io).0;
            var charged := Charged(l.mem, input.agent, k, id, ChargeFor(input.cost));
            m.mem.grants == charged.grants && m.mem.charges == charged.charges && m.disk.Some? == l.disk.Some?
  {
    ChargePhaseMem(l, input.agent, k, id, ChargeFor(input.cost), io);
    EffectsAsk(l, input, d, k, id, nowMs, io);
  }

  lemma {:induction false} SettleChargesInMemory(l: Ledger, input: ActionInput, d: Decision, k: nat, nowMs: I64, io: Faults)
    requires MemKept(l.mem) && PaidBy(l, input, d, k) && d.grantId.Some? && l.mem.chain.entries != []
    ensures var m := Settle(l, input, d, nowMs, io).0;
            var charged := Charged(l.mem, input.agent, k, |l.mem.chain.entries| - 1, ChargeFor(input.cost));
            m.mem.grants == charged.grants && m.mem.charges == charged.charges && m.disk.Some? == l.disk.Some?
  {
    var id := |l.mem.chain.entries| - 1;
    EffectsChargeInMemory(l, input, d, k, id, nowMs, io);
    var (m, e) := Effects(l, input, d, id, nowMs, io);
    FinishSameBudget(m, e, l.mem.chain.entries[id], d, id, io.log);
  }

  /** Memory has taken the charge, whatever became of the writes. */
  lemma {:induction false} EvaluateChargesInMemory(H: Hash, l: Ledger, input: ActionInput, nowMs: I64, d: Decision, k: nat,
                                                   io: Faults)
    requires Sound(H, l) && !l.degraded && Decides(l, input, nowMs, d, k) && d.grantId.Some?
    ensures var m := EvaluateAndRecord(H, l, input, nowMs, io).0;
            var charged := Charged(l.mem, input.agent, k, |l.mem.chain.entries|, ChargeFor(input.cost));
            m.mem.grants == charged.grants && m.mem.charges == charged.charges && m.disk.Some? == l.disk.Some?
  {
    var c := ClassificationFromStr(input.classification).value;
    EvaluateAppends(H, l, input, c, nowMs);
    var r := ActionRecord(input, d, Accountable(l, input.agent, d.grantId), nowMs);
    var n := l.(mem := l.mem.(chain := Append(H, l.mem.chain, r).value));
    SettleChargesInMemory(n, input, d, k, nowMs, io);
    ChargedIgnoresChain(l.mem, n.mem, input.agent, k, |l.mem.chain.entries|, ChargeFor(input.cost));
  }

  /** The files after a move of the budget from one slice to another: the grants file
      first, and the charges file after it. */
  lemma {:induction false} MovedBooks(s: Slice, t: Slice, m: Ledger, io: Faults)
    requires Balanced(s) && Balanced(t) && !Conserved(t.(charges := s.charges))
    requires m.disk.Some? && m.mem.grants == t.grants && m.mem.charges == t.charges
    requires GrantsOnDisk(m) == (if io.grants then t.grants else s.grants)
    requires ChargesOnDisk(m) == (if io.grants && io.charges then t.charges else s.charges)
    ensures Balanced(m.mem)
    ensures Agree(m, if !io.grants then Owed else if !io.charges then Torn else Even)
  {
    BalancedDependsOnBudget(t, m.mem);
    if !io.grants {
      BalancedDependsOnBudget(s, OnDisk(m));
      BalancedDependsOnBudget(t.(charges := s.charges), Mixed(m));
    } else if !io.charges {
      BalancedDependsOnBudget(t.(charges := s.charges), Mixed(m));
      BalancedDependsOnBudget(t.(charges := s.charges), OnDisk(m));
    } else {
      BalancedDependsOnBudget(t, OnDisk(m));
    }
  }

  lemma {:induction false} MovedStep(l: Ledger, s: Step, b: Books)
    requires MovesBudget(l, s) && l.disk.Some?
    ensures BooksStep(l, s, b) == if !s.io.grants then Owed else if !s.io.charges then Torn else Even
  {
  }

  lemma {:induction false} ChargeMovesBooks(H: Hash, l: Ledger, input: ActionInput, nowMs: I64, d: Decision, k: nat, io: Faults)
    requires Sound(H, l) && !l.degraded && Decides(l, input, nowMs, d, k) && d.grantId.Some?
    requires Balanced(l.mem) && |l.mem.chain.entries| !in l.mem.charges
    ensures var m := EvaluateAndRecord(H, l, input, nowMs, io).0;
            && Balanced(m.mem) && m.disk.Some? == l.disk.Some?
            && (l.disk.Some? ==> Agree(m, if !io.grants then Owed else if !io.charges then Torn else Even))
  {
    var id, units := |l.mem.chain.entries|, ChargeFor(input.cost);
    var m := EvaluateAndRecord(H, l, input, nowMs, io).0;
    var t := Charged(l.mem, input.agent, k, id, units);
    EvaluateChargesInMemory(H, l, input, nowMs, d, k, io);
    ChargedConserves(l.mem, input.agent, k, id, units);
    ChargedNames(l.mem, input.agent, k, id, units);
    if l.disk.Some? {
      EvaluateOnDisk(H, l, input, nowMs, d, k, io);
      TornChargeBreaks(l.mem, input.agent, k, id, units);
      MovedBooks(l.mem, t, m, io);
    } else {
      BalancedDependsOnBudget(t, m.mem);
    }
  }

  lemma {:induction false} ChargeKeepsBooks(H: Hash, l: Ledger, s: Step, b: Books)
    requires InBooks(H, l, b) && TakesCharge(l, s) && |l.mem.chain.entries| !in l.mem.charges
    ensures InBooks(H, Apply(H, l, s).0, BooksStep(l, s, b))
  {
    var k, d := ChargeDecides(l, s);
    EvaluateIsSound(H, l, s.input, s.nowMs, s.io);
    ChargeMovesBooks(H, l, s.input, s.nowMs, d, k, s.io);
    if l.disk.Some? {
      MovedStep(l, s, b);
    }
  }

  lemma {:induction false} ChargeDecides(l: Ledger, s: Step) returns (k: nat, d: Decision)
    requires TakesCharge(l, s)
    ensures Decides(l, s.input, s.nowMs, d, k) && d.grantId.Some?
  {
    var c := ClassificationFromStr(s.input.classification).value;
    k := DecisionNamesPayingGrant(l, s.input, c, s.nowMs);
    d := Decide(l, s.input, c, s.nowMs);
  }

  /** A charge filed over another: the first one is off the books, and its grant is still
      the poorer for it. */
  lemma {:induction false} OverwritingBreaks(s: Slice, agent: string, k: nat, id: nat, units: U64)
    requires MemKept(s) && Balanced(s) && id in s.charges
    requires k < |GrantsOf(s, agent)| && units <= GrantsOf(s, agent)[k].Remaining()
    ensures !Conserved(Charged(s, agent, k, id, units))
  {
    var first := s.charges[id];
    var v := FirstChargesGrant(s, id);
    var t := Charged(s, agent, k, id, units);
    ChargedSpends(s, agent, k, id, units, first.agent, v);
    OverwrittenOwes(s, t, id, first.agent, first.grantId);
    FallsShort(s, t, id, first.agent, v);
  }

  lemma {:induction false} FirstChargesGrant(s: Slice, id: nat) returns (v: nat)
    requires MemKept(s) && Named(s) && id in s.charges
    ensures var c := s.charges[id];
            c.units >= 1 && IsGrant(s.grants, c.agent, v) && s.grants[c.agent][v].id == c.grantId
  {
    v := FindGrant(GrantsOf(s, s.charges[id].agent), s.charges[id].grantId).value;
  }

  lemma {:induction false} FallsShort(s: Slice, t: Slice, id: nat, a: string, v: nat)
    requires Conserved(s) && id in s.charges && id in t.charges && s.charges[id].units >= 1
    requires IsGrant(s.grants, a, v) && IsGrant(t.grants, a, v) && t.grants[a][v].id == s.grants[a][v].id
    requires s.charges[id].agent == a && s.charges[id].grantId == s.grants[a][v].id
    requires t.grants[a][v].consumed == s.grants[a][v].consumed + UnitsFor(t.charges[id], a, s.grants[a][v].id)
    requires Outstanding(t.charges, a, s.grants[a][v].id)
             == Outstanding(s.charges, a, s.grants[a][v].id) - UnitsFor(s.charges[id], a, s.grants[a][v].id)
                + UnitsFor(t.charges[id], a, s.grants[a][v].id)
    ensures !Conserved(t)
  {
  }

  /** What the books say is owed on the first charge's grant falls short by that charge. */
  lemma {:induction false} OverwrittenOwes(s: Slice, t: Slice, id: nat, agent: string, grantId: string)
    requires id in s.charges && id in t.charges && t.charges - {id} == s.charges - {id}
    ensures Outstanding(t.charges, agent, grantId)
            == Outstanding(s.charges, agent, grantId) - UnitsFor(s.charges[id], agent, grantId)
               + UnitsFor(t.charges[id], agent, grantId)
  {
    OutstandingSplit(s.charges, id, agent, grantId);
    OutstandingSplit(t.charges, id, agent, grantId);
  }

  /** A charge adds to its own grant and to no other. */
  lemma {:induction false} ChargedSpends(s: Slice, agent: string, k: nat, id: nat, units: U64, a: string, v: nat)
    requires MemKept(s) && IsGrant(s.grants, a, v)
    requires k < |GrantsOf(s, agent)| && units <= GrantsOf(s, agent)[k].Remaining()
    ensures var t := Charged(s, agent, k, id, units);
            && t.charges - {id} == s.charges - {id}
            && IsGrant(t.grants, a, v) && t.grants[a][v].id == s.grants[a][v].id
            && t.grants[a][v].consumed
               == s.grants[a][v].consumed + UnitsFor(t.charges[id], a, s.grants[a][v].id)
  {
    var t := Charged(s, agent, k, id, units);
    assert IsGrant(s.grants, agent, k);
    assert t.charges - {id} == s.charges - {id};
  }

  lemma {:induction false} OverwritingStepBreaks(H: Hash, l: Ledger, s: Step)
    requires Sound(H, l) && Balanced(l.mem) && TakesCharge(l, s) && |l.mem.chain.entries| in l.mem.charges
    ensures !Conserved(Apply(H, l, s).0.mem)
  {
    var k, d := ChargeDecides(l, s);
    var id, units := |l.mem.chain.entries|, ChargeFor(s.input.cost);
    EvaluateChargesInMemory(H, l, s.input, s.nowMs, d, k, s.io);
    OverwritingBreaks(l.mem, s.input.agent, k, id, units);
    ConservedDependsOnBudget(Charged(l.mem, s.input.agent, k, id, units), Apply(H, l, s).0.mem);
  }

  // ---- a refund ---------------------------------------------------------

  lemma {:induction false} RejectGivesBackInMemory(H: Hash, l: Ledger, id: nat, nowMs: I64, io: Faults)
    requires GivesBack(l, RejectStep(id, nowMs, io))
    ensures var m := Reject(H, l, id, nowMs, io).0;
            m.mem.grants == Refunded(l.mem, id).grants && m.mem.charges == Refunded(l.mem, id).charges
            && m.disk.Some? == l.disk.Some?
  {
    var l1 := AnswerPhase(l, id, SaidNo, io).0;
    AnswerSameBudget(l, id, SaidNo, io);
    AnswerPhaseMem(l, id, SaidNo, io);
    RefundPhaseMem(l1, id, io);
    RefundAnswers(l1, id, io);
    RefundedIgnoresAnswers(l.mem, l1.mem, id);
    var l2 := RefundPhase(l1, id, io).0;
    CommitSameBudget(H, l2, l.mem.chain.entries[id].record.(verdict := Rejected, hic := HicLevel.ApproveEach,
                                                           timestampMs := nowMs), RC300, io.log);
  }

  lemma {:induction false} RefundMovesBooks(H: Hash, l: Ledger, id: nat, nowMs: I64, io: Faults)
    requires Sound(H, l) && Balanced(l.mem) && GivesBack(l, RejectStep(id, nowMs, io))
    ensures var m := Reject(H, l, id, nowMs, io).0;
            && Balanced(m.mem) && m.disk.Some? == l.disk.Some?
            && (l.disk.Some? ==> Agree(m, if !io.grants then Owed else if !io.charges then Torn else Even))
  {
    var m := Reject(H, l, id, nowMs, io).0;
    var t := Refunded(l.mem, id);
    RejectGivesBackInMemory(H, l, id, nowMs, io);
    RefundedConserves(l.mem, id);
    RefundedNames(l.mem, id);
    if l.disk.Some? {
      RejectOnDisk(H, l, id, nowMs, io);
      TornRefundBreaks(l.mem, id);
      MovedBooks(l.mem, t, m, io);
    } else {
      BalancedDependsOnBudget(t, m.mem);
    }
  }

  lemma {:induction false} RefundKeepsBooks(H: Hash, l: Ledger, s: Step, b: Books)
    requires InBooks(H, l, b) && GivesBack(l, s)
    ensures InBooks(H, Apply(H, l, s).0, BooksStep(l, s, b))
  {
    RejectIsSound(H, l, s.id, s.nowMs, s.io);
    RefundMovesBooks(H, l, s.id, s.nowMs, s.io);
    if l.disk.Some? {
      MovedStep(l, s, b);
    }
  }

  // ---- reading the files back -------------------------------------------

  lemma {:induction false} ReadBack(H: Hash, l: Ledger, s: Step)
    requires Sound(H, l) && IsReload(s)
    ensures var m := Apply(H, l, s).0;
            if l.disk.None? then m == l
            else m.disk == l.disk && m.mem.grants == GrantsOnDisk(l) && m.mem.charges == ChargesOnDisk(l)
  {
    if l.disk.Some? {
      FilesLoad(H, l);
    }
  }

  lemma {:induction false} ReadingKeepsBooks(H: Hash, l: Ledger, s: Step, b: Books)
    requires InBooks(H, l, b) && IsReload(s) && b != Torn
    ensures InBooks(H, Apply(H, l, s).0, BooksStep(l, s, b))
  {
    var m := Apply(H, l, s).0;
    ReadBack(H, l, s);
    ApplyIsSound(H, l, s);
    if l.disk.Some? {
      BalancedDependsOnBudget(OnDisk(l), m.mem);
      BalancedDependsOnBudget(OnDisk(l), OnDisk(m));
    }
  }

  lemma {:induction false} ReadingTornBreaks(H: Hash, l: Ledger, s: Step)
    requires InBooks(H, l, Torn) && IsReload(s)
    ensures !Conserved(Apply(H, l, s).0.mem)
  {
    ReadBack(H, l, s);
    BalancedDependsOnBudget(OnDisk(l), Apply(H, l, s).0.mem);
  }

  // ---- whole runs -------------------------------------------------------

  /** The two ways a step puts the budget out of balance: it reads torn books back, or it
      charges under an id that already has a charge. */
  predicate Upsets(l: Ledger, b: Books, s: Step) {
    || (IsReload(s) && b == Torn)
    || (TakesCharge(l, s) && |l.mem.chain.entries| in l.mem.charges)
  }

  lemma {:induction false} StepKeepsBooks(H: Hash, l: Ledger, s: Step, b: Books)
    requires InBooks(H, l, b)
    ensures if Upsets(l, b, s) then !Conserved(Apply(H, l, s).0.mem)
            else InBooks(H, Apply(H, l, s).0, BooksStep(l, s, b))
  {
    if IsReload(s) {
      if b == Torn { ReadingTornBreaks(H, l, s); } else { ReadingKeepsBooks(H, l, s, b); }
    } else if TakesCharge(l, s) {
      if |l.mem.chain.entries| in l.mem.charges { OverwritingStepBreaks(H, l, s); } else { ChargeKeepsBooks(H, l, s, b); }
    } else if GivesBack(l, s) {
      RefundKeepsBooks(H, l, s, b);
    } else {
      IdleStepKeepsBooks(H, l, s, b);
    }
  }

  predicate UpsetAt(H: Hash, l: Ledger, b: Books, steps: seq<Step>, i: nat) {
    i < |steps| && Upsets(Run(H, l, steps[..i]), BooksAfter(H, l, b, steps[..i]), steps[i])
  }

  lemma {:induction false} OneMoreStep(H: Hash, l: Ledger, b: Books, steps: seq<Step>, i: nat)
    requires i < |steps|
    ensures var before := Run(H, l, steps[..i]);
            && Run(H, l, steps[..i + 1]) == Apply(H, before, steps[i]).0
            && BooksAfter(H, l, b, steps[..i + 1]) == BooksStep(before, steps[i], BooksAfter(H, l, b, steps[..i]))
  {
    var first := steps[..i + 1];
    assert first[..i] == steps[..i] && first[i] == steps[i];
  }

  /** With no such step among the first ones, the books are kept. */
  lemma {:induction false} RunKeepsBooks(H: Hash, l: Ledger, b: Books, steps: seq<Step>, n: nat)
    requires InBooks(H, l, b) && n <= |steps|
    requires forall i: nat :: i < n ==> !UpsetAt(H, l, b, steps, i)
    ensures InBooks(H, Run(H, l, steps[..n]), BooksAfter(H, l, b, steps[..n]))
    decreases n
  {
    if n != 0 {
      var k := n - 1;
      RunKeepsBooks(H, l, b, steps, k);
      OneMoreStep(H, l, b, steps, k);
      NextInBooks(H, l, b, steps, k);
    } else {
      assert steps[..0] == [];
    }
  }

  lemma {:induction false} NextInBooks(H: Hash, l: Ledger, b: Books, steps: seq<Step>, k: nat)
    requires k < |steps| && InBooks(H, Run(H, l, steps[..k]), BooksAfter(H, l, b, steps[..k]))
    ensures var next := Apply(H, Run(H, l, steps[..k]), steps[k]).0;
            var after := BooksStep(Run(H, l, steps[..k]), steps[k], BooksAfter(H, l, b, steps[..k]));
            if UpsetAt(H, l, b, steps, k) then !Conserved(next.mem) else InBooks(H, next, after)
  {
    StepKeepsBooks(H, Run(H, l, steps[..k]), steps[k], BooksAfter(H, l, b, steps[..k]));
  }

  lemma {:induction false} FirstUpset(H: Hash, l: Ledger, b: Books, steps: seq<Step>, i: nat) returns (k: nat)
    requires UpsetAt(H, l, b, steps, i)
    ensures UpsetAt(H, l, b, steps, k) && forall j: nat :: j < k ==> !UpsetAt(H, l, b, steps, j)
    decreases i
  {
    if j: nat :| j < i && UpsetAt(H, l, b, steps, j) {
      k := FirstUpset(H, l, b, steps, j);
    } else {
      k := i;
    }
  }

  /** The budget balances after each of the first n steps. */
  ghost predicate BalancesAt(H: Hash, l: Ledger, steps: seq<Step>, n: nat) {
    n <= |steps| ==> Conserved(Run(H, l, steps[..n]).mem)
  }

  /** Over every run from a running ledger, write failures, reloads and crashes anywhere:
      each grant has consumed exactly its outstanding charges at every point, if and only
      if torn books are never read back and no governed action takes an id that still has
      a charge. */
  lemma {:induction false} BudgetHolds(H: Hash, l: Ledger, steps: seq<Step>)
    requires Sound(H, l) && Balanced(l.mem) && !l.degraded
    ensures (forall n: nat :: BalancesAt(H, l, steps, n)) <==> (forall i: nat :: !UpsetAt(H, l, Even, steps, i))
  {
    RunningIsInBooks(H, l);
    if i: nat :| UpsetAt(H, l, Even, steps, i) {
      var k := FirstUpset(H, l, Even, steps, i);
      RunKeepsBooks(H, l, Even, steps, k);
      OneMoreStep(H, l, Even, steps, k);
      NextInBooks(H, l, Even, steps, k);
      var next := k + 1;
      assert !BalancesAt(H, l, steps, next);
    } else {
      forall n: nat ensures BalancesAt(H, l, steps, n) {
        if n <= |steps| {
          RunKeepsBooks(H, l, Even, steps, n);
        }
      }
    }
  }

  // ---- one failing step, then anything up to the read-back ---------------

  predicate NoReadBack(steps: seq<Step>) {
    forall i :: 0 <= i < |steps| ==> !IsReload(steps[i])
  }

  /** An issue's or a revocation's grants write landed along the way. */
  predicate GrantsWritten(H: Hash, l: Ledger, steps: seq<Step>) {
    steps != [] &&
    var n := |steps| - 1;
    GrantsWritten(H, l, steps[..n]) || WritesGrants(Run(H, l, steps[..n]), steps[n])
  }

  lemma {:induction false} StaysDegraded(H: Hash, l: Ledger, steps: seq<Step>)
    requires Sound(H, l) && l.degraded && NoReadBack(steps)
    ensures Sound(H, Run(H, l, steps)) && Run(H, l, steps).degraded && Run(H, l, steps).disk.Some? == l.disk.Some?
  {
    if steps != [] {
      var before, last := steps[..|steps| - 1], steps[|steps| - 1];
      StaysDegraded(H, l, before);
      assert !IsReload(last);
      ApplyIsSound(H, Run(H, l, before), last);
      DegradedAppendsNothing(H, Run(H, l, before), last);
      StepEffect(H, Run(H, l, before), last);
    }
  }

  lemma {:induction false} TailBooks(H: Hash, l: Ledger, b: Books, steps: seq<Step>)
    requires InBooks(H, l, b) && l.disk.Some? && l.degraded && NoReadBack(steps)
    ensures InBooks(H, Run(H, l, steps), BooksAfter(H, l, b, steps))
    ensures BooksAfter(H, l, b, steps) == if b == Owed && GrantsWritten(H, l, steps) then Torn else b
  {
    if steps != [] {
      var before, last := steps[..|steps| - 1], steps[|steps| - 1];
      TailBooks(H, l, b, before);
      StaysDegraded(H, l, before);
      assert !IsReload(last);
      DegradedStepBooks(H, Run(H, l, before), last, BooksAfter(H, l, b, before));
    }
  }

  lemma {:induction false} DegradedStepBooks(H: Hash, l: Ledger, s: Step, b: Books)
    requires InBooks(H, l, b) && l.disk.Some? && l.degraded && !IsReload(s)
    ensures InBooks(H, Apply(H, l, s).0, BooksStep(l, s, b))
    ensures BooksStep(l, s, b) == if b == Owed && WritesGrants(l, s) then Torn else b
  {
    IdleStepKeepsBooks(H, l, s, b);
    IdleBooks(l, s, b);
  }

  lemma {:induction false} TailBalances(H: Hash, m: Ledger, b: Books, tail: seq<Step>)
    requires InBooks(H, m, b) && m.disk.Some? && m.degraded && NoReadBack(tail)
    ensures Conserved(Restart(H, Run(H, m, tail)).mem) <==> b == Even || (b == Owed && !GrantsWritten(H, m, tail))
  {
    TailBooks(H, m, b, tail);
    StaysDegraded(H, m, tail);
    RestartBalances(H, Run(H, m, tail), BooksAfter(H, m, b, tail));
  }

  lemma {:induction false} RestartBalances(H: Hash, l: Ledger, b: Books)
    requires InBooks(H, l, b) && l.disk.Some?
    ensures Conserved(Restart(H, l).mem) <==> b != Torn
  {
    RestartReads(H, l);
    ConservedDependsOnBudget(OnDisk(l), Restart(H, l).mem);
  }

  /** A step has failed and the backend runs on, degraded. What a new process finds
      balances if and only if that step took or gave back no charge, or its charges write
      landed, or no grants write landed after the charge was moved in memory: neither the
      step's own nor, before the process ends, an issue's or a revocation's. */
  lemma {:induction false} ReadBackBalances(H: Hash, l: Ledger, s: Step, tail: seq<Step>)
    requires Up(H, l) && Balanced(l.mem) && !IsReload(s) && NoReadBack(tail)
    requires TakesCharge(l, s) ==> |l.mem.chain.entries| !in l.mem.charges
    requires Apply(H, l, s).0.degraded
    ensures var m := Apply(H, l, s).0;
            Conserved(Restart(H, Run(H, m, tail)).mem)
            <==> !MovesBudget(l, s) || (s.io.grants && s.io.charges)
                 || !(s.io.grants || GrantsWritten(H, m, tail))
  {
    RunningIsInBooks(H, l);
    StepKeepsBooks(H, l, s, Even);
    StepEffect(H, l, s);
    TailBalances(H, Apply(H, l, s).0, BooksStep(l, s, Even), tail);
  }

  // ---- inputs for which it fails ----------------------------------------

  /** Everything lands but the grants write, which comes first. */
  const GRANTS_LOST: Faults := Faults(false, true, true, true, true, true, LogDone)

  lemma {:induction false} RunOne(H: Hash, l: Ledger, s: Step)
    ensures Run(H, l, [s]) == Apply(H, l, s).0
  {
    assert [s][..0] == [];
  }

  /** One more grants write over a debt that was safe until then. */
  lemma {:induction false} OneWriteTears(H: Hash, m: Ledger, s: Step)
    requires InBooks(H, m, Owed) && m.disk.Some? && m.degraded && WritesGrants(m, s)
    ensures Conserved(Restart(H, m).mem) && !Conserved(Restart(H, Apply(H, m, s).0).mem)
  {
    RunOne(H, m, s);
    TailBalances(H, m, Owed, []);
    assert [s][..0] == [];
    TailBalances(H, m, Owed, [s]);
  }

  lemma {:induction false} ChargedAddsNoGrant(s: Slice, agent: string, k: nat, id: nat, units: U64, name: string)
    requires k < |GrantsOf(s, agent)| && units <= GrantsOf(s, agent)[k].Remaining() && !HasGrant(s.grants, name)
    ensures !HasGrant(Charged(s, agent, k, id, units).grants, name)
  {
    var t := Charged(s, agent, k, id, units);
    forall a, i | IsGrant(t.grants, a, i) ensures t.grants[a][i].id != name {
      assert IsGrant(s.grants, a, i);
      NoSuchGrant(s.grants, name, a, i);
    }
  }

  /** An action's grants write fails, and a restart would find the budget in order; issue
      any grant first, and it does not. */
  lemma {:induction false} IssueTearsTheBudget(H: Hash, l: Ledger, input: ActionInput, nowMs: I64, d: Decision, k: nat,
                                               g: GrantInput)
    requires Up(H, l) && Balanced(l.mem) && |l.mem.chain.entries| !in l.mem.charges
    requires Decides(l, input, nowMs, d, k) && d.grantId.Some?
    requires ClassificationFromStr(g.ceiling).Some? && !HasGrant(l.mem.grants, g.id)
    ensures var m := EvaluateAndRecord(H, l, input, nowMs, GRANTS_LOST).0;
            Conserved(Restart(H, m).mem) && !Conserved(Restart(H, IssueGrant(H, m, g, nowMs, ALL_LAND).0).mem)
  {
    var m := EvaluateAndRecord(H, l, input, nowMs, GRANTS_LOST).0;
    EvaluateIsSound(H, l, input, nowMs, GRANTS_LOST);
    ChargeMovesBooks(H, l, input, nowMs, d, k, GRANTS_LOST);
    EvaluateChargesInMemory(H, l, input, nowMs, d, k, GRANTS_LOST);
    ChargedAddsNoGrant(l.mem, input.agent, k, |l.mem.chain.entries|, ChargeFor(input.cost), g.id);
    OwedIsDegraded(H, m);
    OneWriteTears(H, m, IssueStep(g, nowMs, ALL_LAND));
  }

  lemma {:induction false} OwedIsDegraded(H: Hash, m: Ledger)
    requires Sound(H, m) && Balanced(m.mem) && m.disk.Some? && Agree(m, Owed)
    ensures m.degraded
  {
    if !m.degraded {
      ConservedDependsOnBudget(m.mem, Mixed(m));
    }
  }

  /** So with a rejection: revoke the very grant that was refunded, and the refund is on
      file beside its charge. */
  lemma {:induction false} RevocationTearsTheRefund(H: Hash, l: Ledger, id: nat, nowMs: I64, actor: string)
    requires Up(H, l) && Balanced(l.mem) && id < |l.mem.chain.entries| && id in l.mem.charges && !Blank(actor)
    ensures var m := Reject(H, l, id, nowMs, GRANTS_LOST).0;
            var c := l.mem.charges[id];
            && Conserved(Restart(H, m).mem)
            && !Conserved(Restart(H, RevokeGrant(H, m, c.agent, c.grantId, actor, nowMs, ALL_LAND).0).mem)
  {
    var m := Reject(H, l, id, nowMs, GRANTS_LOST).0;
    var c := l.mem.charges[id];
    RejectIsSound(H, l, id, nowMs, GRANTS_LOST);
    RefundMovesBooks(H, l, id, nowMs, GRANTS_LOST);
    RejectGivesBackInMemory(H, l, id, nowMs, GRANTS_LOST);
    RefundedStillFound(l.mem, m.mem, id);
    OwedIsDegraded(H, m);
    OneWriteTears(H, m, RevokeStep(c.agent, c.grantId, actor, nowMs, ALL_LAND));
  }

  lemma {:induction false} RefundedStillFound(s: Slice, t: Slice, id: nat)
    requires Named(s) && id in s.charges && t.grants == Refunded(s, id).grants
    ensures FindGrant(GrantsOf(t, s.charges[id].agent), s.charges[id].grantId).Some?
  {
    var c := s.charges[id];
    var v := FindGrant(GrantsOf(s, c.agent), c.grantId).value;
    assert GrantsOf(t, c.agent)[v].id == c.grantId;
  }

  /** An action crashes just before its record, and a restart finds the budget in order;
      the next governed action takes the same id, files its charge over the first, and the
      first charge can never be given back. */
  lemma {:induction false} NextChargeOverwrites(H: Hash, l: Ledger, input: ActionInput, nowMs: I64, d: Decision, k: nat,
                                                next: Step)
    requires Up(H, l) && Balanced(l.mem) && |l.mem.chain.entries| !in l.mem.charges
    requires Decides(l, input, nowMs, d, k) && d.grantId.Some?
    requires TakesCharge(Restart(H, EvaluateAndRecord(H, l, input, nowMs, RECORD_LOST).0), next)
    ensures var r := Restart(H, EvaluateAndRecord(H, l, input, nowMs, RECORD_LOST).0);
            Conserved(r.mem) && !Conserved(Apply(H, r, next).0.mem)
  {
    var m := EvaluateAndRecord(H, l, input, nowMs, RECORD_LOST).0;
    EvaluateIsSound(H, l, input, nowMs, RECORD_LOST);
    ChargeMovesBooks(H, l, input, nowMs, d, k, RECORD_LOST);
    EvaluateOnDisk(H, l, input, nowMs, d, k, RECORD_LOST);
    RestartReads(H, m);
    RestartIsSound(H, m);
    BalancedDependsOnBudget(OnDisk(m), Restart(H, m).mem);
    OverwritingStepBreaks(H, Restart(H, m), next);
  }
}
