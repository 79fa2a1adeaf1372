/** Revocation is final: over any run, crashes included, a grant that was revoked stays
    revoked and stands behind no decision. */
module LedgerRevocation {
  import opened Basics
  import opened Audit
  import opened Policy
  import opened Store
  import opened Files
  import opened Ledger
  import opened LedgerSound
  import opened LedgerSteps
  import opened LedgerBudget
  import opened LedgerRuns
  import opened LedgerRecords

  type Grants = map<string, seq<CapabilityGrant>>

  predicate IsIt(grants: Grants, a: string, i: int, id: string) {
    IsGrant(grants, a, i) && grants[a][i].id == id
  }

  /** The id is taken, and whatever bears it is revoked. */
  ghost predicate Revoked(grants: Grants, id: string) {
    && HasGrant(grants, id)
    && forall a, i :: IsIt(grants, a, i, id) ==> grants[a][i].revoked
  }

  /** Grants keep their place and id and are never un-revoked; a new one has a new id. */
  ghost predicate Evolves(g: Grants, h: Grants) {
    && (forall a, i :: IsGrant(g, a, i) ==>
          IsGrant(h, a, i) && h[a][i].id == g[a][i].id && (g[a][i].revoked ==> h[a][i].revoked))
    && (forall a, i :: IsGrant(h, a, i) && !IsGrant(g, a, i) ==> !HasGrant(g, h[a][i].id))
  }

  lemma {:induction false} RevokedStays(g: Grants, h: Grants, id: string)
    requires Revoked(g, id) && Evolves(g, h)
    ensures Revoked(h, id)
  {
    var a: string :| a in g && exists x: CapabilityGrant | x in g[a] :: x.id == id;
    var x: CapabilityGrant :| x in g[a] && x.id == id;
    var i: nat :| i < |g[a]| && g[a][i] == x;
    assert IsGrant(g, a, i) && IsGrant(h, a, i);
    assert h[a][i] in h[a];
    forall b, j | IsIt(h, b, j, id) ensures h[b][j].revoked {
      if IsGrant(g, b, j) {
        assert IsIt(g, b, j, id);
      }
    }
  }

  lemma {:induction false} EvolvesSelf(g: Grants)
    ensures Evolves(g, g)
  {
  }

  /** Replacing one grant by one of the same id, no less revoked. */
  lemma {:induction false} EvolvesAt(g: Grants, agent: string, k: nat, x: CapabilityGrant)
    requires IsGrant(g, agent, k) && x.id == g[agent][k].id && (g[agent][k].revoked ==> x.revoked)
    ensures Evolves(g, g[agent := g[agent][k := x]])
  {
    var h := g[agent := g[agent][k := x]];
    forall a, i | IsGrant(h, a, i) ensures IsGrant(g, a, i) {
    }
  }

  lemma {:induction false} EvolvesByRevoking(g: Grants, agent: string, id: string)
    requires agent in g
    ensures Evolves(g, g[agent := RevokeAll(g[agent], id)])
  {
    var h := g[agent := RevokeAll(g[agent], id)];
    forall a, i | IsGrant(h, a, i) ensures IsGrant(g, a, i) {
    }
  }

  lemma {:induction false} EvolvesByIssue(g: Grants, agent: string, x: CapabilityGrant)
    requires !HasGrant(g, x.id)
    ensures Evolves(g, g[agent := (if agent in g then g[agent] else []) + [x]])
  {
    var h := g[agent := (if agent in g then g[agent] else []) + [x]];
    forall a, i | IsGrant(h, a, i) && !IsGrant(g, a, i) ensures h[a][i] == x {
    }
  }

  // ---- what a step does to the grants, in memory and on disk ------------

  function GrantsFile(l: Ledger): Option<Result<Grants, StoreError>> {
    if l.disk.None? then None else Some(l.disk.value.grants)
  }

  /** The file holds what it held, or what memory holds now. */
  predicate FileFollows(l: Ledger, m: Ledger) {
    || GrantsFile(m) == GrantsFile(l)
    || (l.disk.Some? && GrantsFile(m) == Some(Ok(m.mem.grants)))
  }

  ghost predicate Moves(l: Ledger, m: Ledger) {
    Evolves(l.mem.grants, m.mem.grants) && FileFollows(l, m)
  }

  predicate Untouched(l: Ledger, m: Ledger) {
    m.mem.grants == l.mem.grants && GrantsFile(m) == GrantsFile(l)
  }

  lemma {:induction false} UntouchedMoves(l: Ledger, m: Ledger)
    requires Untouched(l, m)
    ensures Moves(l, m)
  {
    EvolvesSelf(l.mem.grants);
  }

  lemma {:induction false} CommitTouchesNoGrant(H: Hash, l: Ledger, r: DecisionRecord, reason: Reason,
                                                outcome: LogOutcome)
    ensures Untouched(l, Commit(H, l, r, reason, outcome).0)
  {
  }

  lemma {:induction false} PrincipalTouchesNoGrant(H: Hash, l: Ledger, who: string, class_: string, detail: string,
                                                   nowMs: I64, outcome: LogOutcome)
    ensures Untouched(l, RecordPrincipal(H, l, who, class_, detail, nowMs, outcome).0)
  {
  }

  lemma {:induction false} DelegatedTouchesNoGrant(H: Hash, l: Ledger, agent: string, who: string,
                                                   authority: string, class_: string, detail: string, nowMs: I64,
                                                   outcome: LogOutcome)
    ensures Untouched(l, RecordDelegated(H, l, agent, who, authority, class_, detail, nowMs, outcome).0)
  {
  }

  lemma {:induction false} BudgetFollows(l: Ledger, io: Faults)
    ensures SaveBudget(l, io).0.mem == l.mem && FileFollows(l, SaveBudget(l, io).0)
  {
  }

  lemma {:induction false} ChargeMoves(l: Ledger, agent: string, k: nat, id: nat, units: U64, io: Faults)
    requires MemKept(l.mem) && k < |GrantsOf(l.mem, agent)| && units <= GrantsOf(l.mem, agent)[k].Remaining()
    ensures Moves(l, ChargePhase(l, agent, Some(GrantsOf(l.mem, agent)[k].id), id, units, io).0)
  {
    var gs := GrantsOf(l.mem, agent);
    assert IsGrant(l.mem.grants, agent, k);
    FindsItself(l.mem.grants, agent, k);
    EvolvesAt(l.mem.grants, agent, k, gs[k].Consume(units).value);
    var l1 := Spend(l, agent, gs[k].id, units).value;
    BudgetFollows(l1.(mem := l1.mem.(charges := l1.mem.charges[id := Charge(id, agent, gs[k].id, units)])), io);
  }

  lemma {:induction false} RefundMoves(l: Ledger, id: nat, io: Faults)
    ensures Moves(l, RefundPhase(l, id, io).0)
  {
    EvolvesSelf(l.mem.grants);
    if id in l.mem.charges {
      var c := l.mem.charges[id];
      var l1 := l.(mem := l.mem.(charges := l.mem.charges - {id}));
      var gs := GrantsOf(l1.mem, c.agent);
      var k := FindGrant(gs, c.grantId);
      if k.Some? {
        assert IsGrant(l.mem.grants, c.agent, k.value);
        EvolvesAt(l.mem.grants, c.agent, k.value, gs[k.value].Refund(c.units));
      }
      BudgetFollows(Unspend(l1, c), io);
    }
  }

  lemma {:induction false} QueueTouchesNoGrant(l: Ledger, input: ActionInput, verdict: Verdict, id: nat,
                                               nowMs: I64, io: Faults)
    ensures Untouched(l, PendingPhase(l, input, verdict, id, nowMs, io).0)
  {
  }

  lemma {:induction false} FinishTouchesNoGrant(l: Ledger, e: Option<Error>, entry: Entry, d: Decision, id: nat,
                                                outcome: LogOutcome)
    ensures Untouched(l, Finish(l, e, entry, d, id, outcome).0)
  {
  }

  lemma {:induction false} MovesThenUntouched(l: Ledger, m: Ledger, n: Ledger)
    requires Moves(l, m) && Untouched(m, n)
    ensures Moves(l, n)
  {
  }

  lemma {:induction false} SettleMoves(l: Ledger, input: ActionInput, d: Decision, k: nat, nowMs: I64, io: Faults)
    requires MemKept(l.mem) && l.mem.chain.entries != [] && PaidBy(l, input, d, k)
    ensures Moves(l, Settle(l, input, d, nowMs, io).0)
  {
    var id := |l.mem.chain.entries| - 1;
    var (l1, e1) := ChargePhase(l, input.agent, d.grantId, id, ChargeFor(input.cost), io);
    if d.grantId.Some? {
      ChargeMoves(l, input.agent, k, id, ChargeFor(input.cost), io);
    } else {
      UntouchedMoves(l, l1);
    }
    QueueTouchesNoGrant(l1, input, d.verdict, id, nowMs, io);
    var (l2, e2) := Effects(l, input, d, id, nowMs, io);
    assert Untouched(l1, l2);
    MovesThenUntouched(l, l1, l2);
    FinishTouchesNoGrant(l2, e2, l.mem.chain.entries[id], d, id, io.log);
    MovesThenUntouched(l, l2, Settle(l, input, d, nowMs, io).0);
  }

  lemma {:induction false} EvaluateMoves(H: Hash, l: Ledger, input: ActionInput, nowMs: I64, io: Faults)
    requires MemKept(l.mem)
    ensures Moves(l, EvaluateAndRecord(H, l, input, nowMs, io).0)
  {
    var c := ClassificationFromStr(input.classification);
    UntouchedMoves(l, l);
    if !l.degraded && c.Some? {
      var k := DecisionNamesPayingGrant(l, input, c.value, nowMs);
      EvaluateAppends(H, l, input, c.value, nowMs);
      var d := Decide(l, input, c.value, nowMs);
      var r := ActionRecord(input, d, Accountable(l, input.agent, d.grantId), nowMs);
      SettleMoves(l.(mem := l.mem.(chain := Append(H, l.mem.chain, r).value)), input, d, k, nowMs, io);
    }
  }

  lemma {:induction false} AnswerTouchesNoGrant(l: Ledger, id: nat, a: Answer, io: Faults)
    ensures Untouched(l, AnswerPhase(l, id, a, io).0)
  {
  }

  lemma {:induction false} RejectMoves(H: Hash, l: Ledger, id: nat, nowMs: I64, io: Faults)
    ensures Moves(l, Reject(H, l, id, nowMs, io).0)
  {
    UntouchedMoves(l, l);
    if !l.degraded && id < |l.mem.chain.entries| {
      var (l1, e1) := AnswerPhase(l, id, SaidNo, io);
      AnswerTouchesNoGrant(l, id, SaidNo, io);
      UntouchedMoves(l, l1);
      if e1.None? {
        var (l2, e2) := RefundPhase(l1, id, io);
        RefundMoves(l1, id, io);
        CommitTouchesNoGrant(H, l2, l.mem.chain.entries[id].record.(verdict := Rejected, hic := HicLevel.ApproveEach,
                                                                    timestampMs := nowMs), RC300, io.log);
      }
    }
  }

  lemma {:induction false} ApproveTouchesNoGrant(H: Hash, l: Ledger, id: nat, who: string, nowMs: I64, io: Faults)
    ensures Untouched(l, Approve(H, l, id, who, nowMs, io).0)
  {
    if !l.degraded && !Blank(who) && MatchesOperator(l.operator, who) && id in l.mem.pending {
      var (l1, e1) := AnswerPhase(l, id, SaidYes, io);
      AnswerTouchesNoGrant(l, id, SaidYes, io);
      if e1.None? && id < |l.mem.chain.entries| {
        CommitTouchesNoGrant(H, l1, l.mem.chain.entries[id].record.(
                                      principal := Some(who), verdict := Verdict.Approved,
                                      hic := HicLevel.ApproveEach, timestampMs := nowMs),
                             RC301(who, l.mem.pending[id].agent), io.log);
      }
    }
  }

  lemma {:induction false} SavedGrantsFollow(l: Ledger, grants: Grants, lands: bool)
    requires Evolves(l.mem.grants, grants)
    ensures Moves(l, SaveGrants(l.(mem := l.mem.(grants := grants)), lands).0)
  {
  }

  lemma {:induction false} IssueMoves(H: Hash, l: Ledger, input: GrantInput, nowMs: I64, io: Faults)
    ensures Moves(l, IssueGrant(H, l, input, nowMs, io).0)
  {
    UntouchedMoves(l, l);
    var c := ClassificationFromStr(input.ceiling);
    if c.Some? && !HasGrant(l.mem.grants, input.id) {
      var g := NewGrant(input, c.value);
      var grants := l.mem.grants[input.agent := GrantsOf(l.mem, input.agent) + [g]];
      EvolvesByIssue(l.mem.grants, input.agent, g);
      SavedGrantsFollow(l, grants, io.grants);
      var l2 := SaveGrants(l.(mem := l.mem.(grants := grants)), io.grants).0;
      PrincipalTouchesNoGrant(H, l2, input.issuedBy, "grant.issue", input.id + ARROW + input.agent, nowMs, io.log);
    }
  }

  lemma {:induction false} RevokeMoves(H: Hash, l: Ledger, agent: string, id: string, actor: string, nowMs: I64,
                                       io: Faults)
    ensures Moves(l, RevokeGrant(H, l, agent, id, actor, nowMs, io).0)
  {
    UntouchedMoves(l, l);
    if !Blank(actor) && FindGrant(GrantsOf(l.mem, agent), id).Some? {
      var grants := l.mem.grants[agent := RevokeAll(GrantsOf(l.mem, agent), id)];
      EvolvesByRevoking(l.mem.grants, agent, id);
      SavedGrantsFollow(l, grants, io.grants);
      var l1 := SaveGrants(l.(mem := l.mem.(grants := grants)), io.grants).0;
      PrincipalTouchesNoGrant(H, l1, actor, "grant.revoke", id + ARROW + agent, nowMs, io.log);
    }
  }

  lemma {:induction false} AllowTouchesNoGrant(H: Hash, l: Ledger, input: AllowanceInput, nowMs: I64, io: Faults)
    ensures Untouched(l, IssueAllowance(H, l, input, nowMs, io).0)
  {
    if !Blank(input.principal) {
      var l1 := SaveAllowances(l.(mem := l.mem.(allowances := l.mem.allowances[input.id := NewAllowance(input)])),
                               io.allowances).0;
      PrincipalTouchesNoGrant(H, l1, input.principal, "allowance.issue",
                              input.id + ARROW + input.agent + " (cap " + Decimal(input.weightCap) + ")", nowMs, io.log);
    }
  }

  lemma {:induction false} VoteTouchesNoGrant(H: Hash, l: Ledger, id: string, class_: string, weight: U64, nowMs: I64,
                                              io: Faults)
    ensures Untouched(l, CastVote(H, l, id, class_, weight, nowMs, io).0)
  {
    if id in l.mem.allowances && l.mem.allowances[id].Cast(class_, weight, nowMs).Ok? {
      var a := l.mem.allowances[id].Cast(class_, weight, nowMs).value;
      var l1 := SaveAllowances(l.(mem := l.mem.(allowances := l.mem.allowances[id := a])), io.allowances).0;
      DelegatedTouchesNoGrant(H, l1, a.agent, a.principal, id, "vote.cast",
                              id + DOT + class_ + DOT + "weight " + Decimal(weight) + DOT + Proof(a), nowMs, io.log);
    }
  }

  lemma {:induction false} DisallowTouchesNoGrant(H: Hash, l: Ledger, id: string, nowMs: I64, io: Faults)
    ensures Untouched(l, RevokeAllowance(H, l, id, nowMs, io).0)
  {
    if id in l.mem.allowances {
      var a := l.mem.allowances[id].Revoke();
      var l1 := SaveAllowances(l.(mem := l.mem.(allowances := l.mem.allowances[id := a])), io.allowances).0;
      PrincipalTouchesNoGrant(H, l1, a.principal, "allowance.revoke", id, nowMs, io.log);
    }
  }

  /** A reload or a restart reads the file back, and writes nothing to it. */
  predicate Rereads(l: Ledger, m: Ledger) {
    && GrantsFile(m) == GrantsFile(l)
    && (m.mem.grants == l.mem.grants || GrantsFile(l) == Some(Ok(m.mem.grants)))
  }

  lemma {:induction false} ReloadRereads(H: Hash, l: Ledger, lands: bool)
    ensures Rereads(l, SetActive(H, l, lands).0)
  {
  }

  lemma {:induction false} RestartRereads(H: Hash, l: Ledger)
    requires Sound(H, l)
    ensures Rereads(l, Restart(H, l))
  {
    if l.disk.Some? {
      FilesLoad(H, l);
    }
  }

  lemma {:induction false} OtherStepsTouchNoGrant(H: Hash, l: Ledger, s: Step)
    requires !IsReload(s) && !s.ActStep? && !s.RejectStep? && !s.IssueStep? && !s.RevokeStep?
    ensures Untouched(l, Apply(H, l, s).0)
  {
    match s {
      case ApproveStep(id, who, now, io) => ApproveTouchesNoGrant(H, l, id, who, now, io);
      case AllowStep(a, now, io) => AllowTouchesNoGrant(H, l, a, now, io);
      case VoteStep(id, c, w, now, io) => VoteTouchesNoGrant(H, l, id, c, w, now, io);
      case DisallowStep(id, now, io) => DisallowTouchesNoGrant(H, l, id, now, io);
      case PrincipalStep(who, c, detail, now, io) => PrincipalTouchesNoGrant(H, l, who, c, detail, now, io.log);
      case OperatorStep(_, _) =>
      case ElsewhereFails =>
    }
  }

  lemma {:induction false} StepMoves(H: Hash, l: Ledger, s: Step)
    requires Sound(H, l)
    ensures Moves(l, Apply(H, l, s).0) || Rereads(l, Apply(H, l, s).0)
  {
    match s {
      case ActStep(input, now, io) => EvaluateMoves(H, l, input, now, io);
      case RejectStep(id, now, io) => RejectMoves(H, l, id, now, io);
      case IssueStep(g, now, io) => IssueMoves(H, l, g, now, io);
      case RevokeStep(a, id, who, now, io) => RevokeMoves(H, l, a, id, who, now, io);
      case ReloadStep(lands) => ReloadRereads(H, l, lands);
      case RestartStep => RestartRereads(H, l);
      case _ =>
        OtherStepsTouchNoGrant(H, l, s);
        UntouchedMoves(l, Apply(H, l, s).0);
    }
  }

  // ---- runs -------------------------------------------------------------

  /** Revoked in memory and, where there is a disk, in the file. */
  ghost predicate RevokedFor(l: Ledger, id: string) {
    && Revoked(l.mem.grants, id)
    && (l.disk.Some? ==> l.disk.value.grants.Ok? && Revoked(l.disk.value.grants.value, id))
  }

  lemma {:induction false} StepKeepsRevoked(H: Hash, l: Ledger, s: Step, id: string)
    requires Sound(H, l) && RevokedFor(l, id)
    ensures RevokedFor(Apply(H, l, s).0, id)
  {
    var m := Apply(H, l, s).0;
    StepMoves(H, l, s);
    if Moves(l, m) {
      RevokedStays(l.mem.grants, m.mem.grants, id);
    }
  }

  lemma {:induction false} RevokedForEver(H: Hash, l: Ledger, steps: seq<Step>, id: string)
    requires Sound(H, l) && RevokedFor(l, id)
    ensures RevokedFor(Run(H, l, steps), id)
  {
    if steps != [] {
      var before, last := steps[..|steps| - 1], steps[|steps| - 1];
      RevokedForEver(H, l, before, id);
      RunIsSound(H, l, before);
      StepKeepsRevoked(H, Run(H, l, before), last, id);
    }
  }

  lemma {:induction false} RevokeRevokes(H: Hash, l: Ledger, agent: string, id: string, actor: string, nowMs: I64,
                                         io: Faults)
    requires Sound(H, l) && RevokeGrant(H, l, agent, id, actor, nowMs, io).1 == Ok(true)
    ensures RevokedFor(RevokeGrant(H, l, agent, id, actor, nowMs, io).0, id)
  {
    var gs := GrantsOf(l.mem, agent);
    var k := FindGrant(gs, id).value;
    var grants := l.mem.grants[agent := RevokeAll(gs, id)];
    var (l1, ok) := SaveGrants(l.(mem := l.mem.(grants := grants)), io.grants);
    PrincipalTouchesNoGrant(H, l1, actor, "grant.revoke", id + ARROW + agent, nowMs, io.log);
    RevokingRevokes(l.mem.grants, agent, k, id);
  }

  lemma {:induction false} RevokingRevokes(g: Grants, agent: string, k: nat, id: string)
    requires GrantsKept(g) && IsGrant(g, agent, k) && g[agent][k].id == id
    ensures Revoked(g[agent := RevokeAll(g[agent], id)], id)
  {
    var h: Grants := g[agent := RevokeAll(g[agent], id)];
    assert h[agent][k] in h[agent] && h[agent][k].id == id;
    forall a, i | IsIt(h, a, i, id) ensures h[a][i].revoked {
      assert IsGrant(g, a, i);
    }
  }

  lemma {:induction false} RevokedIsNotNamed(l: Ledger, input: ActionInput, c: Classification, nowMs: I64, id: string)
    requires MemKept(l.mem) && Revoked(l.mem.grants, id)
    ensures Decide(l, input, c, nowMs).grantId != Some(id)
  {
    var k := VerdictMeans(l, input, c, nowMs);
    var d := Decide(l, input, c, nowMs);
    if d.grantId == Some(id) {
      assert IsIt(l.mem.grants, input.agent, k, id);
    }
  }

  /** Once a revocation has been reported, no later decision, for any agent and after any
      failures, reloads and crashes, names the revoked grant. */
  lemma {:induction false} RevocationIsFinal(H: Hash, l: Ledger, agent: string, id: string, actor: string, nowMs: I64,
                                             io: Faults, steps: seq<Step>, input: ActionInput, c: Classification,
                                             later: I64)
    requires Sound(H, l) && RevokeGrant(H, l, agent, id, actor, nowMs, io).1 == Ok(true)
    ensures var m := Run(H, RevokeGrant(H, l, agent, id, actor, nowMs, io).0, steps);
            Revoked(m.mem.grants, id) && Decide(m, input, c, later).grantId != Some(id)
  {
    var l1 := RevokeGrant(H, l, agent, id, actor, nowMs, io).0;
    RevokeRevokes(H, l, agent, id, actor, nowMs, io);
    RevokeGrantIsSound(H, l, agent, id, actor, nowMs, io);
    RevokedForEver(H, l1, steps, id);
    RunIsSound(H, l1, steps);
    RevokedIsNotNamed(Run(H, l1, steps), input, c, later, id);
  }
}
