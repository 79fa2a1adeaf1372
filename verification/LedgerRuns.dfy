/** Whole runs of the ledger: any sequence of operations, write failures, reloads
    and restarts. A crash is a step whose later writes fail, then a restart. */
module LedgerRuns {
  import opened Basics
  import opened Audit
  import opened Policy
  import opened Store
  import opened Files
  import opened Ledger
  import opened LedgerSound
  import opened LedgerSteps
  import opened LedgerBudget

  datatype Step =
    | ActStep(input: ActionInput, nowMs: I64, io: Faults)
    | RejectStep(id: nat, nowMs: I64, io: Faults)
    | ApproveStep(id: nat, approver: string, nowMs: I64, io: Faults)
    | IssueStep(grant: GrantInput, nowMs: I64, io: Faults)
    | RevokeStep(agent: string, grantId: string, actor: string, nowMs: I64, io: Faults)
    | AllowStep(allowance: AllowanceInput, nowMs: I64, io: Faults)
    | VoteStep(allowanceId: string, class_: string, weight: U64, nowMs: I64, io: Faults)
    | DisallowStep(allowanceId: string, nowMs: I64, io: Faults)
    | PrincipalStep(principal: string, class_: string, detail: string, nowMs: I64, io: Faults)
    | OperatorStep(name: string, lands: bool)
    | ReloadStep(lands: bool)
    | RestartStep
    | ElsewhereFails

  /** The step, and whether its caller was told it succeeded. `ElsewhereFails` is a
      failed write of another tenant's operation, which degrades the whole backend. */
  function Apply(H: Hash, l: Ledger, s: Step): (Ledger, bool) {
    match s
    case ActStep(input, now, io) => var (m, r) := EvaluateAndRecord(H, l, input, now, io); (m, r.Ok?)
    case RejectStep(id, now, io) => var (m, r) := Reject(H, l, id, now, io); (m, r.Ok?)
    case ApproveStep(id, who, now, io) => var (m, r) := Approve(H, l, id, who, now, io); (m, r.Ok?)
    case IssueStep(g, now, io) => var (m, r) := IssueGrant(H, l, g, now, io); (m, r.Ok?)
    case RevokeStep(a, id, who, now, io) => var (m, r) := RevokeGrant(H, l, a, id, who, now, io); (m, r.Ok?)
    case AllowStep(a, now, io) => var (m, r) := IssueAllowance(H, l, a, now, io); (m, r.Ok?)
    case VoteStep(id, c, w, now, io) => var (m, r) := CastVote(H, l, id, c, w, now, io); (m, r.Ok?)
    case DisallowStep(id, now, io) => var (m, r) := RevokeAllowance(H, l, id, now, io); (m, r.Ok?)
    case PrincipalStep(who, c, detail, now, io) =>
      var (m, r) := RecordPrincipal(H, l, who, c, detail, now, io.log); (m, r.Ok?)
    case OperatorStep(name, lands) => var (m, r) := SetOperator(l, name, lands); (m, r.Ok?)
    case ReloadStep(lands) => var (m, r) := SetActive(H, l, lands); (m, r.Ok?)
    case RestartStep => (Restart(H, l), true)
    case ElsewhereFails => (l.(degraded := l.degraded || l.disk.Some?), false)
  }

  function Run(H: Hash, l: Ledger, steps: seq<Step>): Ledger {
    if steps == [] then l
    else Apply(H, Run(H, l, steps[..|steps| - 1]), steps[|steps| - 1]).0
  }

  // ---- soundness --------------------------------------------------------

  lemma {:induction false} OperatorIsSound(H: Hash, l: Ledger, name: string, lands: bool)
    requires Sound(H, l)
    ensures Sound(H, SetOperator(l, name, lands).0)
  {
    PhaseIsSound(H, l, SetOperator(l, name, lands).0);
  }

  lemma {:induction false} ApplyIsSound(H: Hash, l: Ledger, s: Step)
    requires Sound(H, l)
    ensures Sound(H, Apply(H, l, s).0)
  {
    match s {
      case ActStep(input, now, io) => EvaluateIsSound(H, l, input, now, io);
      case RejectStep(id, now, io) => RejectIsSound(H, l, id, now, io);
      case ApproveStep(id, who, now, io) => ApproveIsSound(H, l, id, who, now, io);
      case IssueStep(g, now, io) => IssueGrantIsSound(H, l, g, now, io);
      case RevokeStep(a, id, who, now, io) => RevokeGrantIsSound(H, l, a, id, who, now, io);
      case AllowStep(a, now, io) => IssueAllowanceIsSound(H, l, a, now, io);
      case VoteStep(id, c, w, now, io) => CastVoteIsSound(H, l, id, c, w, now, io);
      case DisallowStep(id, now, io) => RevokeAllowanceIsSound(H, l, id, now, io);
      case PrincipalStep(who, c, detail, now, io) => RecordPrincipalIsSound(H, l, who, c, detail, now, io.log);
      case OperatorStep(name, lands) => OperatorIsSound(H, l, name, lands);
      case ReloadStep(lands) => SetActiveIsSound(H, l, lands);
      case RestartStep => RestartIsSound(H, l);
      case ElsewhereFails => PhaseIsSound(H, l, l.(degraded := l.degraded || l.disk.Some?));
    }
  }

  /** Write-through refinement: every ledger reachable from a sound one is sound.
      While no write has failed the files hold exactly the working set; after a
      failed write the log on disk is the chain or the chain without its last record. */
  lemma {:induction false} RunIsSound(H: Hash, l: Ledger, steps: seq<Step>)
    requires Sound(H, l)
    ensures Sound(H, Run(H, l, steps))
  {
    if steps != [] {
      RunIsSound(H, l, steps[..|steps| - 1]);
      ApplyIsSound(H, Run(H, l, steps[..|steps| - 1]), steps[|steps| - 1]);
    }
  }

  // ---- the budget over clean runs ---------------------------------------

  predicate IsReload(s: Step) {
    s.ReloadStep? || s.RestartStep?
  }

  /** Files are read back only while no write has failed: no crash lost anything. */
  predicate CleanReloads(H: Hash, l: Ledger, steps: seq<Step>) {
    steps == [] ||
    var n := |steps| - 1;
    CleanReloads(H, l, steps[..n]) && (IsReload(steps[n]) ==> !Run(H, l, steps[..n]).degraded)
  }

  lemma {:induction false} ApplyIsClean(H: Hash, l: Ledger, s: Step)
    requires Sound(H, l) && Clean(l.mem)
    requires IsReload(s) ==> !l.degraded
    ensures Clean(Apply(H, l, s).0.mem)
  {
    match s {
      case ActStep(input, now, io) => EvaluateIsClean(H, l, input, now, io);
      case RejectStep(id, now, io) => RejectIsClean(H, l, id, now, io);
      case ApproveStep(id, who, now, io) => ApproveIsClean(H, l, id, who, now, io);
      case IssueStep(g, now, io) => IssueGrantIsClean(H, l, g, now, io);
      case RevokeStep(a, id, who, now, io) => RevokeGrantIsClean(H, l, a, id, who, now, io);
      case AllowStep(a, now, io) => IssueAllowanceIsClean(H, l, a, now, io);
      case VoteStep(id, c, w, now, io) => CastVoteIsClean(H, l, id, c, w, now, io);
      case DisallowStep(id, now, io) => RevokeAllowanceIsClean(H, l, id, now, io);
      case PrincipalStep(who, c, detail, now, io) => PrincipalIsClean(H, l, who, c, detail, now, io.log);
      case OperatorStep(name, lands) =>
      case ReloadStep(lands) => if l.disk.Some? { CleanRestartIsIdentity(H, l); }
      case RestartStep => if l.disk.Some? { CleanRestartIsIdentity(H, l); }
      case ElsewhereFails =>
    }
  }

  /** Conservation: at every return of every step, failed writes included, each grant has
      consumed exactly its outstanding charges, within its budget, as long as files are
      read back only while no write has failed. */
  lemma {:induction false} RunIsClean(H: Hash, l: Ledger, steps: seq<Step>)
    requires Sound(H, l) && Clean(l.mem) && CleanReloads(H, l, steps)
    ensures Clean(Run(H, l, steps).mem) && GrantsKept(Run(H, l, steps).mem.grants)
  {
    if steps != [] {
      var n := |steps| - 1;
      RunIsClean(H, l, steps[..n]);
      RunIsSound(H, l, steps[..n]);
      ApplyIsClean(H, Run(H, l, steps[..n]), steps[n]);
      ApplyIsSound(H, Run(H, l, steps[..n]), steps[n]);
    }
  }

  /** A first start on an empty store is sound and clean. */
  lemma {:induction false} FirstStart(H: Hash, tenant: string)
    requires !Blank(tenant)
    ensures Sound(H, Initial(H, tenant)) && Clean(Initial(H, tenant).mem)
  {
    InitialIsSound(H, tenant);
    InitialIsClean(H, tenant);
  }
}
