/** Concrete runs from a first start: what one or two crashes can do to an approval and a
    refusal, and a controlled level that a spelling slips past. */
module LedgerExample {
  import opened Basics
  import opened Audit
  import opened Policy
  import opened Store
  import opened Files
  import opened Ledger
  import opened LedgerSound
  import opened LedgerSteps
  import opened LedgerBudget
  import opened LedgerRuns
  import opened LedgerAnswers
  import opened LedgerRecords
  import opened LedgerCrash
  import opened LedgerBooks
  import opened LedgerRefusal
  import opened LedgerQuestions
  import opened LedgerApproval
  import opened LedgerEgress
  import opened LedgerStanding

  /** A grant that asks every time, signed by this person. */
  function Issue(who: string): GrantInput {
    GrantInput("G-1", "agent", who, who, "t", ["x"], "Public", 10, 100, "1")
  }

  function Grant(who: string, spent: U64): CapabilityGrant {
    CapabilityGrant("G-1", "agent", who, "t", ["x"], Public, 10, spent, 100, GrantHic.ApproveEach, false)
  }

  const INPUT: ActionInput := ActionInput("agent", None, "x", "Public", 1, 0, false, "", "m", "")

  /** An agent nobody gave a grant. */
  const STRANGER: ActionInput := INPUT.(agent := "stranger")

  // ---- a first grant ----------------------------------------------------

  /** A running ledger with the settings it started with. */
  ghost predicate AsStarted(H: Hash, l: Ledger) {
    && Sound(H, l) && l.disk.Some? && !l.degraded && l.operator == None && l.egress == DEFAULT_EGRESS
    && l.disk.value.operator == None && l.disk.value.egress == DEFAULT_EGRESS
  }

  lemma {:induction false} PrincipalLands(H: Hash, l: Ledger, who: string, class_: string, detail: string, nowMs: I64)
    requires !l.degraded && l.disk.Some? && !Blank(who)
    ensures var (m, r) := RecordPrincipal(H, l, who, class_, detail, nowMs, LogDone);
            && r.Ok? && !m.degraded && SameSettings(l, m) && m.mem == l.mem.(chain := m.mem.chain)
            && |m.mem.chain.entries| == |l.mem.chain.entries| + 1
  {
  }

  lemma {:induction false} IssueLands(H: Hash, l: Ledger, input: GrantInput, c: Classification, nowMs: I64)
    requires !l.degraded && l.disk.Some? && !Blank(input.issuedBy)
    requires ClassificationFromStr(input.ceiling) == Some(c) && !HasGrant(l.mem.grants, input.id)
    ensures var m := IssueGrant(H, l, input, nowMs, ALL_LAND).0;
            && !m.degraded && SameSettings(l, m) && |m.mem.chain.entries| == |l.mem.chain.entries| + 1
            && m.mem.grants == l.mem.grants[input.agent := GrantsOf(l.mem, input.agent) + [NewGrant(input, c)]]
            && m.mem.pending == l.mem.pending && m.mem.resolved == l.mem.resolved && m.mem.charges == l.mem.charges
  {
    var gs := GrantsOf(l.mem, input.agent) + [NewGrant(input, c)];
    var l2 := SaveGrants(l.(mem := l.mem.(grants := l.mem.grants[input.agent := gs])), true).0;
    PrincipalLands(H, l2, input.issuedBy, "grant.issue", input.id + ARROW + input.agent, nowMs);
  }

  lemma {:induction false} FirstIssue(H: Hash, tenant: string, input: GrantInput, c: Classification)
    requires !Blank(tenant) && !Blank(input.issuedBy) && ClassificationFromStr(input.ceiling) == Some(c)
    ensures var l := Run(H, Initial(H, tenant), [IssueStep(input, 0, ALL_LAND)]);
            && AsStarted(H, l) && Running(H, l) && |l.mem.chain.entries| == 1
            && l.mem.grants == map[input.agent := [NewGrant(input, c)]]
            && l.mem.pending == map[] && l.mem.resolved == map[] && l.mem.charges == map[]
  {
    var start := Initial(H, tenant);
    RunIssue(H, start, input);
    FirstStart(H, tenant);
    IssueGrantIsSound(H, start, input, 0, ALL_LAND);
    IssueGrantIsClean(H, start, input, 0, ALL_LAND);
    FirstIssueLands(H, tenant, input, c);
  }

  lemma {:induction false} FirstIssueLands(H: Hash, tenant: string, input: GrantInput, c: Classification)
    requires !Blank(input.issuedBy) && ClassificationFromStr(input.ceiling) == Some(c)
    ensures var l := IssueGrant(H, Initial(H, tenant), input, 0, ALL_LAND).0;
            && !l.degraded && l.disk.Some? && l.operator == None && l.egress == DEFAULT_EGRESS
            && l.disk.value.operator == None && l.disk.value.egress == DEFAULT_EGRESS
            && |l.mem.chain.entries| == 1
            && l.mem.grants == map[input.agent := [NewGrant(input, c)]]
            && l.mem.pending == map[] && l.mem.resolved == map[] && l.mem.charges == map[]
  {
    NothingGranted(H, tenant, input, c);
    IssueLands(H, Initial(H, tenant), input, c, 0);
  }

  lemma {:induction false} NothingGranted(H: Hash, tenant: string, input: GrantInput, c: Classification)
    ensures !HasGrant(Initial(H, tenant).mem.grants, input.id)
    ensures GrantsOf(Initial(H, tenant).mem, input.agent) + [NewGrant(input, c)] == [NewGrant(input, c)]
  {
  }

  lemma {:induction false} RunIssue(H: Hash, l: Ledger, input: GrantInput)
    ensures Run(H, l, [IssueStep(input, 0, ALL_LAND)]) == IssueGrant(H, l, input, 0, ALL_LAND).0
  {
    var s := IssueStep(input, 0, ALL_LAND);
    RunAfter(H, l, [], s);
    assert [] + [s] == [s];
  }

  /** The agent's one grant, with some of its ten units spent. */
  predicate Ready(l: Ledger, who: string, spent: U64) {
    GrantsOf(l.mem, "agent") == [Grant(who, spent)] && "stranger" !in l.mem.grants
    && l.egress == DEFAULT_EGRESS
  }

  lemma {:induction false} PublicIsFree()
    ensures ClassificationFromStr("Public") == Some(Public) && DEFAULT_EGRESS.Permits("Public", "m")
  {
    ClassificationRoundTrip(Public);
    assert |"CUI"| == 3 && |"ITAR"| == 4 && |"Public"| == 6;
    assert "Public" !in ["CUI", "ITAR"];
  }

  lemma {:induction false} ReadyEscalates(l: Ledger, who: string, spent: U64) returns (d: Decision)
    requires Ready(l, who, spent) && spent < 10
    ensures Decides(l, INPUT, 0, d, 0) && d.verdict == RequireApproval && d.grantId == Some("G-1")
  {
    PublicIsFree();
    d := Decide(l, INPUT, Public, 0);
    assert GrantsOf(l.mem, "agent")[0] == Grant(who, spent);
    assert "x" in ["x"];
  }

  lemma {:induction false} StrangerIsUngoverned(l: Ledger)
    requires "stranger" !in l.mem.grants
    ensures ClassificationFromStr(STRANGER.classification) == Some(Public)
    ensures Decide(l, STRANGER, Public, 0).verdict == Verdict.Ungoverned
  {
    PublicIsFree();
    assert GrantsOf(l.mem, "stranger") == [];
  }

  // ---- a crash that leaves a question behind -----------------------------

  /** Restarting keeps the egress policy and the operator that are on disk. */
  lemma {:induction false} RestartKeepsPolicy(H: Hash, m: Ledger)
    requires m.disk.Some?
    ensures Restart(H, m).operator == m.disk.value.operator
    ensures Restart(H, m).egress == m.disk.value.egress
  {
  }

  /** Only this decision is charged or waits, and none is answered. */
  predicate OnlyAt(s: Slice, id: nat) {
    s.charges.Keys <= {id} && s.pending.Keys <= {id} && s.resolved == map[]
  }

  lemma {:induction false} StillOnRecord(s: Slice, t: Slice, id: nat)
    requires OnlyAt(s, id) && id < |t.chain.entries|
    requires t.charges == s.charges && t.pending == s.pending && t.resolved == s.resolved
    ensures OnRecord(t)
  {
  }

  lemma {:induction false} HauntReady(H: Hash, l: Ledger, who: string) returns (h: Ledger)
    requires Running(H, l) && AsStarted(H, l) && Ready(l, who, 0)
    requires l.mem.charges == map[] && l.mem.pending == map[] && l.mem.resolved == map[]
    ensures h == Restart(H, EvaluateAndRecord(H, l, INPUT, 0, RECORD_LOST).0)
    ensures Haunted(H, h, |l.mem.chain.entries|) && Ready(h, who, 1) && AsStarted(H, h)
    ensures OnlyAt(h.mem, |l.mem.chain.entries|)
  {
    var d := ReadyEscalates(l, who, 0);
    EvaluateAside(H, l, INPUT, 0, RECORD_LOST);
    var m := EvaluateAndRecord(H, l, INPUT, 0, RECORD_LOST).0;
    RestartKeepsPolicy(H, m);
    LostRecordHaunts(H, l, INPUT, 0, d, 0);
    LostRecordReads(H, l, INPUT, 0, d, 0);
    h := Restart(H, m);
    RestartRuns(H, m);
    ReadyAfter(l, h, who, |l.mem.chain.entries|);
  }

  lemma {:induction false} ReadyAfter(l: Ledger, h: Ledger, who: string, id: nat)
    requires Ready(l, who, 0) && h.egress == DEFAULT_EGRESS
    requires h.mem.grants == Charged(l.mem, "agent", 0, id, 1).grants
    ensures Ready(h, who, 1)
  {
    assert GrantsOf(h.mem, "agent") == [Grant(who, 1)];
  }

  /** What a new process reads of grants, charges and questions after a lost record. */
  lemma {:induction false} LostRecordReads(H: Hash, l: Ledger, input: ActionInput, nowMs: I64, d: Decision, k: nat)
    requires Up(H, l) && Decides(l, input, nowMs, d, k) && d.verdict == RequireApproval && d.grantId.Some?
    ensures var r := Restart(H, EvaluateAndRecord(H, l, input, nowMs, RECORD_LOST).0).mem;
            var id := |l.mem.chain.entries|;
            && r.grants == Charged(l.mem, input.agent, k, id, ChargeFor(input.cost)).grants
            && r.charges == Charged(l.mem, input.agent, k, id, ChargeFor(input.cost)).charges
            && r.pending == l.mem.pending[id := QuestionOf(input, id, nowMs)] && r.resolved == l.mem.resolved
  {
    EvaluateIsSound(H, l, input, nowMs, RECORD_LOST);
    EvaluateOnDisk(H, l, input, nowMs, d, k, RECORD_LOST);
    RestartReads(H, EvaluateAndRecord(H, l, input, nowMs, RECORD_LOST).0);
  }

  function Issued(who: string): seq<Step> {
    [IssueStep(Issue(who), 0, ALL_LAND)]
  }

  /** Issue a grant; act under it, and crash before the record; restart. */
  function Haunting(who: string): seq<Step> {
    Issued(who) + [ActStep(INPUT, 0, RECORD_LOST)] + [RestartStep]
  }

  lemma {:induction false} TwoMore(H: Hash, l: Ledger, steps: seq<Step>, s: Step, t: Step)
    ensures Run(H, l, steps + [s] + [t]) == Apply(H, Apply(H, Run(H, l, steps), s).0, t).0
  {
    RunAfter(H, l, steps, s);
    RunAfter(H, l, steps + [s], t);
  }

  lemma {:induction false} ActThenRestart(H: Hash, l: Ledger, steps: seq<Step>, input: ActionInput, io: Faults)
    ensures Run(H, l, steps + [ActStep(input, 0, io)] + [RestartStep])
            == Restart(H, EvaluateAndRecord(H, Run(H, l, steps), input, 0, io).0)
  {
    TwoMore(H, l, steps, ActStep(input, 0, io), RestartStep);
  }

  lemma {:induction false} RejectThenRestart(H: Hash, l: Ledger, steps: seq<Step>, id: nat, io: Faults)
    ensures Run(H, l, steps + [RejectStep(id, 0, io)] + [RestartStep])
            == Restart(H, Reject(H, Run(H, l, steps), id, 0, io).0)
  {
    TwoMore(H, l, steps, RejectStep(id, 0, io), RestartStep);
  }

  lemma {:induction false} ActThenApprove(H: Hash, l: Ledger, steps: seq<Step>, input: ActionInput, id: nat, who: string,
                                          io: Faults)
    ensures var acted := EvaluateAndRecord(H, Run(H, l, steps), input, 0, io).0;
            && Run(H, l, steps + [ActStep(input, 0, io)]) == acted
            && Run(H, l, steps + [ActStep(input, 0, io)] + [ApproveStep(id, who, 0, io)])
               == Approve(H, acted, id, who, 0, io).0
  {
    RunAfter(H, l, steps, ActStep(input, 0, io));
    TwoMore(H, l, steps, ActStep(input, 0, io), ApproveStep(id, who, 0, io));
  }

  lemma {:induction false} ApproveThenAct(H: Hash, l: Ledger, steps: seq<Step>, input: ActionInput, id: nat, who: string,
                                          io: Faults)
    ensures Run(H, l, steps + [ApproveStep(id, who, 0, io)] + [ActStep(input, 0, io)])
            == EvaluateAndRecord(H, Approve(H, Run(H, l, steps), id, who, 0, io).0, input, 0, io).0
  {
    TwoMore(H, l, steps, ApproveStep(id, who, 0, io), ActStep(input, 0, io));
  }

  lemma {:induction false} IssuedReady(H: Hash, tenant: string, who: string)
    requires !Blank(tenant) && !Blank(who)
    ensures var l := Run(H, Initial(H, tenant), Issued(who));
            Running(H, l) && AsStarted(H, l) && Ready(l, who, 0) && |l.mem.chain.entries| == 1
            && l.mem.charges == map[] && l.mem.pending == map[] && l.mem.resolved == map[]
  {
    PublicIsFree();
    FirstIssue(H, tenant, Issue(who), Public);
    assert NewGrant(Issue(who), Public) == Grant(who, 0);
    assert |"agent"| == 5 && |"stranger"| == 8;
  }

  lemma {:induction false} HauntingHaunts(H: Hash, tenant: string, who: string)
    requires !Blank(tenant) && !Blank(who)
    ensures var h := Run(H, Initial(H, tenant), Haunting(who));
            Haunted(H, h, 1) && Ready(h, who, 1) && AsStarted(H, h) && OnlyAt(h.mem, 1)
  {
    IssuedReady(H, tenant, who);
    var h := HauntReady(H, Run(H, Initial(H, tenant), Issued(who)), who);
    ActThenRestart(H, Initial(H, tenant), Issued(who), INPUT, RECORD_LOST);
  }

  // ---- a charge filed over another --------------------------------------

  lemma {:induction false} ActOnce(H: Hash, l: Ledger, steps: seq<Step>, s: Step)
    requires TakesCharge(Run(H, l, steps), s) && !Conserved(Apply(H, Run(H, l, steps), s).0.mem)
    ensures !Conserved(Run(H, l, steps + [s]).mem)
  {
    RunAfter(H, l, steps, s);
  }

  /** One crash before a record, and acting again leaves the budget out of balance with
      every write since landing. */
  lemma {:induction false} OverchargedExample(H: Hash, tenant: string, who: string)
    requires !Blank(tenant) && !Blank(who)
    ensures Conserved(Run(H, Initial(H, tenant), Haunting(who)).mem)
    ensures !Conserved(Run(H, Initial(H, tenant), Haunting(who) + [ActStep(INPUT, 0, ALL_LAND)]).mem)
  {
    var start := Initial(H, tenant);
    var issued := Run(H, start, Issued(who));
    IssuedReady(H, tenant, who);
    HauntingHaunts(H, tenant, who);
    ActThenRestart(H, start, Issued(who), INPUT, RECORD_LOST);
    var d := ReadyEscalates(issued, who, 0);
    var again := ActStep(INPUT, 0, ALL_LAND);
    ReadyIsCharged(Run(H, start, Haunting(who)), who, 1, ALL_LAND);
    NextChargeOverwrites(H, issued, INPUT, 0, d, 0, again);
    ActOnce(H, start, Haunting(who), again);
  }

  lemma {:induction false} ReadyIsCharged(l: Ledger, who: string, spent: U64, io: Faults)
    requires Ready(l, who, spent) && spent < 10 && !l.degraded
    ensures TakesCharge(l, ActStep(INPUT, 0, io))
  {
    var d := ReadyEscalates(l, who, spent);
  }

  // ---- an action that takes the next id ----------------------------------

  /** With every write landing, an action is recorded under the next id, and waits only
      if it was escalated. */
  lemma {:induction false} ActionLands(H: Hash, l: Ledger, input: ActionInput, nowMs: I64, d: Decision, k: nat)
    requires Sound(H, l) && l.disk.Some? && !l.degraded && Decides(l, input, nowMs, d, k)
    ensures var (m, r) := EvaluateAndRecord(H, l, input, nowMs, ALL_LAND);
            var id := |l.mem.chain.entries|;
            && r.Ok? && r.value.decisionId == id && r.value.verdict == d.verdict && !m.degraded
            && |m.mem.chain.entries| == id + 1 && m.mem.chain.entries[id].record.verdict == d.verdict
            && m.mem.resolved == l.mem.resolved && (d.grantId.None? ==> m.mem.charges == l.mem.charges)
            && m.mem.pending == (if d.verdict == RequireApproval then l.mem.pending[id := QuestionOf(input, id, nowMs)]
                                 else l.mem.pending)
  {
    var c := ClassificationFromStr(input.classification).value;
    EvaluateAppends(H, l, input, c, nowMs);
    var r := ActionRecord(input, d, Accountable(l, input.agent, d.grantId), nowMs);
    var n := l.(mem := l.mem.(chain := Append(H, l.mem.chain, r).value));
    EffectsAllLand(n, input, d, k, |l.mem.chain.entries|, nowMs);
    EvaluateAllOrNothing(H, l, input, nowMs, ALL_LAND);
  }

  /** Approve a question about nothing on record, and the next action takes the approval:
      one the policy denied or left ungoverned is reported approved at once. */
  lemma {:induction false} ActionTakesTheApproval(H: Hash, l: Ledger, id: nat, who: string, input: ActionInput,
                                                  nowMs: I64, d: Decision, k: nat)
    requires Haunted(H, l, id) && !Blank(who) && MatchesOperator(l.operator, who)
    requires Decides(Approve(H, l, id, who, nowMs, ALL_LAND).0, input, nowMs, d, k)
    ensures var filed := Approve(H, l, id, who, nowMs, ALL_LAND).0;
            var (m, r) := EvaluateAndRecord(H, filed, input, nowMs, ALL_LAND);
            && r.Ok? && r.value.decisionId == id && r.value.verdict == d.verdict
            && DecisionStatus(m.mem, id) == Some(if d.verdict == RequireApproval then Waiting else Granted)
            && (Escalated(m, id) <==> d.verdict == RequireApproval)
  {
    var filed := Approve(H, l, id, who, nowMs, ALL_LAND).0;
    ApprovingANonDecision(H, l, id, who, nowMs);
    ApproveIsSound(H, l, id, who, nowMs, ALL_LAND);
    LeavesTheQueue(H, l, id, who, nowMs);
    ActionLands(H, filed, input, nowMs, d, k);
  }

  lemma {:induction false} LeavesTheQueue(H: Hash, l: Ledger, id: nat, who: string, nowMs: I64)
    requires Haunted(H, l, id) && !Blank(who) && MatchesOperator(l.operator, who)
    ensures id !in Approve(H, l, id, who, nowMs, ALL_LAND).0.mem.pending
  {
    AnswerFiles(l, id, SaidYes, ALL_LAND);
  }

  /** Let another action take the id first, and approving the old question, now about a
      decision on record, succeeds and approves that action. */
  lemma {:induction false} ApprovalTakesTheAction(H: Hash, l: Ledger, id: nat, who: string, input: ActionInput,
                                                  nowMs: I64, d: Decision, k: nat)
    requires Haunted(H, l, id) && !Blank(who) && MatchesOperator(l.operator, who)
    requires Decides(l, input, nowMs, d, k) && d.verdict != RequireApproval
    ensures var taken := EvaluateAndRecord(H, l, input, nowMs, ALL_LAND).0;
            && id < |taken.mem.chain.entries| && id in taken.mem.pending && !taken.degraded
            && taken.mem.pending == l.mem.pending && taken.mem.resolved == l.mem.resolved
            && (d.grantId.None? ==> taken.mem.charges == l.mem.charges)
            && MatchesOperator(taken.operator, who)
            && DecisionStatus(Approve(H, taken, id, who, nowMs, ALL_LAND).0.mem, id) == Some(Granted)
            && !Escalated(Approve(H, taken, id, who, nowMs, ALL_LAND).0, id)
  {
    var taken := EvaluateAndRecord(H, l, input, nowMs, ALL_LAND).0;
    ActionLands(H, l, input, nowMs, d, k);
    EvaluateAside(H, l, input, nowMs, ALL_LAND);
    AnswerFiles(taken, id, SaidYes, ALL_LAND);
    var (t1, e) := AnswerPhase(taken, id, SaidYes, ALL_LAND);
    CommitRecords(H, t1, taken.mem.chain.entries[id].record.(
                           principal := Some(who), verdict := Verdict.Approved,
                           hic := HicLevel.ApproveEach, timestampMs := nowMs),
                  RC301(who, taken.mem.pending[id].agent), LogDone);
    var m := Approve(H, taken, id, who, nowMs, ALL_LAND).0;
    assert m.mem.chain.entries[..|taken.mem.chain.entries|][id] == taken.mem.chain.entries[id];
  }

  function ApproveIt(who: string): Step {
    ApproveStep(1, who, 0, ALL_LAND)
  }

  /** Approve what the crash left behind, then let the stranger act. */
  function Taken(who: string): seq<Step> {
    Haunting(who) + [ApproveIt(who)] + [ActStep(STRANGER, 0, ALL_LAND)]
  }

  /** Let the stranger act, then approve what the crash left behind. */
  function Mistaken(who: string): seq<Step> {
    Haunting(who) + [ActStep(STRANGER, 0, ALL_LAND)] + [ApproveIt(who)]
  }

  lemma {:induction false} ApprovedStaysReady(H: Hash, h: Ledger, id: nat, who: string)
    requires Haunted(H, h, id) && Ready(h, who, 1) && !Blank(who) && MatchesOperator(h.operator, who)
    ensures Ready(Approve(H, h, id, who, 0, ALL_LAND).0, who, 1)
  {
    ApprovingANonDecision(H, h, id, who, 0);
  }

  /** The stranger's ungoverned action is reported approved. */
  lemma {:induction false} TakenExample(H: Hash, tenant: string, who: string)
    requires !Blank(tenant) && !Blank(who)
    ensures var m := Run(H, Initial(H, tenant), Taken(who));
            DecisionStatus(m.mem, 1) == Some(Granted) && !Escalated(m, 1)
  {
    var start := Initial(H, tenant);
    var h := Run(H, start, Haunting(who));
    HauntingHaunts(H, tenant, who);
    ApprovedStaysReady(H, h, 1, who);
    var filed := Approve(H, h, 1, who, 0, ALL_LAND).0;
    StrangerIsUngoverned(filed);
    var d := Decide(filed, STRANGER, Public, 0);
    var k := DecisionNamesPayingGrant(filed, STRANGER, Public, 0);
    ActionTakesTheApproval(H, h, 1, who, STRANGER, 0, d, k);
    ApproveThenAct(H, start, Haunting(who), STRANGER, 1, who, ALL_LAND);
  }

  /** So is it when the old question is approved after the action took its id. At that
      moment every charge, question and answer belongs to a recorded decision, and
      nothing looks amiss but whose question it is. */
  lemma {:induction false} MistakenExample(H: Hash, tenant: string, who: string)
    requires !Blank(tenant) && !Blank(who)
    ensures var m := Run(H, Initial(H, tenant), Mistaken(who));
            DecisionStatus(m.mem, 1) == Some(Granted) && !Escalated(m, 1)
    ensures var before := Run(H, Initial(H, tenant), Haunting(who) + [ActStep(STRANGER, 0, ALL_LAND)]);
            OnRecord(before.mem) && 1 < |before.mem.chain.entries| && 1 in before.mem.pending && !before.degraded
  {
    var start := Initial(H, tenant);
    var h := Run(H, start, Haunting(who));
    HauntingHaunts(H, tenant, who);
    StrangerIsUngoverned(h);
    var d := Decide(h, STRANGER, Public, 0);
    var k := DecisionNamesPayingGrant(h, STRANGER, Public, 0);
    ApprovalTakesTheAction(H, h, 1, who, STRANGER, 0, d, k);
    StillOnRecord(h.mem, EvaluateAndRecord(H, h, STRANGER, 0, ALL_LAND).0.mem, 1);
    ActThenApprove(H, start, Haunting(who), STRANGER, 1, who, ALL_LAND);
  }

  // ---- a refusal that two crashes turn into an approval -------------------

  /** Approve what the crash left behind, then let the agent act again. */
  function Asked(who: string): seq<Step> {
    Haunting(who) + [ApproveIt(who)] + [ActStep(INPUT, 0, ALL_LAND)]
  }

  /** Refuse that, and crash before the answer is saved. */
  function Rejected(who: string): seq<Step> {
    Asked(who) + [RejectStep(1, 0, ANSWER_LOST)] + [RestartStep]
  }

  lemma {:induction false} AskedExample(H: Hash, tenant: string, who: string)
    requires !Blank(tenant) && !Blank(who)
    ensures var asked := Run(H, Initial(H, tenant), Asked(who));
            && DecisionStatus(asked.mem, 1) == Some(Waiting) && Escalated(asked, 1)
            && DecisionStatus(Restart(H, Reject(H, asked, 1, 0, ANSWER_LOST).0).mem, 1) == Some(Granted)
  {
    var start := Initial(H, tenant);
    var h := Run(H, start, Haunting(who));
    HauntingHaunts(H, tenant, who);
    ApprovedStaysReady(H, h, 1, who);
    var filed := Approve(H, h, 1, who, 0, ALL_LAND).0;
    var d := ReadyEscalates(filed, who, 1);
    ActionTakesTheApproval(H, h, 1, who, INPUT, 0, d, 0);
    var filed', asked, refused := RefusalLostToCrashes(H, h, 1, INPUT, who, 0, d, 0);
    ApproveThenAct(H, start, Haunting(who), INPUT, 1, who, ALL_LAND);
  }

  /** The second decision of a first start: escalated and waiting, then refused, then,
      after the crash, approved. */
  lemma {:induction false} RefusalLostExample(H: Hash, tenant: string, who: string)
    requires !Blank(tenant) && !Blank(who)
    ensures var asked := Run(H, Initial(H, tenant), Asked(who));
            DecisionStatus(asked.mem, 1) == Some(Waiting) && Escalated(asked, 1)
    ensures DecisionStatus(Run(H, Initial(H, tenant), Rejected(who)).mem, 1) == Some(Granted)
  {
    AskedExample(H, tenant, who);
    RejectThenRestart(H, Initial(H, tenant), Asked(who), 1, ANSWER_LOST);
  }

  // ---- an approval that filed nothing ------------------------------------

  /** The queue write fails, so nothing else is written. */
  const QUEUE_LOST: Faults := Faults(true, true, false, true, true, true, LogDone)

  /** An approval whose queue write fails returns an error, and after a restart it never
      happened. */
  lemma {:induction false} UnfiledApprovalIsUndone(H: Hash, l: Ledger, id: nat, who: string, nowMs: I64)
    requires Up(H, l) && id in l.mem.pending && !Blank(who) && MatchesOperator(l.operator, who)
    ensures var (m, r) := Approve(H, l, id, who, nowMs, QUEUE_LOST);
            r == Err(WriteFailed) && Restart(H, m) == l
  {
    var m := Approve(H, l, id, who, nowMs, QUEUE_LOST).0;
    assert m.disk == l.disk && m.tenant == l.tenant;
    SameDiskSameRestart(H, l, m);
    CleanRestartIsIdentity(H, l);
  }

  lemma {:induction false} SameDiskSameRestart(H: Hash, l: Ledger, m: Ledger)
    requires m.disk == l.disk && m.tenant == l.tenant && l.disk.Some?
    ensures Restart(H, m) == Restart(H, l)
  {
  }

  /** Approve that escalation, but the queue write fails; refuse it, and the answer write
      fails. */
  function Unfiled(who: string): seq<Step> {
    Asked(who) + [ApproveStep(1, who, 0, QUEUE_LOST)] + [RestartStep] + [RejectStep(1, 0, ANSWER_LOST)] + [RestartStep]
  }

  lemma {:induction false} OriginAfterOne(H: Hash, l: Ledger, steps: seq<Step>, s: Step, id: nat)
    ensures OriginAfter(H, l, steps + [s], id)
            == OriginStep(Run(H, l, steps), s, |steps|, id, OriginAfter(H, l, steps, id))
  {
    assert (steps + [s])[..|steps|] == steps;
  }

  lemma {:induction false} OriginAfterRestart(H: Hash, l: Ledger, steps: seq<Step>, s: Step, id: nat)
    requires Run(H, l, steps + [s]).disk.Some?
    ensures var o := OriginAfter(H, l, steps + [s], id).disk;
            OriginAfter(H, l, steps + [s] + [RestartStep], id) == Origin(o, o)
  {
    OriginAfterOne(H, l, steps + [s], RestartStep, id);
  }

  lemma {:induction false} LostApprovalKeepsOrigin(l: Ledger, id: nat, who: string, n: nat, o: Origin)
    requires l.disk.Some? && id in l.mem.pending
    ensures OriginStep(l, ApproveStep(id, who, 0, QUEUE_LOST), n, id, o) == o
  {
  }

  lemma {:induction false} LostRefusalKeepsOnDisk(l: Ledger, id: nat, n: nat, o: Origin)
    ensures OriginStep(l, RejectStep(id, 0, ANSWER_LOST), n, id, o).disk == o.disk
  {
  }

  lemma {:induction false} FiledApprovalIsOrigin(l: Ledger, id: nat, who: string, n: nat, o: Origin)
    requires !l.degraded && id in l.mem.pending && !Blank(who) && MatchesOperator(l.operator, who)
    ensures OriginStep(l, ApproveStep(id, who, 0, ALL_LAND), n, id, o) == Origin(Some(n), Some(n))
  {
  }

  lemma {:induction false} ActingKeepsOrigin(l: Ledger, input: ActionInput, id: nat, n: nat, o: Origin)
    ensures OriginStep(l, ActStep(input, 0, ALL_LAND), n, id, o) == o
  {
  }

  /** What a poll reads of the id then is the approval given before the action. */
  lemma {:induction false} AskedOrigin(H: Hash, tenant: string, who: string)
    requires !Blank(tenant) && !Blank(who)
    ensures var n := |Haunting(who)|; OriginAfter(H, Initial(H, tenant), Asked(who), 1) == Origin(Some(n), Some(n))
  {
    var start := Initial(H, tenant);
    var n := |Haunting(who)|;
    HauntingHaunts(H, tenant, who);
    OriginAfterOne(H, start, Haunting(who), ApproveIt(who), 1);
    FiledApprovalIsOrigin(Run(H, start, Haunting(who)), 1, who, n, OriginAfter(H, start, Haunting(who), 1));
    OriginAfterOne(H, start, Haunting(who) + [ApproveIt(who)], ActStep(INPUT, 0, ALL_LAND), 1);
    ActingKeepsOrigin(Run(H, start, Haunting(who) + [ApproveIt(who)]), INPUT, 1, n + 1, Origin(Some(n), Some(n)));
  }

  lemma {:induction false} AskedIsUp(H: Hash, tenant: string, who: string)
    requires !Blank(tenant) && !Blank(who)
    ensures var asked := Run(H, Initial(H, tenant), Asked(who));
            Up(H, asked) && 1 in asked.mem.pending && MatchesOperator(asked.operator, who)
  {
    var start := Initial(H, tenant);
    var h := Run(H, start, Haunting(who));
    HauntingHaunts(H, tenant, who);
    ApprovedStaysReady(H, h, 1, who);
    var filed := Approve(H, h, 1, who, 0, ALL_LAND).0;
    ApprovingANonDecision(H, h, 1, who, 0);
    ApproveIsSound(H, h, 1, who, 0, ALL_LAND);
    var d := ReadyEscalates(filed, who, 1);
    NextDecisionInherits(H, filed, INPUT, 0, d, 0);
    EvaluateIsSound(H, filed, INPUT, 0, ALL_LAND);
    EvaluateAside(H, filed, INPUT, 0, ALL_LAND);
    ApproveThenAct(H, start, Haunting(who), INPUT, 1, who, ALL_LAND);
  }

  lemma {:induction false} ApproveThenRestart(H: Hash, l: Ledger, steps: seq<Step>, id: nat, who: string, io: Faults)
    ensures Run(H, l, steps + [ApproveStep(id, who, 0, io)]) == Approve(H, Run(H, l, steps), id, who, 0, io).0
    ensures Run(H, l, steps + [ApproveStep(id, who, 0, io)] + [RestartStep])
            == Restart(H, Approve(H, Run(H, l, steps), id, who, 0, io).0)
  {
    RunAfter(H, l, steps, ApproveStep(id, who, 0, io));
    TwoMore(H, l, steps, ApproveStep(id, who, 0, io), RestartStep);
  }

  /** An approval that filed nothing leaves origins as they are, on disk and, after the
      restart, in memory. */
  lemma {:induction false} UnfiledKeepsOrigin(H: Hash, l: Ledger, steps: seq<Step>, id: nat, who: string)
    requires Up(H, Run(H, l, steps)) && id in Run(H, l, steps).mem.pending && !Blank(who)
    requires MatchesOperator(Run(H, l, steps).operator, who)
    ensures var retried := steps + [ApproveStep(id, who, 0, QUEUE_LOST)] + [RestartStep];
            && Run(H, l, retried) == Run(H, l, steps)
            && OriginAfter(H, l, retried, id).disk == OriginAfter(H, l, steps, id).disk
  {
    var b, s := Run(H, l, steps), ApproveStep(id, who, 0, QUEUE_LOST);
    UnfiledApprovalIsUndone(H, b, id, who, 0);
    ApproveThenRestart(H, l, steps, id, who, QUEUE_LOST);
    OriginAfterOne(H, l, steps, s, id);
    LostApprovalKeepsOrigin(b, id, who, |steps|, OriginAfter(H, l, steps, id));
    OriginAfterOne(H, l, steps + [s], RestartStep, id);
  }

  /** A refusal whose answer write fails: after the restart the answer on disk stands. */
  lemma {:induction false} LostRefusalStands(H: Hash, l: Ledger, steps: seq<Step>, id: nat)
    requires Run(H, l, steps + [RejectStep(id, 0, ANSWER_LOST)]).disk.Some?
    ensures Stands(H, l, steps + [RejectStep(id, 0, ANSWER_LOST)] + [RestartStep], id) == OriginAfter(H, l, steps, id).disk
  {
    var s := RejectStep(id, 0, ANSWER_LOST);
    OriginAfterOne(H, l, steps, s, id);
    LostRefusalKeepsOnDisk(Run(H, l, steps), id, |steps|, OriginAfter(H, l, steps, id));
    OriginAfterRestart(H, l, steps, s, id);
  }

  /** The escalation was never approved: the one call that tried returned an error and
      filed nothing, and the last word was a refusal. It reads as approved all the same, on
      the approval given before it was asked for. */
  lemma {:induction false} UnfiledExample(H: Hash, tenant: string, who: string)
    requires !Blank(tenant) && !Blank(who)
    ensures var start := Initial(H, tenant);
            && Escalated(Run(H, start, Asked(who)), 1)
            && Approve(H, Run(H, start, Asked(who)), 1, who, 0, QUEUE_LOST).1 == Err(WriteFailed)
            && DecisionStatus(Run(H, start, Unfiled(who)).mem, 1) == Some(Granted)
            && Stands(H, start, Unfiled(who), 1) == Some(|Haunting(who)|)
            && !ApprovedAsAsked(H, start, Unfiled(who), 1)
  {
    var start, asked := Initial(H, tenant), Asked(who);
    AskedExample(H, tenant, who);
    AskedOrigin(H, tenant, who);
    AskedIsUp(H, tenant, who);
    UnfiledApprovalIsUndone(H, Run(H, start, asked), 1, who, 0);
    UnfiledKeepsOrigin(H, start, asked, 1, who);
    var retried := asked + [ApproveStep(1, who, 0, QUEUE_LOST)] + [RestartStep];
    RejectThenRestart(H, start, retried, 1, ANSWER_LOST);
    LostRefusalOnDisk(H, start, retried, 1);
    LostRefusalStands(H, start, retried, 1);
    HauntingComesFirst(H, tenant, who);
  }

  lemma {:induction false} LostRefusalOnDisk(H: Hash, l: Ledger, steps: seq<Step>, id: nat)
    requires Up(H, Run(H, l, steps))
    ensures Run(H, l, steps + [RejectStep(id, 0, ANSWER_LOST)]).disk.Some?
  {
    RunAfter(H, l, steps, RejectStep(id, 0, ANSWER_LOST));
    RejectAnswers(H, Run(H, l, steps), id, 0, ANSWER_LOST);
  }

  lemma {:induction false} HauntingComesFirst(H: Hash, tenant: string, who: string)
    requires !Blank(tenant) && !Blank(who)
    ensures var n := |Haunting(who)|; n < |Unfiled(who)| && |Run(H, Initial(H, tenant), Unfiled(who)[..n]).mem.chain.entries| == 1
  {
    HauntingHaunts(H, tenant, who);
    assert Unfiled(who)[..|Haunting(who)|] == Haunting(who);
  }

  // ---- a spelling that slips past the egress policy -----------------------

  function IssueCui(who: string): GrantInput {
    Issue(who).(ceiling := "CUI", hic := "2")
  }

  /** Controlled material, and a model that is not even named. */
  const UNNAMED: ActionInput := INPUT.(modelId := "")

  /** On a first start with one budgeted grant, an agent without a named model is denied
      work at "CUI" and allowed the same work at "cui". */
  lemma {:induction false} LowerCaseSlipsThrough(H: Hash, tenant: string, who: string)
    requires !Blank(tenant) && !Blank(who)
    ensures var l := Run(H, Initial(H, tenant), [IssueStep(IssueCui(who), 0, ALL_LAND)]);
            && ClassificationFromStr("cui") == Some(Cui) && ClassificationFromStr("CUI") == Some(Cui)
            && Decide(l, UNNAMED.(classification := "CUI"), Cui, 0).verdict == Deny
            && Decide(l, UNNAMED.(classification := "cui"), Cui, 0).verdict == Allow
  {
    CuiTexts();
    FirstIssue(H, tenant, IssueCui(who), Cui);
    var l := Run(H, Initial(H, tenant), [IssueStep(IssueCui(who), 0, ALL_LAND)]);
    var g := NewGrant(IssueCui(who), Cui);
    assert GrantsOf(l.mem, "agent") == [g];
    XNeedsNoSignature();
    AllowsUnderOne(l, UNNAMED.(classification := "cui"), who, g);
    AllowsUnderOne(l, UNNAMED.(classification := "CUI"), who, g);
  }

  lemma {:induction false} CuiTexts()
    ensures ClassificationFromStr("cui") == Some(Cui) && ClassificationFromStr("CUI") == Some(Cui)
    ensures DEFAULT_EGRESS.Permits("cui", "") && !DEFAULT_EGRESS.Permits("CUI", "")
  {
    ClassificationRoundTrip(Cui);
    assert Trim("cui") == "cui" && Lower("cui") == "cui";
    assert "cui"[0] != "CUI"[0] && "cui"[0] != "ITAR"[0];
    assert "CUI" in ["CUI", "ITAR"];
    assert Blank("");
  }

  lemma {:induction false} XNeedsNoSignature()
    ensures !ClassIsMandatoryHic1("x")
  {
    assert Trim("x") == "x" && |"x"| == 1;
    assert forall i :: 0 <= i < |L1_PREFIXES| ==> |L1_PREFIXES[i]| > 1;
    assert |"meeting.ratify"| > 1;
  }

  lemma {:induction false} AllowsUnderOne(l: Ledger, input: ActionInput, who: string, g: CapabilityGrant)
    requires GrantsOf(l.mem, input.agent) == [g] && l.egress == DEFAULT_EGRESS
    requires g == NewGrant(IssueCui(who), Cui) && !ClassIsMandatoryHic1("x")
    requires input.agent == "agent" && input.class_ == "x" && input.cost == 1 && input.hic1CostThreshold == 0
    requires !input.mandatoryHic1
    ensures Decide(l, input, Cui, 0).verdict
            == if DEFAULT_EGRESS.Permits(input.classification, input.modelId) then Allow else Deny
  {
    assert "x" in ["x"];
    assert g.Covers(ActionOf(input, Cui), 0);
    var k := VerdictMeans(l, input, Cui, 0);
  }
}
