/** One tenant's governed-action ledger as a state machine: the working set in
    memory, the files on disk, and the step each operation of the backend takes.
    Every durable write of a step may fail, as its `Faults` argument says; a crash
    is a step whose later writes all fail, followed by a restart. */
module Ledger {
  import opened Basics
  import opened Audit
  import opened Policy
  import opened Store
  import opened Files
  import Hex

  // ---- inputs and outputs -----------------------------------------------

  datatype ActionInput = ActionInput(
    agent: string,
    principal: Option<string>,
    class_: string,
    classification: string,
    cost: U64,
    hic1CostThreshold: U64,
    mandatoryHic1: bool,
    paramsHash: string,
    modelId: string,
    correlationId: string)

  datatype GrantInput = GrantInput(
    id: string,
    agent: string,
    issuedBy: string,
    principal: string,
    tenantScope: string,
    actionClasses: seq<string>,
    ceiling: string,
    budgetUnits: U64,
    expiresAtMs: I64,
    hic: string)

  datatype AllowanceInput = AllowanceInput(
    id: string,
    principal: string,
    agent: string,
    tenantScope: string,
    proposalClasses: seq<string>,
    weightCap: U64,
    expiresAtMs: I64)

  datatype DecisionDto = DecisionDto(
    decisionId: nat,
    verdict: Verdict,
    hic: HicLevel,
    grantId: Option<string>,
    reason: Reason,
    chainHead: string,
    ungoverned: bool)

  datatype Error =
    | Degraded
    | WriteFailed
    | UnknownClassification(text: string)
    | NoAccountablePrincipal
    | InconsistentRecord
    | NotCharged(grantId: string)
    | NoSuchDecision(id: nat)
    | NotAwaiting(id: nat)
    | MustNameTheHuman
    | NotTheOperator
    | DuplicateGrant(name: string)
    | NoSuchAllowance(name: string)
    | CastRefused(why: PolicyError)
    | BlankTenant
    | LoadFailed(cause: StoreError)

  /** Which durable writes of one step reach the disk. */
  datatype Faults = Faults(grants: bool, charges: bool, pending: bool, resolved: bool,
                           allowances: bool, scope: bool, log: LogOutcome)

  // ---- the state --------------------------------------------------------

  /** A tenant's slice of the backend's memory. */
  datatype Slice = Slice(
    chain: HashChain,
    grants: map<string, seq<CapabilityGrant>>,
    allowances: map<string, VoteAllowance>,
    charges: map<nat, Charge>,
    pending: map<nat, PendingApproval>,
    resolved: map<nat, Answer>)

  /** The tenant's files, as the loader reads them, and the installation's own. */
  datatype Disk = Disk(
    log: LogFile,
    grants: Result<map<string, seq<CapabilityGrant>>, StoreError>,
    allowances: map<string, VoteAllowance>,
    charges: map<nat, Charge>,
    pending: map<nat, PendingApproval>,
    resolved: map<nat, Answer>,
    operator: Option<string>,
    egress: EgressPolicy)

  datatype Ledger = Ledger(
    tenant: string,
    mem: Slice,
    disk: Option<Disk>,
    degraded: bool,
    operator: Option<string>,
    egress: EgressPolicy)

  function EmptySlice(H: Hash, tenant: string): Slice {
    Slice(Fresh(H, tenant), map[], map[], map[], map[], map[])
  }

  const BLANK_DISK: Disk :=
    Disk(LogFile(None, 0), Ok(map[]), map[], map[], map[], map[], None, DEFAULT_EGRESS)

  /** A first start on an empty store. */
  function Initial(H: Hash, tenant: string): Ledger {
    Ledger(tenant, EmptySlice(H, tenant), Some(BLANK_DISK), false, None, DEFAULT_EGRESS)
  }

  // ---- durable writes ---------------------------------------------------

  /** A whole-file rewrite leaves the old content or the new; a failed one
      degrades the backend. The flag says whether the step may go on. */
  function SaveGrants(l: Ledger, lands: bool): (Ledger, bool) {
    if l.disk.None? then (l, true)
    else if lands then (l.(disk := Some(l.disk.value.(grants := Ok(l.mem.grants)))), true)
    else (l.(degraded := true), false)
  }

  function SaveAllowances(l: Ledger, lands: bool): (Ledger, bool) {
    if l.disk.None? then (l, true)
    else if lands then (l.(disk := Some(l.disk.value.(allowances := l.mem.allowances))), true)
    else (l.(degraded := true), false)
  }

  function SaveCharges(l: Ledger, lands: bool): (Ledger, bool) {
    if l.disk.None? then (l, true)
    else if lands then (l.(disk := Some(l.disk.value.(charges := l.mem.charges))), true)
    else (l.(degraded := true), false)
  }

  function SavePending(l: Ledger, lands: bool): (Ledger, bool) {
    if l.disk.None? then (l, true)
    else if lands then (l.(disk := Some(l.disk.value.(pending := l.mem.pending))), true)
    else (l.(degraded := true), false)
  }

  function SaveResolved(l: Ledger, lands: bool): (Ledger, bool) {
    if l.disk.None? then (l, true)
    else if lands then (l.(disk := Some(l.disk.value.(resolved := l.mem.resolved))), true)
    else (l.(degraded := true), false)
  }

  /** Append one entry to the log and then raise the count. */
  function SaveEntry(l: Ledger, e: Entry, outcome: LogOutcome): (Ledger, bool) {
    if l.disk.None? then (l, true)
    else
      var disk := l.disk.value.(log := AppendLine(l.disk.value.log, LineOf(e), outcome));
      (l.(disk := Some(disk), degraded := l.degraded || !outcome.LogDone?), outcome.LogDone?)
  }

  // ---- evaluate and record ----------------------------------------------

  /** Spends charge their magnitude and everything else one unit. */
  function ChargeFor(cost: U64): U64 {
    if cost < 1 then 1 else cost
  }

  const L1_PREFIXES: seq<string> :=
    ["grant.", "protocol.", "chain.", "key.", "classification.", "disclose."]

  const L1_EXACT: seq<string> := ["meeting.ratify"]

  predicate ClassIsMandatoryHic1(class_: string) {
    Trim(class_) in L1_EXACT || HasPrefixOf(Trim(class_), L1_PREFIXES)
  }

  predicate HasPrefixOf(c: string, prefixes: seq<string>) {
    exists i | 0 <= i < |prefixes| :: StartsWith(c, prefixes[i])
  }

  function GrantsOf(s: Slice, agent: string): seq<CapabilityGrant> {
    if agent in s.grants then s.grants[agent] else []
  }

  /** The policy verdict, denied when the egress policy does not permit the model
      at the classification text as given. */
  function Decide(l: Ledger, input: ActionInput, classification: Classification, nowMs: I64): Decision {
    var action := Action(input.class_, classification, ChargeFor(input.cost), input.hic1CostThreshold,
                         input.mandatoryHic1 || ClassIsMandatoryHic1(input.class_));
    var decision := Policy.Evaluate(action, GrantsOf(l.mem, input.agent), nowMs);
    if decision.verdict != Verdict.Ungoverned && !l.egress.Permits(input.classification, input.modelId) then
      decision.(verdict := Deny, hic := HicLevel.ApproveEach,
                reason := if Blank(input.modelId) then RC400 else RC401)
    else decision
  }

  /** The human the named grant was signed by. */
  function Accountable(l: Ledger, agent: string, grantId: Option<string>): Option<string> {
    if grantId.None? then None
    else match FindGrant(GrantsOf(l.mem, agent), grantId.value)
      case None => None
      case Some(k) => Some(GrantsOf(l.mem, agent)[k].principal)
  }

  function Spend(l: Ledger, agent: string, grantId: string, units: U64): Option<Ledger> {
    var gs := GrantsOf(l.mem, agent);
    match FindGrant(gs, grantId)
    case None => Some(l)
    case Some(k) =>
      match gs[k].Consume(units)
      case None => None
      case Some(g) => Some(l.(mem := l.mem.(grants := l.mem.grants[agent := gs[k := g]])))
  }

  /** Grants and charges are two files: two writes, the grants first. */
  function SaveBudget(l: Ledger, io: Faults): (Ledger, Option<Error>) {
    var (l1, ok) := SaveGrants(l, io.grants);
    if !ok then (l1, Some(WriteFailed))
    else
      var (l2, ok') := SaveCharges(l1, io.charges);
      (l2, if ok' then None else Some(WriteFailed))
  }

  /** Charge the grant behind a decision; a decision without one costs nothing. */
  function ChargePhase(l: Ledger, agent: string, grantId: Option<string>, id: nat, units: U64, io: Faults)
    : (Ledger, Option<Error>)
  {
    if grantId.None? then (l, None)
    else match Spend(l, agent, grantId.value, units)
      case None => (l, Some(NotCharged(grantId.value)))
      case Some(l1) =>
        var charge := Charge(id, agent, grantId.value, units);
        SaveBudget(l1.(mem := l1.mem.(charges := l1.mem.charges[id := charge])), io)
  }

  /** Park an escalation where a human will find it. */
  function PendingPhase(l: Ledger, input: ActionInput, verdict: Verdict, id: nat, nowMs: I64, io: Faults)
    : (Ledger, Option<Error>)
  {
    if verdict != RequireApproval then (l, None)
    else
      var p := PendingApproval(id, input.agent, input.principal, input.class_, input.classification,
                               input.cost, input.correlationId, nowMs);
      var l1 := l.(mem := l.mem.(pending := l.mem.pending[id := p]));
      var (l2, ok) := SavePending(l1, io.pending);
      (l2, if ok then None else Some(WriteFailed))
  }

  function ActionRecord(input: ActionInput, decision: Decision, accountable: Option<string>, nowMs: I64): DecisionRecord {
    var ungoverned := decision.verdict == Verdict.Ungoverned;
    DecisionRecord(input.agent, if ungoverned then None else accountable,
                   if ungoverned then None else decision.grantId, input.class_,
                   Hex.Decode32(input.paramsHash), decision.verdict, decision.hic,
                   input.modelId, input.correlationId, nowMs)
  }

  function EvaluateAndRecord(H: Hash, l: Ledger, input: ActionInput, nowMs: I64, io: Faults)
    : (Ledger, Result<DecisionDto, Error>)
  {
    if l.degraded then (l, Err(Degraded))
    else match ClassificationFromStr(input.classification)
      case None => (l, Err(UnknownClassification(input.classification)))
      case Some(classification) =>
        var decision := Decide(l, input, classification, nowMs);
        var accountable := Accountable(l, input.agent, decision.grantId);
        if decision.verdict != Verdict.Ungoverned && accountable.None? then
          (l, Err(NoAccountablePrincipal))
        else match Append(H, l.mem.chain, ActionRecord(input, decision, accountable, nowMs))
          case None => (l, Err(InconsistentRecord))
          case Some(chain) => Settle(l.(mem := l.mem.(chain := chain)), input, decision, nowMs, io)
  }

  /** Everything a decision changes besides the log. */
  function Effects(l: Ledger, input: ActionInput, decision: Decision, id: nat, nowMs: I64, io: Faults)
    : (Ledger, Option<Error>)
  {
    var (l1, e) := ChargePhase(l, input.agent, decision.grantId, id, ChargeFor(input.cost), io);
    if e.Some? then (l1, e) else PendingPhase(l1, input, decision.verdict, id, nowMs, io)
  }

  /** What follows the append in memory: the charge, the queue, the durable record. */
  function Settle(l: Ledger, input: ActionInput, decision: Decision, nowMs: I64, io: Faults)
    : (Ledger, Result<DecisionDto, Error>)
    requires l.mem.chain.entries != []
  {
    var id := |l.mem.chain.entries| - 1;
    var (l1, e) := Effects(l, input, decision, id, nowMs, io);
    Finish(l1, e, l.mem.chain.entries[id], decision, id, io.log)
  }

  /** The durable record, unless an earlier write failed. */
  function Finish(l: Ledger, e: Option<Error>, entry: Entry, decision: Decision, id: nat, outcome: LogOutcome)
    : (Ledger, Result<DecisionDto, Error>)
  {
    if e.Some? then (l, Err(e.value))
    else
      var (l1, ok) := SaveEntry(l, entry, outcome);
      if !ok then (l1, Err(WriteFailed))
      else (l1, Ok(DecisionDto(id, decision.verdict, decision.hic, decision.grantId, decision.reason,
                               Hex.Encode(entry.hash), decision.verdict == Verdict.Ungoverned)))
  }

  // ---- recording without the policy gate --------------------------------

  /** Append a record to the chain and to the log. */
  function Commit(H: Hash, l: Ledger, record: DecisionRecord, reason: Reason, outcome: LogOutcome)
    : (Ledger, Result<DecisionDto, Error>)
  {
    match Append(H, l.mem.chain, record)
    case None => (l, Err(InconsistentRecord))
    case Some(chain) =>
      var id := |l.mem.chain.entries|;
      var (l1, ok) := SaveEntry(l.(mem := l.mem.(chain := chain)), chain.entries[id], outcome);
      if !ok then (l1, Err(WriteFailed))
      else (l1, Ok(DecisionDto(id, record.verdict, record.hic, record.grantId, reason,
                               Hex.Encode(chain.head), false)))
  }

  /** The parameter hash of an act that carries no payload. */
  function NoHash(): Word {
    seq(32, i => 0)
  }

  function RecordPrincipal(H: Hash, l: Ledger, principal: string, class_: string, detail: string,
                           nowMs: I64, outcome: LogOutcome): (Ledger, Result<DecisionDto, Error>)
  {
    if l.degraded then (l, Err(Degraded))
    else if Blank(principal) then (l, Err(MustNameTheHuman))
    else
      Commit(H, l, DecisionRecord(principal, Some(principal), None, class_, NoHash(), Verdict.Approved,
                                  HicLevel.ApproveEach, "", detail, nowMs),
             RC302(class_, principal), outcome)
  }

  function RecordDelegated(H: Hash, l: Ledger, agent: string, principal: string, authority: string,
                           class_: string, detail: string, nowMs: I64, outcome: LogOutcome)
    : (Ledger, Result<DecisionDto, Error>)
  {
    if l.degraded then (l, Err(Degraded))
    else if Blank(principal) then (l, Err(MustNameTheHuman))
    else
      Commit(H, l, DecisionRecord(agent, Some(principal), Some(authority), class_, NoHash(),
                                  Verdict.Approved, HicLevel.Budgeted, "", detail, nowMs),
             RC303(class_, agent, principal), outcome)
  }

  // ---- the human's answer -----------------------------------------------

  /** Put back what the charge of a decision took, and forget the charge. */
  function RefundPhase(l: Ledger, id: nat, io: Faults): (Ledger, Option<Error>) {
    if id !in l.mem.charges then (l, None)
    else
      var charge := l.mem.charges[id];
      SaveBudget(Unspend(l.(mem := l.mem.(charges := l.mem.charges - {id})), charge), io)
  }

  function Unspend(l: Ledger, charge: Charge): Ledger {
    var gs := GrantsOf(l.mem, charge.agent);
    match FindGrant(gs, charge.grantId)
    case None => l
    case Some(k) =>
      l.(mem := l.mem.(grants := l.mem.grants[charge.agent := gs[k := gs[k].Refund(charge.units)]]))
  }

  /** The escalation, if it is waiting, leaves the queue. */
  function Dequeue(l: Ledger, id: nat, lands: bool): (Ledger, bool) {
    if id !in l.mem.pending then (l, true)
    else SavePending(l.(mem := l.mem.(pending := l.mem.pending - {id})), lands)
  }

  /** The answer is filed against this very decision. */
  function FileAnswer(l: Ledger, id: nat, answer: Answer, lands: bool): (Ledger, bool) {
    SaveResolved(l.(mem := l.mem.(resolved := l.mem.resolved[id := answer])), lands)
  }

  function AnswerPhase(l: Ledger, id: nat, answer: Answer, io: Faults): (Ledger, Option<Error>) {
    var (l1, ok) := Dequeue(l, id, io.pending);
    if !ok then (l1, Some(WriteFailed))
    else
      var (l2, ok') := FileAnswer(l1, id, answer, io.resolved);
      (l2, if ok' then None else Some(WriteFailed))
  }

  function Reject(H: Hash, l: Ledger, id: nat, nowMs: I64, io: Faults): (Ledger, Result<DecisionDto, Error>) {
    if l.degraded then (l, Err(Degraded))
    else if id >= |l.mem.chain.entries| then (l, Err(NoSuchDecision(id)))
    else
      var original := l.mem.chain.entries[id].record;
      var (l1, e1) := AnswerPhase(l, id, SaidNo, io);
      if e1.Some? then (l1, Err(e1.value))
      else
        var (l2, e2) := RefundPhase(l1, id, io);
        if e2.Some? then (l2, Err(e2.value))
        else
          Commit(H, l2, original.(verdict := Rejected, hic := HicLevel.ApproveEach, timestampMs := nowMs),
                 RC300, io.log)
  }

  predicate MatchesOperator(operator: Option<string>, who: string) {
    operator.Some? ==> Trim(who) == Trim(operator.value)
  }

  function Approve(H: Hash, l: Ledger, id: nat, approver: string, nowMs: I64, io: Faults)
    : (Ledger, Result<DecisionDto, Error>)
  {
    if l.degraded then (l, Err(Degraded))
    else if Blank(approver) then (l, Err(MustNameTheHuman))
    else if !MatchesOperator(l.operator, approver) then (l, Err(NotTheOperator))
    else if id !in l.mem.pending then (l, Err(NotAwaiting(id)))
    else
      var agent := l.mem.pending[id].agent;
      var (l1, e1) := AnswerPhase(l, id, SaidYes, io);
      if e1.Some? then (l1, Err(e1.value))
      else if id >= |l.mem.chain.entries| then (l1, Err(NoSuchDecision(id)))
      else
        var original := l.mem.chain.entries[id].record;
        Commit(H, l1, original.(principal := Some(approver), verdict := Verdict.Approved,
                                hic := HicLevel.ApproveEach, timestampMs := nowMs),
               RC301(approver, agent), io.log)
  }

  datatype Status = Waiting | Granted | Refused

  /** What an agent polling on its escalation is told. */
  function DecisionStatus(s: Slice, id: nat): Option<Status> {
    if id in s.pending then Some(Waiting)
    else if id in s.resolved then
      match s.resolved[id]
      case SaidYes => Some(Granted)
      case SaidNo => Some(Refused)
      case SaidOther(_) => Some(Waiting)
    else if id < |s.chain.entries| then Some(Waiting)
    else None
  }

  // ---- grants and allowances --------------------------------------------

  predicate HasGrant(grants: map<string, seq<CapabilityGrant>>, id: string) {
    exists a | a in grants :: exists g | g in grants[a] :: g.id == id
  }

  function NewGrant(input: GrantInput, ceiling: Classification): CapabilityGrant {
    CapabilityGrant(input.id, input.agent, input.principal, input.tenantScope, input.actionClasses, ceiling,
                    input.budgetUnits, 0, input.expiresAtMs, GrantHicFromStr(input.hic), false)
  }

  const ARROW: string := " \U{2192} "

  function IssueGrant(H: Hash, l: Ledger, input: GrantInput, nowMs: I64, io: Faults): (Ledger, Result<(), Error>) {
    match ClassificationFromStr(input.ceiling)
    case None => (l, Err(UnknownClassification(input.ceiling)))
    case Some(ceiling) =>
      if HasGrant(l.mem.grants, input.id) then (l, Err(DuplicateGrant(input.id)))
      else
        var gs := GrantsOf(l.mem, input.agent) + [NewGrant(input, ceiling)];
        var l1 := l.(mem := l.mem.(grants := l.mem.grants[input.agent := gs]));
        var (l2, ok) := SaveGrants(l1, io.grants);
        if !ok then (l2, Err(WriteFailed))
        else
          var (l3, r) := RecordPrincipal(H, l2, input.issuedBy, "grant.issue", input.id + ARROW + input.agent,
                                         nowMs, io.log);
          (l3, if r.Ok? then Ok(()) else Err(r.error))
  }

  function RevokeAll(gs: seq<CapabilityGrant>, id: string): (r: seq<CapabilityGrant>)
    ensures |r| == |gs|
  {
    seq(|gs|, i requires 0 <= i < |gs| => if gs[i].id == id then gs[i].Revoke() else gs[i])
  }

  function RevokeGrant(H: Hash, l: Ledger, agent: string, id: string, actor: string, nowMs: I64, io: Faults)
    : (Ledger, Result<bool, Error>)
  {
    if Blank(actor) then (l, Err(MustNameTheHuman))
    else if FindGrant(GrantsOf(l.mem, agent), id).None? then (l, Ok(false))
    else
      var gs := RevokeAll(GrantsOf(l.mem, agent), id);
      var (l1, ok) := SaveGrants(l.(mem := l.mem.(grants := l.mem.grants[agent := gs])), io.grants);
      if !ok then (l1, Err(WriteFailed))
      else
        var (l2, r) := RecordPrincipal(H, l1, actor, "grant.revoke", id + ARROW + agent, nowMs, io.log);
        (l2, if r.Ok? then Ok(true) else Err(r.error))
  }

  function NewAllowance(input: AllowanceInput): VoteAllowance {
    VoteAllowance(input.id, input.principal, input.agent, input.tenantScope, input.proposalClasses,
                  input.weightCap, 0, input.expiresAtMs, false)
  }

  function IssueAllowance(H: Hash, l: Ledger, input: AllowanceInput, nowMs: I64, io: Faults)
    : (Ledger, Result<(), Error>)
  {
    if Blank(input.principal) then (l, Err(MustNameTheHuman))
    else
      var l1 := l.(mem := l.mem.(allowances := l.mem.allowances[input.id := NewAllowance(input)]));
      var (l2, ok) := SaveAllowances(l1, io.allowances);
      if !ok then (l2, Err(WriteFailed))
      else
        var (l3, r) := RecordPrincipal(H, l2, input.principal, "allowance.issue",
                                       input.id + ARROW + input.agent + " (cap " + Decimal(input.weightCap) + ")",
                                       nowMs, io.log);
        (l3, if r.Ok? then Ok(()) else Err(r.error))
  }

  /** The delegation proof a cast returns. */
  function Proof(a: VoteAllowance): string {
    a.principal + " \U{25B8} " + a.agent + " \U{00B7} allowance " + Decimal(a.spent) + "/" + Decimal(a.weightCap)
  }

  const DOT: string := " \U{00B7} "

  function CastVote(H: Hash, l: Ledger, id: string, class_: string, weight: U64, nowMs: I64, io: Faults)
    : (Ledger, Result<string, Error>)
  {
    if id !in l.mem.allowances then (l, Err(NoSuchAllowance(id)))
    else match l.mem.allowances[id].Cast(class_, weight, nowMs)
      case Err(why) => (l, Err(CastRefused(why)))
      case Ok(a) =>
        var (l1, ok) := SaveAllowances(l.(mem := l.mem.(allowances := l.mem.allowances[id := a])), io.allowances);
        if !ok then (l1, Err(WriteFailed))
        else
          var (l2, r) := RecordDelegated(H, l1, a.agent, a.principal, id, "vote.cast",
                                         id + DOT + class_ + DOT + "weight " + Decimal(weight) + DOT + Proof(a),
                                         nowMs, io.log);
          (l2, if r.Ok? then Ok(Proof(a)) else Err(r.error))
  }

  function RevokeAllowance(H: Hash, l: Ledger, id: string, nowMs: I64, io: Faults): (Ledger, Result<bool, Error>) {
    if id !in l.mem.allowances then (l, Ok(false))
    else
      var a := l.mem.allowances[id].Revoke();
      var (l1, ok) := SaveAllowances(l.(mem := l.mem.(allowances := l.mem.allowances[id := a])), io.allowances);
      if !ok then (l1, Err(WriteFailed))
      else
        var (l2, r) := RecordPrincipal(H, l1, a.principal, "allowance.revoke", id, nowMs, io.log);
        (l2, if r.Ok? then Ok(true) else Err(r.error))
  }

  // ---- the operator, reloads and restarts -------------------------------

  function SetOperator(l: Ledger, name: string, lands: bool): (Ledger, Result<(), Error>) {
    if Blank(name) then (l, Err(MustNameTheHuman))
    else
      var l1 := l.(operator := Some(Trim(name)));
      if l.disk.None? then (l1, Ok(()))
      else if lands then (l1.(disk := Some(l.disk.value.(operator := Some(Trim(name))))), Ok(()))
      else (l1.(degraded := true), Err(WriteFailed))
  }

  /** The slice a tenant's files load back to; the first file that fails decides. */
  function LoadSlice(H: Hash, tenant: string, d: Disk): Result<Slice, StoreError> {
    match Load(H, tenant, d.log.lines, d.log.count)
    case Err(e) => Err(e)
    case Ok(chain) =>
      match d.grants
      case Err(e) => Err(e)
      case Ok(grants) => Ok(Slice(chain, grants, d.allowances, d.charges, d.pending, d.resolved))
  }

  /** Establishing the tenant's scope: the files replace what memory held, or
      nothing changes. A scope file that cannot be written is an error too. */
  function SetActive(H: Hash, l: Ledger, lands: bool): (Ledger, Result<(), Error>) {
    if Blank(l.tenant) then (l, Err(BlankTenant))
    else if l.disk.None? then (l, Ok(()))
    else match LoadSlice(H, l.tenant, l.disk.value)
      case Err(e) => (l, Err(LoadFailed(e)))
      case Ok(s) => (l.(mem := s), if lands then Ok(()) else Err(WriteFailed))
  }

  /** A new process over the same files, with this tenant's scope resumed. */
  function Restart(H: Hash, l: Ledger): Ledger {
    if l.disk.None? then l
    else
      var d := l.disk.value;
      var started := Ledger(l.tenant, EmptySlice(H, l.tenant), l.disk, false, d.operator, d.egress);
      SetActive(H, started, true).0
  }
}
