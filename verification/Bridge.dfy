/** The agent bridge: an agent submits an intent or polls an escalation, and learns
    whether it may proceed. */
module Bridge {
  import opened Basics
  import opened Audit
  import opened Policy
  import opened Store
  import opened Files
  import opened Ledger
  import opened LedgerSound
  import opened LedgerSteps
  import opened LedgerBudget
  import opened LedgerRuns
  import opened LedgerAnswers
  import opened LedgerQuestions
  import opened LedgerApproval
  import opened LedgerRecords
  import opened LedgerExample
  import opened LedgerFields
  import opened LedgerCalls
  import B = Backend
  import Hex

  /** An already-read request; `intent` is the parsed body, if it parses. */
  datatype Request = Request(
    verb: string,
    path: string,
    bearer: Option<string>,
    origin: Option<string>,
    intent: Option<ActionInput>)

  datatype Reply =
    | Alive
    | HttpError(code: nat)
    | Polled(id: U64, status: Status, mayProceed: bool)
    | Judged(decision: DecisionDto, mayProceed: bool)

  const DECISION: string := "/decision/"

  /** What a request asks for once its caller is let in. */
  datatype Demand = Health | Poll(id: U64) | Submit(input: ActionInput) | Nothing(status: nat)

  function Ask(req: Request, secret: string): Demand {
    if req.origin.Some? then Nothing(403)
    else if req.verb == "GET" && req.path == "/health" then Health
    else if req.bearer != Some(secret) then Nothing(401)
    else if req.verb == "GET" && StartsWith(req.path, DECISION) then
      match ParseU64(req.path[|DECISION|..])
      case None => Nothing(400)
      case Some(id) => Poll(id)
    else if !(req.verb == "POST" && req.path == "/intent") then Nothing(404)
    else match req.intent
      case None => Nothing(400)
      case Some(input) => Submit(input)
  }

  function PollReply(l: Ledger, id: U64): Reply {
    match DecisionStatus(l.mem, id)
    case None => HttpError(404)
    case Some(status) => Polled(id, status, status == Granted)
  }

  /** One exchange, in the scope of the active tenant. */
  function Exchange(H: Hash, secret: string, req: Request, l: Ledger, nowMs: I64, io: Faults): (Ledger, Reply) {
    match Ask(req, secret)
    case Health => (l, Alive)
    case Nothing(status) => (l, HttpError(status))
    case Poll(id) => (l, PollReply(l, id))
    case Submit(input) =>
      var (m, r) := EvaluateAndRecord(H, l, input, nowMs, io);
      (m, match r
          case Err(_) => HttpError(400)
          case Ok(d) => Judged(d, d.verdict == Allow))
  }

  /** Without an active tenant there is nothing to ask about. */
  function Unscoped(secret: string, req: Request): Reply {
    match Ask(req, secret)
    case Health => Alive
    case Nothing(status) => HttpError(status)
    case Poll(_) => HttpError(409)
    case Submit(_) => HttpError(409)
  }

  method Handle(req: Request, secret: string, backend: B.QuorumBackend, nowMs: I64, io: Faults)
    returns (reply: Reply)
    requires backend.Valid()
    modifies backend`chains, backend`grants, backend`charges, backend`pending, backend`degraded, backend.store
    ensures backend.Valid()
    ensures backend.activeTenant.None? ==> reply == Unscoped(secret, req)
    ensures backend.activeTenant.None? ==> forall t :: backend.LedgerOf(t) == old(backend.LedgerOf(t))
    ensures backend.activeTenant.Some? ==>
              var t := backend.activeTenant.value;
              backend.OthersKept(t)
              && (backend.LedgerOf(t), reply) == Exchange(backend.h, secret, req, old(backend.LedgerOf(t)), nowMs, io)
  {
    if req.origin.Some? { return HttpError(403); }
    if req.verb == "GET" && req.path == "/health" { return Alive; }
    if req.bearer != Some(secret) { return HttpError(401); }
    if req.verb == "GET" && StartsWith(req.path, DECISION) {
      var id := ParseU64(req.path[|DECISION|..]);
      if id.None? { return HttpError(400); }
      if backend.activeTenant.None? { return HttpError(409); }
      var status := backend.Status(backend.activeTenant.value, id.value);
      if status.None? { return HttpError(404); }
      return Polled(id.value, status.value, status.value == Granted);
    }
    if !(req.verb == "POST" && req.path == "/intent") { return HttpError(404); }
    if req.intent.None? { return HttpError(400); }
    if backend.activeTenant.None? { return HttpError(409); }
    var r := backend.EvaluateAndRecord(req.intent.value, backend.activeTenant.value, nowMs, io);
    reply := if r.Err? then HttpError(400) else Judged(r.value, r.value.verdict == Allow);
  }

  /** Every reply, on the request alone: who is turned away and with which status, what a
      poll is told, and that an intent which is decided may proceed exactly when the verdict
      is allow. */
  lemma {:induction false} ReplyOnFields(H: Hash, secret: string, req: Request, l: Ledger, nowMs: I64, io: Faults)
    ensures var (m, reply) := Exchange(H, secret, req, l, nowMs, io);
            if req.origin.Some? then (m, reply) == (l, HttpError(403))
            else if req.verb == "GET" && req.path == "/health" then (m, reply) == (l, Alive)
            else if req.bearer != Some(secret) then (m, reply) == (l, HttpError(401))
            else if req.verb == "GET" && Starts(req.path, "/decision/") then
              m == l && PollOnFields(l, ParseU64(req.path[10..]), reply)
            else if req.verb != "POST" || req.path != "/intent" then (m, reply) == (l, HttpError(404))
            else if req.intent.None? then (m, reply) == (l, HttpError(400))
            else
              var r := EvaluateAndRecord(H, l, req.intent.value, nowMs, io).1;
              && m == EvaluateAndRecord(H, l, req.intent.value, nowMs, io).0
              && (r.Err? ==> reply == HttpError(400))
              && (r.Ok? ==> reply.Judged? && reply.decision == r.value
                            && (reply.mayProceed <==> reply.decision.verdict == Allow))
  {
    StartsIs(req.path, "/decision/");
    assert |"/decision/"| == 10;
  }

  /** Without an active tenant the same callers are turned away, and the rest learn that
      there is none. */
  lemma {:induction false} UnscopedOnFields(secret: string, req: Request)
    ensures Unscoped(secret, req)
            == if req.origin.Some? then HttpError(403)
               else if req.verb == "GET" && req.path == "/health" then Alive
               else if req.bearer != Some(secret) then HttpError(401)
               else if req.verb == "GET" && StartsWith(req.path, "/decision/") then
                 HttpError(if ParseU64(req.path[10..]).None? then 400 else 409)
               else if req.verb != "POST" || req.path != "/intent" then HttpError(404)
               else HttpError(if req.intent.None? then 400 else 409)
  {
    assert |"/decision/"| == 10;
  }

  /** What a poll of this id is told: waiting, granted or refused by the queue and the
      answers, and to proceed exactly when granted. */
  predicate PollOnFields(l: Ledger, id: Option<U64>, reply: Reply) {
    if id.None? then reply == HttpError(400)
    else
      var s, d := l.mem, id.value;
      if d !in s.pending && d in s.resolved && s.resolved[d] == SaidYes then reply == Polled(d, Granted, true)
      else if d !in s.pending && d in s.resolved && s.resolved[d] == SaidNo then reply == Polled(d, Refused, false)
      else if d in s.pending || d in s.resolved || d < |s.chain.entries| then reply == Polled(d, Waiting, false)
      else reply == HttpError(404)
  }

  /** An admitted intent that is decided may proceed exactly when some grant of the agent
      may pay for it and the first that may asks for no signature, the model may see the
      material, the class is not always signed, and the cost is within the threshold. */
  lemma {:induction false} ProceedsExactlyWhen(H: Hash, secret: string, req: Request, l: Ledger, nowMs: I64, io: Faults)
    returns (c: Classification, k: nat)
    requires Sound(H, l) && Ask(req, secret).Submit?
    requires EvaluateAndRecord(H, l, req.intent.value, nowMs, io).1.Ok?
    ensures req.bearer == Some(secret) && req.verb == "POST" && req.path == "/intent" && req.intent.Some?
    ensures ReadsAs(req.intent.value.classification, c)
    ensures var reply, input := Exchange(H, secret, req, l, nowMs, io).1, req.intent.value;
            reply.Judged?
            && (reply.mayProceed
                <==> FirstToPay(l, input, c, nowMs, k) && MaySee(l.egress, input.classification, input.modelId)
                     && !MustBeSigned(input) && !OverThreshold(input)
                     && Of(l.mem, input.agent)[k].hic != GrantHic.ApproveEach)
  {
    ReplyOnFields(H, secret, req, l, nowMs, io);
    c, k := AllowedExactlyWhen(H, l, req.intent.value, nowMs, io);
  }

  /** Only a submitted intent of an admitted caller changes anything. */
  lemma {:induction false} OnlyIntentsAct(H: Hash, secret: string, req: Request, l: Ledger, nowMs: I64, io: Faults)
    ensures Exchange(H, secret, req, l, nowMs, io).0 == l
            || (req.bearer == Some(secret) && req.origin.None? && req.verb == "POST" && req.path == "/intent")
  {
  }

  /** An agent that polls the id it was given, written in decimal, asks about that decision. */
  lemma {:induction false} PollsItsDecision(secret: string, id: U64, intent: Option<ActionInput>)
    ensures Ask(Request("GET", DECISION + Decimal(id), Some(secret), None, intent), secret) == Poll(id)
  {
    DecimalParses(id);
    assert (DECISION + Decimal(id))[|DECISION|..] == Decimal(id);
  }

  /** A poll of this id that says go, after some run. */
  predicate SaysGo(H: Hash, secret: string, req: Request, l: Ledger, id: U64, nowMs: I64, io: Faults) {
    var reply := Exchange(H, secret, req, l, nowMs, io).1;
    reply.Polled? && reply.id == id && reply.mayProceed
  }

  /** A poll says go only on an answer that one step of the run filed: along any run,
      whatever fails or restarts on the way, a running backend accepted it as an approval
      of a question waiting under that id, in the name of a person who matched the operator
      then set. Which decision that question was about is for the lemmas below. */
  lemma {:induction false} PolledGoNeedsHuman(H: Hash, secret: string, req: Request, l: Ledger, steps: seq<Step>,
                           nowMs: I64, io: Faults, id: U64) returns (k: nat)
    requires Sound(H, l) && !ApprovedSomewhere(l, id)
    requires SaysGo(H, secret, req, Run(H, l, steps), id, nowMs, io)
    ensures Stands(H, l, steps, id) == Some(k) && Approves(H, l, steps, k, id)
    ensures FilesAnswer(Run(H, l, steps[..k]), steps[k], id)
  {
    k := GrantedStands(H, l, steps, id);
  }

  /** The go is for the very escalation the human was shown exactly when the step that
      filed the approval found an escalation on record under the id; a caller can look
      that up before approving. */
  lemma {:induction false} PolledGoIsAsAsked(H: Hash, secret: string, req: Request, l: Ledger, steps: seq<Step>,
                                             nowMs: I64, io: Faults, id: U64) returns (k: nat)
    requires Sound(H, l) && QuestionsKept(l) && !ApprovedSomewhere(l, id)
    requires SaysGo(H, secret, req, Run(H, l, steps), id, nowMs, io)
    ensures Stands(H, l, steps, id) == Some(k) && Approves(H, l, steps, k, id)
    ensures ApprovedAsAsked(H, l, steps, id) <==> Escalated(Run(H, l, steps[..k]), id)
  {
    k := ApprovedAsAskedIff(H, l, steps, id);
  }

  /** In a run that reads its files back only while no write has failed, every go is. */
  lemma {:induction false} CleanGoIsAsAsked(H: Hash, secret: string, req: Request, l: Ledger, steps: seq<Step>,
                                            nowMs: I64, io: Faults, id: U64)
    requires Sound(H, l) && QuestionsKept(l) && AsksEscalations(l.mem) && CleanReloads(H, l, steps)
    requires !ApprovedSomewhere(l, id) && SaysGo(H, secret, req, Run(H, l, steps), id, nowMs, io)
    ensures ApprovedAsAsked(H, l, steps, id)
  {
    CleanApprovalsAreAsAsked(H, l, steps, id);
  }

  /** But not in every run: after one crash a go can be for an action the policy left
      ungoverned, approved before it was ever asked for, or approved as a question some
      other action had asked. */
  lemma {:induction false} GoForAnUngovernedAction(H: Hash, tenant: string, who: string, secret: string,
                                                   nowMs: I64, io: Faults)
    requires !Blank(tenant) && !Blank(who)
    ensures var req := Request("GET", DECISION + Decimal(1), Some(secret), None, None);
            && SaysGo(H, secret, req, Run(H, Initial(H, tenant), Taken(who)), 1, nowMs, io)
            && SaysGo(H, secret, req, Run(H, Initial(H, tenant), Mistaken(who)), 1, nowMs, io)
            && !Escalated(Run(H, Initial(H, tenant), Taken(who)), 1)
            && !Escalated(Run(H, Initial(H, tenant), Mistaken(who)), 1)
  {
    PollsItsDecision(secret, 1, None);
    TakenExample(H, tenant, who);
    MistakenExample(H, tenant, who);
  }

  /** Nor is a go for an escalation always that escalation's: here the only call that tried
      to approve it returned an error and filed nothing, and a human refused it after. */
  lemma {:induction false} GoOnAnOldApproval(H: Hash, tenant: string, who: string, secret: string, nowMs: I64, io: Faults)
    requires !Blank(tenant) && !Blank(who)
    ensures var req := Request("GET", DECISION + Decimal(1), Some(secret), None, None);
            var start := Initial(H, tenant);
            && SaysGo(H, secret, req, Run(H, start, Unfiled(who)), 1, nowMs, io)
            && Escalated(Run(H, start, Asked(who)), 1) && !ApprovedAsAsked(H, start, Unfiled(who), 1)
  {
    PollsItsDecision(secret, 1, None);
    UnfiledExample(H, tenant, who);
  }

  /** The grant that stands behind an intent that may proceed. */
  predicate Authorises(l: Ledger, input: ActionInput, g: CapabilityGrant, c: Classification, nowMs: I64) {
    && g in GrantsOf(l.mem, input.agent)
    && g.IsLive(nowMs) && input.class_ in g.actionClasses
    && Policy.Rank(c) <= Policy.Rank(g.ceiling) && ChargeFor(input.cost) <= g.Remaining()
    && g.hic != GrantHic.ApproveEach
    && !input.mandatoryHic1 && !ClassIsMandatoryHic1(input.class_)
    && (input.hic1CostThreshold > 0 ==> ChargeFor(input.cost) <= input.hic1CostThreshold)
    && l.egress.Permits(input.classification, input.modelId)
  }

  /** An allow names a live grant that covers the action and asks for no signature, and
      the egress policy permits the model at the classification text as given. */
  lemma {:induction false} AllowNeedsAuthority(l: Ledger, input: ActionInput, c: Classification, nowMs: I64)
    returns (g: CapabilityGrant)
    requires Decide(l, input, c, nowMs).verdict == Allow
    ensures Authorises(l, input, g, c, nowMs)
    ensures Decide(l, input, c, nowMs).grantId == Some(g.id)
  {
    var action := Action(input.class_, c, ChargeFor(input.cost), input.hic1CostThreshold,
                         input.mandatoryHic1 || ClassIsMandatoryHic1(input.class_));
    g := GrantsOf(l.mem, input.agent)[FindCovering(GrantsOf(l.mem, input.agent), action, nowMs).value];
  }

  /** What a go-ahead leaves behind: the next record of the chain says allow, under the
      grant and its principal, and the charge is on the books. */
  predicate Receipted(l: Ledger, m: Ledger, input: ActionInput, d: DecisionDto, g: CapabilityGrant) {
    var id := |l.mem.chain.entries|;
    && d.decisionId == id
    && |m.mem.chain.entries| == id + 1
    && m.mem.chain.entries[..id] == l.mem.chain.entries
    && m.mem.chain.entries[id].record.verdict == Allow
    && m.mem.chain.entries[id].record.agent == input.agent
    && m.mem.chain.entries[id].record.grantId == Some(g.id)
    && m.mem.chain.entries[id].record.principal == Some(g.principal)
    && d.chainHead == Hex.Encode(m.mem.chain.entries[id].hash)
    && m.mem.charges == l.mem.charges[id := Charge(id, input.agent, g.id, ChargeFor(input.cost))]
    && m.mem.pending == l.mem.pending
  }

  /** Memory and disk agree and no write has failed. */
  ghost predicate Durable(m: Ledger) {
    && !m.degraded
    && (m.disk.Some? ==> m.disk.value.log.Lines() == LinesOf(m.mem.chain.entries)
                         && m.disk.value.charges == m.mem.charges
                         && m.disk.value.grants == Ok(m.mem.grants))
  }

  lemma {:induction false} AllowIsReceipted(H: Hash, l: Ledger, input: ActionInput, c: Classification, nowMs: I64, io: Faults,
                         g: CapabilityGrant)
    requires Sound(H, l) && !l.degraded && ClassificationFromStr(input.classification) == Some(c)
    requires var d := Decide(l, input, c, nowMs); d.verdict == Allow && d.grantId == Some(g.id)
    requires g in GrantsOf(l.mem, input.agent)
    requires EvaluateAndRecord(H, l, input, nowMs, io).1.Ok?
    ensures var (m, r) := EvaluateAndRecord(H, l, input, nowMs, io);
            !m.degraded && r.value.verdict == Allow && Receipted(l, m, input, r.value, g)
  {
    EvaluateAllOrNothing(H, l, input, nowMs, io);
    var j: nat :| j < |GrantsOf(l.mem, input.agent)| && GrantsOf(l.mem, input.agent)[j] == g;
    assert IsGrant(l.mem.grants, input.agent, j);
    FindsItself(l.mem.grants, input.agent, j);
  }

  /** When an intent is told to proceed, a live grant of that agent covers it without a
      signature, its principal answers for it, the cost is charged, and the record, the
      grant and the charge are all on disk before the agent hears. */
  lemma {:induction false} GoAheadIsBacked(H: Hash, secret: string, req: Request, l: Ledger, nowMs: I64, io: Faults)
    returns (c: Classification, g: CapabilityGrant)
    requires Sound(H, l)
    requires var reply := Exchange(H, secret, req, l, nowMs, io).1; reply.Judged? && reply.mayProceed
    ensures req.bearer == Some(secret) && req.intent.Some?
    ensures ClassificationFromStr(req.intent.value.classification) == Some(c)
    ensures Authorises(l, req.intent.value, g, c, nowMs)
    ensures var (m, reply) := Exchange(H, secret, req, l, nowMs, io);
            Durable(m) && Receipted(l, m, req.intent.value, reply.decision, g)
  {
    var input := req.intent.value;
    c := ClassificationFromStr(input.classification).value;
    VerdictIsReported(H, l, input, c, nowMs, io);
    g := AllowNeedsAuthority(l, input, c, nowMs);
    AllowIsReceipted(H, l, input, c, nowMs, io, g);
    EvaluateIsSound(H, l, input, nowMs, io);
    var m := EvaluateAndRecord(H, l, input, nowMs, io).0;
    if m.disk.Some? {
      assert LogBehind(m, 0);
      var lines := m.disk.value.log.Lines();
      assert m.mem.chain.entries[..|lines|] == m.mem.chain.entries;
    }
  }

  /** The reply carries the verdict that was decided and recorded. */
  lemma {:induction false} VerdictIsReported(H: Hash, l: Ledger, input: ActionInput, c: Classification, nowMs: I64, io: Faults)
    requires ClassificationFromStr(input.classification) == Some(c)
    requires EvaluateAndRecord(H, l, input, nowMs, io).1.Ok?
    ensures !l.degraded
    ensures EvaluateAndRecord(H, l, input, nowMs, io).1.value.verdict == Decide(l, input, c, nowMs).verdict
  {
  }
}
