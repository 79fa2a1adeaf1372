/** What an approval approves: which step filed the answer that stands, and that the
    decision reported approved is the escalation a human was shown exactly when that very
    step found an escalation on record. */
module LedgerApproval {
  import opened Basics
  import opened Audit
  import opened Policy
  import opened Store
  import opened Files
  import opened Ledger
  import opened LedgerSound
  import opened LedgerSteps
  import opened LedgerBudget
  import opened LedgerRuns
  import opened LedgerAnswers
  import opened LedgerRecords
  import opened LedgerCrash
  import opened LedgerQuestions

  // ---- the accepted call ------------------------------------------------

  /** The k-th step approves the question that waits under the id, and is let through. */
  predicate Approves(H: Hash, l: Ledger, steps: seq<Step>, k: nat, id: nat) {
    && k < |steps|
    && var before := Run(H, l, steps[..k]);
       IsApprovalOf(steps[k], before.operator, id) && !before.degraded && id in before.mem.pending
  }

  lemma {:induction false} FilingIsAccepted(H: Hash, l: Ledger, s: Step, id: nat)
    requires Sound(H, l) && !ApprovedSomewhere(l, id) && ApprovedSomewhere(Apply(H, l, s).0, id)
    ensures IsApprovalOf(s, l.operator, id) && !l.degraded && id in l.mem.pending
  {
    StepEffect(H, l, s);
  }

  /** Every approval on file was filed by such a call. */
  lemma {:induction false} ApprovalWasAccepted(H: Hash, l: Ledger, steps: seq<Step>, id: nat) returns (k: nat)
    requires Sound(H, l) && !ApprovedSomewhere(l, id)
    requires ApprovedSomewhere(Run(H, l, steps), id)
    ensures Approves(H, l, steps, k, id)
  {
    var n := |steps| - 1;
    var before := Run(H, l, steps[..n]);
    RunIsSound(H, l, steps[..n]);
    if ApprovedSomewhere(before, id) {
      k := ApprovalWasAccepted(H, l, steps[..n], id);
      assert steps[..n][..k] == steps[..k];
    } else {
      FilingIsAccepted(H, before, steps[n], id);
      k := n;
    }
  }

  // ---- a record stays ---------------------------------------------------

  /** The record under the id is this one, and it is on disk. */
  predicate Holds(l: Ledger, id: nat, r: DecisionRecord) {
    && id < |l.mem.chain.entries| && l.mem.chain.entries[id].record == r
    && (l.disk.Some? ==> id < DiskLines(l))
  }

  lemma {:induction false} RunningHolds(H: Hash, l: Ledger, id: nat)
    requires Sound(H, l) && !l.degraded && id < |l.mem.chain.entries|
    ensures Holds(l, id, l.mem.chain.entries[id].record)
  {
  }

  lemma {:induction false} ReloadHolds(H: Hash, l: Ledger, lands: bool, id: nat, r: DecisionRecord)
    requires Sound(H, l) && Holds(l, id, r)
    ensures Holds(SetActive(H, l, lands).0, id, r) && Holds(Restart(H, l), id, r)
  {
    if l.disk.Some? {
      FilesLoad(H, l);
    }
  }

  lemma {:induction false} StepHolds(H: Hash, l: Ledger, s: Step, id: nat, r: DecisionRecord)
    requires Sound(H, l) && Holds(l, id, r)
    ensures Holds(Apply(H, l, s).0, id, r)
  {
    StepEffect(H, l, s);
    if IsReload(s) {
      ReloadHolds(H, l, if s.ReloadStep? then s.lands else true, id, r);
    }
  }

  lemma {:induction false} RunHolds(H: Hash, l: Ledger, steps: seq<Step>, id: nat, r: DecisionRecord)
    requires Sound(H, l) && Holds(l, id, r)
    ensures Holds(Run(H, l, steps), id, r)
  {
    if steps != [] {
      var before, last := steps[..|steps| - 1], steps[|steps| - 1];
      RunHolds(H, l, before, id, r);
      RunIsSound(H, l, before);
      StepHolds(H, Run(H, l, before), last, id, r);
    }
  }

  lemma {:induction false} RunOfParts(H: Hash, l: Ledger, steps: seq<Step>, k: nat)
    requires k <= |steps|
    ensures Run(H, l, steps) == Run(H, Run(H, l, steps[..k]), steps[k..])
    decreases |steps|
  {
    if k == |steps| {
      assert steps[..k] == steps && steps[k..] == [];
    } else {
      var before, last := steps[..|steps| - 1], steps[|steps| - 1];
      RunOfParts(H, l, before, k);
      assert before[..k] == steps[..k];
      var tail := steps[k..];
      assert tail[..|tail| - 1] == before[k..] && tail[|tail| - 1] == last;
    }
  }

  /** What is on record in a running backend is on record after any later run. */
  lemma {:induction false} RecordOutlives(H: Hash, l: Ledger, steps: seq<Step>, k: nat, id: nat)
    requires Sound(H, l) && k <= |steps|
    requires var b := Run(H, l, steps[..k]); !b.degraded && id < |b.mem.chain.entries|
    ensures var b, m := Run(H, l, steps[..k]), Run(H, l, steps);
            id < |m.mem.chain.entries| && m.mem.chain.entries[id].record == b.mem.chain.entries[id].record
  {
    var b := Run(H, l, steps[..k]);
    RunIsSound(H, l, steps[..k]);
    RunningHolds(H, b, id);
    RunHolds(H, b, steps[k..], id, b.mem.chain.entries[id].record);
    RunOfParts(H, l, steps, k);
  }

  // ---- which step filed the answer that stands --------------------------

  function At(answers: map<nat, Answer>, id: nat): Option<Answer> {
    if id in answers then Some(answers[id]) else None
  }

  /** The step answers the decision and gets as far as filing the answer: whatever it has
      to take off the queue first is off, on disk too. */
  predicate FilesAnswer(l: Ledger, s: Step, id: nat) {
    && !l.degraded
    && ((s.RejectStep? && s.id == id && id < |l.mem.chain.entries|)
        || (IsApprovalOf(s, l.operator, id) && id in l.mem.pending))
    && (l.disk.None? || id !in l.mem.pending || s.io.pending)
  }

  function AnswerOf(s: Step): Answer {
    if s.ApproveStep? then SaidYes else SaidNo
  }

  /** The steps that filed the answer in memory and the answer on disk; none where it was
      there before the run, or there is none. */
  datatype Origin = Origin(mem: Option<nat>, disk: Option<nat>)

  function OriginStep(l: Ledger, s: Step, n: nat, id: nat, o: Origin): Origin {
    if IsReload(s) then Origin(if l.disk.Some? then o.disk else o.mem, o.disk)
    else if FilesAnswer(l, s, id) then Origin(Some(n), if s.io.resolved then Some(n) else o.disk)
    else o
  }

  function OriginAfter(H: Hash, l: Ledger, steps: seq<Step>, id: nat): Origin {
    if steps == [] then Origin(None, None)
    else
      var n := |steps| - 1;
      OriginStep(Run(H, l, steps[..n]), steps[n], n, id, OriginAfter(H, l, steps[..n], id))
  }

  /** The step whose answer a poll reads after the run. */
  function Stands(H: Hash, l: Ledger, steps: seq<Step>, id: nat): Option<nat> {
    OriginAfter(H, l, steps, id).mem
  }

  lemma {:induction false} PhaseFiles(l: Ledger, id: nat, a: Answer, io: Faults)
    ensures var m := AnswerPhase(l, id, a, io).0;
            var files := l.disk.None? || id !in l.mem.pending || io.pending;
            && m.mem.resolved == (if files then l.mem.resolved[id := a] else l.mem.resolved)
            && ResolvedOnDisk(m) == (if l.disk.Some? && files && io.resolved then m.mem.resolved else ResolvedOnDisk(l))
  {
    DequeueAnswers(l, id, a, io.pending);
    FileAnswers(Dequeue(l, id, io.pending).0, id, a, io.resolved);
  }

  /** Memory and disk after a step, as far as the answer under the id goes. */
  ghost predicate FilesExactly(l: Ledger, m: Ledger, id: nat, files: bool, lands: bool, a: Answer) {
    && At(m.mem.resolved, id) == (if files then Some(a) else At(l.mem.resolved, id))
    && (l.disk.Some? ==> At(ResolvedOnDisk(m), id) == (if files && lands then Some(a) else At(ResolvedOnDisk(l), id)))
  }

  lemma {:induction false} RejectFilesExactly(H: Hash, l: Ledger, s: Step, id: nat)
    requires Sound(H, l) && s.RejectStep?
    ensures FilesExactly(l, Apply(H, l, s).0, id, FilesAnswer(l, s, id), s.io.resolved, SaidNo)
  {
    if !l.degraded && s.id < |l.mem.chain.entries| {
      PhaseFiles(l, s.id, SaidNo, s.io);
      RejectAfterPhase(H, l, s.id, s.nowMs, s.io);
    }
  }

  lemma {:induction false} RejectAfterPhase(H: Hash, l: Ledger, id: nat, nowMs: I64, io: Faults)
    requires !l.degraded && id < |l.mem.chain.entries|
    ensures var m, l1 := Reject(H, l, id, nowMs, io).0, AnswerPhase(l, id, SaidNo, io).0;
            m.mem.resolved == l1.mem.resolved && ResolvedOnDisk(m) == ResolvedOnDisk(l1)
  {
    var (l1, e1) := AnswerPhase(l, id, SaidNo, io);
    if e1.None? {
      RefundAnswers(l1, id, io);
      var l2 := RefundPhase(l1, id, io).0;
      CommitIsQuiet(H, l2, l.mem.chain.entries[id].record.(verdict := Rejected, hic := HicLevel.ApproveEach,
                                                          timestampMs := nowMs), RC300, io.log);
    }
  }

  lemma {:induction false} ApproveFilesExactly(H: Hash, l: Ledger, s: Step, id: nat)
    requires Sound(H, l) && s.ApproveStep?
    ensures FilesExactly(l, Apply(H, l, s).0, id, FilesAnswer(l, s, id), s.io.resolved, SaidYes)
  {
    if !l.degraded && IsApprovalOf(s, l.operator, s.id) && s.id in l.mem.pending {
      var (l1, e1) := AnswerPhase(l, s.id, SaidYes, s.io);
      PhaseFiles(l, s.id, SaidYes, s.io);
      if e1.None? && s.id < |l.mem.chain.entries| {
        CommitIsQuiet(H, l1, l.mem.chain.entries[s.id].record.(
                               principal := Some(s.approver), verdict := Verdict.Approved,
                               hic := HicLevel.ApproveEach, timestampMs := s.nowMs),
                      RC301(s.approver, l.mem.pending[s.id].agent), s.io.log);
      }
    }
  }

  lemma {:induction false} OtherStepsFileNothing(H: Hash, l: Ledger, s: Step)
    requires Sound(H, l) && !IsReload(s) && !s.RejectStep? && !s.ApproveStep?
    ensures var m := Apply(H, l, s).0; m.mem.resolved == l.mem.resolved && ResolvedOnDisk(m) == ResolvedOnDisk(l)
  {
    if s.ActStep? {
      EvaluateAsks(H, l, s.input, s.nowMs, s.io);
    } else {
      QuietSteps(H, l, s);
    }
  }

  lemma {:induction false} ReadBackAnswers(H: Hash, l: Ledger, s: Step)
    requires Sound(H, l) && IsReload(s)
    ensures var m := Apply(H, l, s).0;
            && m.mem.resolved == (if l.disk.Some? then ResolvedOnDisk(l) else l.mem.resolved)
            && ResolvedOnDisk(m) == ResolvedOnDisk(l)
  {
    if l.disk.Some? {
      FilesLoad(H, l);
    }
  }

  /** The answer is what this step said; without a step it is one the start had. */
  predicate Traced(H: Hash, l: Ledger, steps: seq<Step>, id: nat, o: Option<nat>, a: Option<Answer>) {
    match o
    case None => a in {At(l.mem.resolved, id), At(ResolvedOnDisk(l), id)}
    case Some(k) =>
      k < |steps| && FilesAnswer(Run(H, l, steps[..k]), steps[k], id) && a == Some(AnswerOf(steps[k]))
  }

  lemma {:induction false} TracedStays(H: Hash, l: Ledger, steps: seq<Step>, id: nat, o: Option<nat>, a: Option<Answer>)
    requires steps != [] && Traced(H, l, steps[..|steps| - 1], id, o, a)
    ensures Traced(H, l, steps, id, o, a)
  {
    if o.Some? {
      assert steps[..|steps| - 1][..o.value] == steps[..o.value];
    }
  }

  lemma {:induction false} StepOrigins(H: Hash, l: Ledger, s: Step, n: nat, id: nat, o: Origin)
    requires Sound(H, l)
    ensures var m, p := Apply(H, l, s).0, OriginStep(l, s, n, id, o);
            && ((p.mem == Some(n) && FilesAnswer(l, s, id) && At(m.mem.resolved, id) == Some(AnswerOf(s)))
                || (p.mem == o.mem && At(m.mem.resolved, id) == At(l.mem.resolved, id))
                || (p.mem == o.disk && l.disk.Some? && At(m.mem.resolved, id) == At(ResolvedOnDisk(l), id)))
            && (l.disk.Some? ==>
                  || (p.disk == Some(n) && FilesAnswer(l, s, id) && At(ResolvedOnDisk(m), id) == Some(AnswerOf(s)))
                  || (p.disk == o.disk && At(ResolvedOnDisk(m), id) == At(ResolvedOnDisk(l), id)))
  {
    if IsReload(s) {
      ReadBackAnswers(H, l, s);
    } else if s.RejectStep? {
      RejectFilesExactly(H, l, s, id);
    } else if s.ApproveStep? {
      ApproveFilesExactly(H, l, s, id);
    } else {
      OtherStepsFileNothing(H, l, s);
    }
  }

  /** Over every run the origin is right: the answer in memory, and the one on disk, is
      what the named step said. */
  lemma {:induction false} OriginsAreRight(H: Hash, l: Ledger, steps: seq<Step>, id: nat)
    requires Sound(H, l)
    ensures var o, m := OriginAfter(H, l, steps, id), Run(H, l, steps);
            && Traced(H, l, steps, id, o.mem, At(m.mem.resolved, id))
            && (m.disk.Some? ==> Traced(H, l, steps, id, o.disk, At(ResolvedOnDisk(m), id)))
            && m.disk.Some? == l.disk.Some?
  {
    if steps != [] {
      var n := |steps| - 1;
      var b := Run(H, l, steps[..n]);
      var o := OriginAfter(H, l, steps[..n], id);
      OriginsAreRight(H, l, steps[..n], id);
      RunIsSound(H, l, steps[..n]);
      StepEffect(H, b, steps[n]);
      TracedStays(H, l, steps, id, o.mem, At(b.mem.resolved, id));
      if b.disk.Some? {
        TracedStays(H, l, steps, id, o.disk, At(ResolvedOnDisk(b), id));
      }
      TracedNext(H, l, steps, id, o);
    }
  }

  lemma {:induction false} TracedNext(H: Hash, l: Ledger, steps: seq<Step>, id: nat, o: Origin)
    requires steps != []
    requires var b := Run(H, l, steps[..|steps| - 1]);
             && Sound(H, b) && Traced(H, l, steps, id, o.mem, At(b.mem.resolved, id))
             && (b.disk.Some? ==> Traced(H, l, steps, id, o.disk, At(ResolvedOnDisk(b), id)))
    ensures var n := |steps| - 1;
            var b := Run(H, l, steps[..n]);
            var m, p := Apply(H, b, steps[n]).0, OriginStep(b, steps[n], n, id, o);
            && Traced(H, l, steps, id, p.mem, At(m.mem.resolved, id))
            && (b.disk.Some? ==> Traced(H, l, steps, id, p.disk, At(ResolvedOnDisk(m), id)))
  {
    var n := |steps| - 1;
    StepOrigins(H, Run(H, l, steps[..n]), steps[n], n, id, o);
  }

  /** A decision reported approved rests on the step that filed the approval a poll reads,
      and that step is an accepted call on a question that waited under the id. */
  lemma {:induction false} GrantedStands(H: Hash, l: Ledger, steps: seq<Step>, id: nat) returns (k: nat)
    requires Sound(H, l) && !ApprovedSomewhere(l, id)
    requires DecisionStatus(Run(H, l, steps).mem, id) == Some(Granted)
    ensures Stands(H, l, steps, id) == Some(k) && Approves(H, l, steps, k, id)
    ensures FilesAnswer(Run(H, l, steps[..k]), steps[k], id)
  {
    OriginsAreRight(H, l, steps, id);
    k := Stands(H, l, steps, id).value;
  }

  // ---- exactly when the approval is of that decision ---------------------

  /** The decision under the id is on record, and the policy escalated it. */
  predicate Escalated(l: Ledger, id: nat) {
    id < |l.mem.chain.entries| && l.mem.chain.entries[id].record.verdict == RequireApproval
  }

  /** The decision on record is an escalation; the approval that stands was given when this
      very record was there, and the question its human answered asks about it. */
  predicate ApprovedAsAsked(H: Hash, l: Ledger, steps: seq<Step>, id: nat) {
    var k := Stands(H, l, steps, id);
    && k.Some? && k.value < |steps| && Escalated(Run(H, l, steps), id)
    && var b := Run(H, l, steps[..k.value]);
       var r := Run(H, l, steps).mem.chain.entries[id].record;
       && id < |b.mem.chain.entries| && b.mem.chain.entries[id].record == r
       && id in b.mem.pending && AsksAbout(b.mem.pending[id], r)
  }

  /** Whatever fails or crashes, that is so exactly when the step that filed the approval
      found an escalation on record under the id. */
  lemma {:induction false} ApprovedAsAskedIff(H: Hash, l: Ledger, steps: seq<Step>, id: nat) returns (k: nat)
    requires Sound(H, l) && QuestionsKept(l) && !ApprovedSomewhere(l, id)
    requires DecisionStatus(Run(H, l, steps).mem, id) == Some(Granted)
    ensures Stands(H, l, steps, id) == Some(k) && Approves(H, l, steps, k, id)
    ensures ApprovedAsAsked(H, l, steps, id) <==> Escalated(Run(H, l, steps[..k]), id)
  {
    k := GrantedStands(H, l, steps, id);
    if Escalated(Run(H, l, steps[..k]), id) {
      RecordOutlives(H, l, steps, k, id);
      WaitingAsksItsRecord(H, l, steps[..k], id);
    }
  }

  // ---- runs in which no crash loses a record ----------------------------

  /** Every question waits about an escalation on record. */
  predicate AsksEscalations(s: Slice) {
    forall d :: d in s.pending ==> d < |s.chain.entries| && Escalates(s.chain.entries[d])
  }

  lemma {:induction false} ShrinkingKeepsQuestions(l: Ledger, m: Ledger)
    requires AsksEscalations(l.mem) && AsksNothing(l, m)
    ensures AsksEscalations(m.mem)
  {
    forall d | d in m.mem.pending
      ensures d < |m.mem.chain.entries| && Escalates(m.mem.chain.entries[d])
    {
      assert d in l.mem.pending;
    }
  }

  lemma {:induction false} EffectsAskInMemory(l: Ledger, input: ActionInput, d: Decision, k: nat, id: nat, nowMs: I64,
                                              io: Faults)
    requires MemKept(l.mem) && PaidBy(l, input, d, k)
    ensures var m := Effects(l, input, d, id, nowMs, io).0;
            && m.mem.chain == l.mem.chain
            && (m.mem.pending == l.mem.pending
                || (d.verdict == RequireApproval && m.mem.pending == l.mem.pending[id := QuestionOf(input, id, nowMs)]))
  {
    if d.grantId.Some? {
      ChargePhaseMem(l, input.agent, k, id, ChargeFor(input.cost), io);
    }
  }

  lemma {:induction false} SettleAsksInMemory(l: Ledger, input: ActionInput, d: Decision, k: nat, nowMs: I64, io: Faults)
    requires MemKept(l.mem) && PaidBy(l, input, d, k) && l.mem.chain.entries != []
    ensures var m := Settle(l, input, d, nowMs, io).0;
            var id := |l.mem.chain.entries| - 1;
            && m.mem.chain == l.mem.chain
            && (m.mem.pending == l.mem.pending
                || (d.verdict == RequireApproval && m.mem.pending == l.mem.pending[id := QuestionOf(input, id, nowMs)]))
  {
    EffectsAskInMemory(l, input, d, k, |l.mem.chain.entries| - 1, nowMs, io);
  }

  lemma {:induction false} AppendingAsksEscalations(s: Slice, t: Slice, r: DecisionRecord)
    requires AsksEscalations(s)
    requires var n := |s.chain.entries|;
             && |t.chain.entries| == n + 1 && t.chain.entries[..n] == s.chain.entries && t.chain.entries[n].record == r
             && (t.pending == s.pending || (r.verdict == RequireApproval && t.pending.Keys == s.pending.Keys + {n}))
    ensures AsksEscalations(t)
  {
    var n := |s.chain.entries|;
    forall d | d in t.pending
      ensures d < |t.chain.entries| && Escalates(t.chain.entries[d])
    {
      if d in s.pending.Keys {
        assert t.chain.entries[..n][d] == t.chain.entries[d];
      }
    }
  }

  lemma {:induction false} EvaluateAsksInMemory(H: Hash, l: Ledger, input: ActionInput, nowMs: I64, d: Decision, k: nat,
                                                io: Faults)
    requires MemKept(l.mem) && !l.degraded && Decides(l, input, nowMs, d, k)
    ensures var m := EvaluateAndRecord(H, l, input, nowMs, io).0;
            var id := |l.mem.chain.entries|;
            || m.mem.pending == l.mem.pending
            || (d.verdict == RequireApproval && m.mem.pending == l.mem.pending[id := QuestionOf(input, id, nowMs)])
  {
    var c := ClassificationFromStr(input.classification).value;
    EvaluateAppends(H, l, input, c, nowMs);
    var r := ActionRecord(input, d, Accountable(l, input.agent, d.grantId), nowMs);
    SettleAsksInMemory(l.(mem := l.mem.(chain := Append(H, l.mem.chain, r).value)), input, d, k, nowMs, io);
  }

  lemma {:induction false} EvaluateAsksEscalations(H: Hash, l: Ledger, input: ActionInput, nowMs: I64, io: Faults)
    requires Sound(H, l) && AsksEscalations(l.mem)
    ensures AsksEscalations(EvaluateAndRecord(H, l, input, nowMs, io).0.mem)
  {
    var c := ClassificationFromStr(input.classification);
    if !l.degraded && c.Some? {
      var k := DecisionNamesPayingGrant(l, input, c.value, nowMs);
      var d := Decide(l, input, c.value, nowMs);
      var r := ActionRecord(input, d, Accountable(l, input.agent, d.grantId), nowMs);
      DecisionIsRecorded(H, l, input, nowMs, d, k, io);
      EvaluateAsksInMemory(H, l, input, nowMs, d, k, io);
      AppendingAsksEscalations(l.mem, EvaluateAndRecord(H, l, input, nowMs, io).0.mem, r);
    }
  }

  lemma {:induction false} StepAsksEscalations(H: Hash, l: Ledger, s: Step)
    requires Sound(H, l) && AsksEscalations(l.mem) && (IsReload(s) ==> !l.degraded)
    ensures AsksEscalations(Apply(H, l, s).0.mem)
  {
    if s.ActStep? {
      EvaluateAsksEscalations(H, l, s.input, s.nowMs, s.io);
    } else if IsReload(s) {
      ReloadEffect(H, l, if s.ReloadStep? then s.lands else true);
    } else {
      OtherStepsAskNothing(H, l, s);
      ShrinkingKeepsQuestions(l, Apply(H, l, s).0);
    }
  }

  lemma {:induction false} OtherStepsAskNothing(H: Hash, l: Ledger, s: Step)
    requires Sound(H, l) && !s.ActStep? && !IsReload(s)
    ensures AsksNothing(l, Apply(H, l, s).0)
  {
    var m := Apply(H, l, s).0;
    match s {
      case RejectStep(id, now, io) =>
        RejectAnswers(H, l, id, now, io);
        if !Quiet(l, m) { AnswersAskNothing(l, m, id, SaidNo); }
      case ApproveStep(id, who, now, io) =>
        ApproveAnswers(H, l, id, who, now, io);
        if !Quiet(l, m) { AnswersAskNothing(l, m, id, SaidYes); }
      case _ => QuietSteps(H, l, s);
    }
    if Quiet(l, m) {
      QuietAsksNothing(l, m);
    }
  }

  lemma {:induction false} RunAsksEscalations(H: Hash, l: Ledger, steps: seq<Step>)
    requires Sound(H, l) && AsksEscalations(l.mem) && CleanReloads(H, l, steps)
    ensures AsksEscalations(Run(H, l, steps).mem)
  {
    if steps != [] {
      var before, last := steps[..|steps| - 1], steps[|steps| - 1];
      RunAsksEscalations(H, l, before);
      RunIsSound(H, l, before);
      StepAsksEscalations(H, Run(H, l, before), last);
    }
  }

  lemma {:induction false} CleanPrefix(H: Hash, l: Ledger, steps: seq<Step>, k: nat)
    requires CleanReloads(H, l, steps) && k <= |steps|
    ensures CleanReloads(H, l, steps[..k])
    decreases |steps|
  {
    if k < |steps| {
      var before := steps[..|steps| - 1];
      CleanPrefix(H, l, before, k);
      assert before[..k] == steps[..k];
    } else {
      assert steps[..k] == steps;
    }
  }

  /** While files are read back only when no write has failed, every decision reported
      approved is approved as asked. */
  lemma {:induction false} CleanApprovalsAreAsAsked(H: Hash, l: Ledger, steps: seq<Step>, id: nat)
    requires Sound(H, l) && QuestionsKept(l) && AsksEscalations(l.mem) && CleanReloads(H, l, steps)
    requires !ApprovedSomewhere(l, id) && DecisionStatus(Run(H, l, steps).mem, id) == Some(Granted)
    ensures ApprovedAsAsked(H, l, steps, id)
  {
    var k := ApprovedAsAskedIff(H, l, steps, id);
    CleanPrefix(H, l, steps, k);
    RunAsksEscalations(H, l, steps[..k]);
  }

  /** All this is true of a first start. */
  lemma {:induction false} FirstStartAsksNothing(H: Hash, tenant: string, id: nat)
    requires !Blank(tenant)
    ensures var l := Initial(H, tenant);
            Sound(H, l) && QuestionsKept(l) && AsksEscalations(l.mem) && !ApprovedSomewhere(l, id)
  {
    InitialIsSound(H, tenant);
  }
}
