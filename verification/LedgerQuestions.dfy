/** What a waiting question is about: over every run, crashes included, a question that
    waits in a running backend under the id of an escalation on record is that
    escalation's own. */
module LedgerQuestions {
  import opened Basics
  import opened Audit
  import opened Policy
  import opened Store
  import opened Files
  import opened Ledger
  import opened LedgerSound
  import opened LedgerSteps
  import opened LedgerBudget
  import opened LedgerRuns
  import opened LedgerAnswers
  import opened LedgerRecords
  import opened LedgerCrash

  /** The question a human is shown tells of this record. */
  predicate AsksAbout(q: PendingApproval, r: DecisionRecord) {
    && q.agent == r.agent && q.actionClass == r.actionClass && q.correlationId == r.correlationId
    && q.requestedAtMs == r.timestampMs
  }

  predicate Escalates(e: Entry) {
    e.record.verdict == RequireApproval
  }

  /** Among the first n records, every escalation that a question waits under is the one
      it asks about. */
  predicate Own(pending: map<nat, PendingApproval>, entries: seq<Entry>, n: nat) {
    forall d :: d in pending && d < n && d < |entries| && Escalates(entries[d]) ==> AsksAbout(pending[d], entries[d].record)
  }

  /** So it is with what would survive a crash; a ledger without a store has memory alone. */
  predicate QuestionsKept(l: Ledger) {
    if l.disk.Some? then Own(PendingOnDisk(l), l.mem.chain.entries, DiskLines(l))
    else Own(l.mem.pending, l.mem.chain.entries, |l.mem.chain.entries|)
  }

  // ---- steps that ask nothing -------------------------------------------

  lemma {:induction false} OwnGrows(p: map<nat, PendingApproval>, q: map<nat, PendingApproval>,
                                    es: seq<Entry>, fs: seq<Entry>, n: nat, k: nat)
    requires Own(p, es, n) && es <= fs && q.Keys <= p.Keys && (forall d :: d in q ==> q[d] == p[d])
    requires k == n || n >= |es|
    requires forall i :: |es| <= i < |fs| ==> !Escalates(fs[i])
    ensures Own(q, fs, k)
  {
    forall d | d in q && d < k && d < |fs| && Escalates(fs[d]) ensures AsksAbout(q[d], fs[d].record) {
      assert d < |es| && fs[d] == es[d];
    }
  }

  /** The record grew by nothing that was escalated, and questions at most went away. */
  predicate AsksNothing(l: Ledger, m: Ledger) {
    && Grows(l, m) && NothingEscalated(l, m)
    && m.mem.pending.Keys <= l.mem.pending.Keys && (forall d :: d in m.mem.pending ==> m.mem.pending[d] == l.mem.pending[d])
    && (PendingOnDisk(m) == PendingOnDisk(l) || PendingOnDisk(m) == m.mem.pending)
  }

  lemma {:induction false} AsksNothingKeeps(H: Hash, l: Ledger, m: Ledger)
    requires Sound(H, l) && QuestionsKept(l) && AsksNothing(l, m)
    requires l.degraded ==> m.mem.chain == l.mem.chain && DiskLines(m) == DiskLines(l)
                            && PendingOnDisk(m) == PendingOnDisk(l)
    ensures QuestionsKept(m)
  {
    var es, fs := l.mem.chain.entries, m.mem.chain.entries;
    if l.disk.Some? {
      assert DiskLines(l) <= |es|;
      OwnGrows(PendingOnDisk(l), PendingOnDisk(m), es, fs, DiskLines(l), DiskLines(m));
    } else {
      OwnGrows(l.mem.pending, m.mem.pending, es, fs, |es|, |fs|);
    }
  }

  lemma {:induction false} QuietAsksNothing(l: Ledger, m: Ledger)
    requires Quiet(l, m)
    ensures AsksNothing(l, m)
  {
  }

  lemma {:induction false} AnswersAskNothing(l: Ledger, m: Ledger, id: nat, a: Answer)
    requires Answers(l, m, id, a)
    ensures AsksNothing(l, m)
  {
  }

  // ---- the step that asks -----------------------------------------------

  lemma {:induction false} DecisionIsRecorded(H: Hash, l: Ledger, input: ActionInput, nowMs: I64, d: Decision, k: nat, io: Faults)
    requires MemKept(l.mem) && !l.degraded && Decides(l, input, nowMs, d, k)
    ensures OneMore(l, EvaluateAndRecord(H, l, input, nowMs, io).0,
                    ActionRecord(input, d, Accountable(l, input.agent, d.grantId), nowMs))
  {
    var c := ClassificationFromStr(input.classification).value;
    EvaluateAppends(H, l, input, c, nowMs);
    var r := ActionRecord(input, d, Accountable(l, input.agent, d.grantId), nowMs);
    SettleKeepsChain(l.(mem := l.mem.(chain := Append(H, l.mem.chain, r).value)), input, d, k, nowMs, io);
  }

  lemma {:induction false} SettleKeepsChain(l: Ledger, input: ActionInput, d: Decision, k: nat, nowMs: I64, io: Faults)
    requires MemKept(l.mem) && l.mem.chain.entries != [] && PaidBy(l, input, d, k)
    ensures Settle(l, input, d, nowMs, io).0.mem.chain == l.mem.chain
  {
    var id := |l.mem.chain.entries| - 1;
    EffectsReport(l, input, d, k, id, nowMs, io);
    var (m, e) := Effects(l, input, d, id, nowMs, io);
    FinishMem(m, e, l.mem.chain.entries[id], d, id, io.log);
  }

  /** Without a store nothing can fail. */
  lemma {:induction false} NoStoreAsks(H: Hash, l: Ledger, input: ActionInput, nowMs: I64, d: Decision, k: nat, io: Faults)
    requires MemKept(l.mem) && !l.degraded && l.disk.None? && Decides(l, input, nowMs, d, k)
    ensures var m := EvaluateAndRecord(H, l, input, nowMs, io).0;
            m.disk.None? && m.mem.pending == (if d.verdict == RequireApproval
                                              then l.mem.pending[|l.mem.chain.entries| := QuestionOf(input, |l.mem.chain.entries|, nowMs)]
                                              else l.mem.pending)
  {
    var c := ClassificationFromStr(input.classification).value;
    EvaluateAppends(H, l, input, c, nowMs);
    var r := ActionRecord(input, d, Accountable(l, input.agent, d.grantId), nowMs);
    NoStoreSettles(l.(mem := l.mem.(chain := Append(H, l.mem.chain, r).value)), input, d, k, nowMs, io);
  }

  lemma {:induction false} NoStoreSettles(l: Ledger, input: ActionInput, d: Decision, k: nat, nowMs: I64, io: Faults)
    requires MemKept(l.mem) && l.disk.None? && PaidBy(l, input, d, k) && l.mem.chain.entries != []
    ensures var m := Settle(l, input, d, nowMs, io).0;
            var id := |l.mem.chain.entries| - 1;
            m.disk.None? && m.mem.pending == (if d.verdict == RequireApproval
                                              then l.mem.pending[id := QuestionOf(input, id, nowMs)] else l.mem.pending)
  {
    var id := |l.mem.chain.entries| - 1;
    NoStoreEffects(l, input, d, k, id, nowMs, io);
    EffectsReport(l, input, d, k, id, nowMs, io);
    var (m, e) := Effects(l, input, d, id, nowMs, io);
    FinishMem(m, e, l.mem.chain.entries[id], d, id, io.log);
  }

  lemma {:induction false} NoStoreEffects(l: Ledger, input: ActionInput, d: Decision, k: nat, id: nat, nowMs: I64, io: Faults)
    requires MemKept(l.mem) && l.disk.None? && PaidBy(l, input, d, k)
    ensures Effects(l, input, d, id, nowMs, io).1.None? && Effects(l, input, d, id, nowMs, io).0.disk.None?
  {
    if d.grantId.Some? {
      SpendKeeps(l, input.agent, k, ChargeFor(input.cost));
    }
  }

  lemma {:induction false} OwnOneMore(p: map<nat, PendingApproval>, q: map<nat, PendingApproval>, es: seq<Entry>, fs: seq<Entry>,
                                      n: nat, x: PendingApproval)
    requires Own(p, es, |es|) && |fs| == |es| + 1 && fs[..|es|] == es
    requires q == p || q == p[|es| := x]
    requires n > |es| && Escalates(fs[|es|]) ==> q == p[|es| := x] && AsksAbout(x, fs[|es|].record)
    ensures Own(q, fs, n)
  {
    forall d | d in q && d < n && d < |fs| && Escalates(fs[d]) ensures AsksAbout(q[d], fs[d].record) {
      if d < |es| {
        assert fs[..|es|][d] == fs[d];
      }
    }
  }

  lemma {:induction false} EvaluateKeepsQuestions(H: Hash, l: Ledger, input: ActionInput, nowMs: I64, io: Faults)
    requires Sound(H, l) && !l.degraded && QuestionsKept(l)
    ensures QuestionsKept(EvaluateAndRecord(H, l, input, nowMs, io).0)
  {
    var c := ClassificationFromStr(input.classification);
    if c.Some? {
      var k := DecisionNamesPayingGrant(l, input, c.value, nowMs);
      var d := Decide(l, input, c.value, nowMs);
      var id := |l.mem.chain.entries|;
      var m := EvaluateAndRecord(H, l, input, nowMs, io).0;
      DecisionIsRecorded(H, l, input, nowMs, d, k, io);
      var q := QuestionOf(input, id, nowMs);
      if l.disk.Some? {
        EvaluateOnDisk(H, l, input, nowMs, d, k, io);
        OwnOneMore(l.mem.pending, PendingOnDisk(m), l.mem.chain.entries, m.mem.chain.entries, DiskLines(m), q);
      } else {
        NoStoreAsks(H, l, input, nowMs, d, k, io);
        OwnOneMore(l.mem.pending, m.mem.pending, l.mem.chain.entries, m.mem.chain.entries, id + 1, q);
      }
    }
  }

  // ---- every step, every run --------------------------------------------

  lemma {:induction false} ReloadKeepsQuestions(H: Hash, l: Ledger, lands: bool)
    requires Sound(H, l) && QuestionsKept(l)
    ensures QuestionsKept(SetActive(H, l, lands).0) && QuestionsKept(Restart(H, l))
  {
    if l.disk.Some? {
      FilesLoad(H, l);
    }
  }

  lemma {:induction false} AnswerStepKeepsQuestions(H: Hash, l: Ledger, s: Step)
    requires Sound(H, l) && !l.degraded && QuestionsKept(l) && (s.RejectStep? || s.ApproveStep?)
    ensures QuestionsKept(Apply(H, l, s).0)
  {
    var m := Apply(H, l, s).0;
    if s.RejectStep? {
      RejectAnswers(H, l, s.id, s.nowMs, s.io);
      if Quiet(l, m) { QuietAsksNothing(l, m); } else { AnswersAskNothing(l, m, s.id, SaidNo); }
    } else {
      ApproveAnswers(H, l, s.id, s.approver, s.nowMs, s.io);
      if Quiet(l, m) { QuietAsksNothing(l, m); } else { AnswersAskNothing(l, m, s.id, SaidYes); }
    }
    AsksNothingKeeps(H, l, m);
  }

  lemma {:induction false} QuietStepKeepsQuestions(H: Hash, l: Ledger, s: Step)
    requires Sound(H, l) && QuestionsKept(l) && IsQuietStep(s)
    ensures QuestionsKept(Apply(H, l, s).0)
  {
    var m := Apply(H, l, s).0;
    QuietSteps(H, l, s);
    QuietAsksNothing(l, m);
    if l.degraded {
      DegradedAppendsNothing(H, l, s);
      DegradedKeepsChain(H, l, s);
    }
    AsksNothingKeeps(H, l, m);
  }

  lemma {:induction false} DegradedKeepsChain(H: Hash, l: Ledger, s: Step)
    requires l.degraded && IsQuietStep(s)
    ensures Apply(H, l, s).0.mem.chain == l.mem.chain
  {
  }

  lemma {:induction false} StepKeepsQuestions(H: Hash, l: Ledger, s: Step)
    requires Sound(H, l) && QuestionsKept(l)
    ensures QuestionsKept(Apply(H, l, s).0)
  {
    if IsQuietStep(s) {
      QuietStepKeepsQuestions(H, l, s);
    } else if IsReload(s) {
      ReloadKeepsQuestions(H, l, if s.ReloadStep? then s.lands else true);
    } else if !l.degraded {
      if s.ActStep? { EvaluateKeepsQuestions(H, l, s.input, s.nowMs, s.io); } else { AnswerStepKeepsQuestions(H, l, s); }
    }
  }

  lemma {:induction false} RunKeepsQuestions(H: Hash, l: Ledger, steps: seq<Step>)
    requires Sound(H, l) && QuestionsKept(l)
    ensures QuestionsKept(Run(H, l, steps))
  {
    if steps != [] {
      var before, last := steps[..|steps| - 1], steps[|steps| - 1];
      RunKeepsQuestions(H, l, before);
      RunIsSound(H, l, before);
      StepKeepsQuestions(H, Run(H, l, before), last);
    }
  }

  /** After any run, whatever crashed on the way: a question that waits in a running
      backend under an escalation on record carries that record's agent, class,
      correlation id and time. */
  lemma {:induction false} WaitingAsksItsRecord(H: Hash, l: Ledger, steps: seq<Step>, id: nat)
    requires Sound(H, l) && QuestionsKept(l)
    requires var m := Run(H, l, steps);
             && !m.degraded && id in m.mem.pending && id < |m.mem.chain.entries|
             && m.mem.chain.entries[id].record.verdict == RequireApproval
    ensures var m := Run(H, l, steps); AsksAbout(m.mem.pending[id], m.mem.chain.entries[id].record)
  {
    RunKeepsQuestions(H, l, steps);
    RunIsSound(H, l, steps);
  }
}
