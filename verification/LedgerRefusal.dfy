/** Whether a refusal holds: over every later run, whatever fails or crashes, and exactly
    when. */
module LedgerRefusal {
  import opened Basics
  import opened Audit
  import opened Policy
  import opened Store
  import opened Files
  import opened Ledger
  import opened LedgerSound
  import opened LedgerSteps
  import opened LedgerBudget
  import opened LedgerRuns
  import opened LedgerAnswers
  import opened LedgerRecords
  import opened LedgerCrash

  // ---- out of every queue, approved nowhere -----------------------------

  /** The decision is on record, in memory and on disk; nothing waits on it and no
      approval of it is on file. */
  predicate Unapprovable(l: Ledger, id: nat) {
    && id < |l.mem.chain.entries| && (l.disk.Some? ==> id < DiskLines(l))
    && id !in l.mem.pending && id !in PendingOnDisk(l) && !ApprovedSomewhere(l, id)
  }

  lemma {:induction false} UnapprovableStays(l: Ledger, s: Step, m: Ledger, id: nat)
    requires Effect(l, s, m) && Unapprovable(l, id)
    ensures Unapprovable(m, id)
  {
    if Asks(l, m) {
      assert id in m.mem.pending <==> id in m.mem.pending - {|l.mem.chain.entries|};
      assert id in l.mem.pending <==> id in l.mem.pending - {|l.mem.chain.entries|};
    }
  }

  lemma {:induction false} UnapprovableForEver(H: Hash, l: Ledger, steps: seq<Step>, id: nat)
    requires Sound(H, l) && Unapprovable(l, id)
    ensures Unapprovable(Run(H, l, steps), id)
  {
    if steps != [] {
      var before, last := steps[..|steps| - 1], steps[|steps| - 1];
      UnapprovableForEver(H, l, before, id);
      RunIsSound(H, l, before);
      StepEffect(H, Run(H, l, before), last);
      UnapprovableStays(Run(H, l, before), last, Run(H, l, steps), id);
    }
  }

  /** No later run ever reports the decision approved. */
  ghost predicate NeverGranted(H: Hash, m: Ledger, id: nat) {
    forall steps :: DecisionStatus(Run(H, m, steps).mem, id) != Some(Granted)
  }

  lemma {:induction false} UnapprovableIsNeverGranted(H: Hash, m: Ledger, id: nat)
    requires Sound(H, m) && Unapprovable(m, id)
    ensures NeverGranted(H, m, id)
  {
    forall steps ensures DecisionStatus(Run(H, m, steps).mem, id) != Some(Granted) {
      UnapprovableForEver(H, m, steps, id);
    }
  }

  // ---- what a rejection leaves ------------------------------------------

  lemma {:induction false} RejectedInMemory(H: Hash, l: Ledger, id: nat, nowMs: I64, io: Faults)
    requires !l.degraded && id < |l.mem.chain.entries| && id in l.mem.pending
    ensures var m := Reject(H, l, id, nowMs, io).0;
            && l.mem.chain.entries <= m.mem.chain.entries && m.disk.Some? == l.disk.Some?
            && id !in m.mem.pending
            && m.mem.resolved == (if l.disk.None? || io.pending then l.mem.resolved[id := SaidNo] else l.mem.resolved)
  {
    var (l1, ok) := Dequeue(l, id, io.pending);
    DequeueLeaves(l, id, io.pending);
    if ok {
      AnswerInMemory(l, id, io);
      var (l2, e) := AnswerPhase(l, id, SaidNo, io);
      if e.None? {
        RefundFiles(l2, id, io);
        var (l3, e3) := RefundPhase(l2, id, io);
        if e3.None? {
          CommitRecords(H, l3, l.mem.chain.entries[id].record.(verdict := Rejected, hic := HicLevel.ApproveEach,
                                                               timestampMs := nowMs), RC300, io.log);
        }
      }
    }
    RejectAnswers(H, l, id, nowMs, io);
  }

  lemma {:induction false} AnswerInMemory(l: Ledger, id: nat, io: Faults)
    requires Dequeue(l, id, io.pending).1
    ensures AnswerPhase(l, id, SaidNo, io).0.mem
            == l.mem.(pending := l.mem.pending - {id}, resolved := l.mem.resolved[id := SaidNo])
  {
    DequeueLeaves(l, id, io.pending);
  }

  /** Once the queue no longer holds the question and no approval is on file, or the
      refusal itself is on file, nothing can approve the decision any more. */
  lemma {:induction false} RejectedIsUnapprovable(H: Hash, l: Ledger, id: nat, nowMs: I64, io: Faults)
    requires Sound(H, l) && !l.degraded && id < |l.mem.chain.entries| && id in l.mem.pending
    requires l.disk.None? || (io.pending && (io.resolved || !ApprovedSomewhere(l, id)))
    ensures Unapprovable(Reject(H, l, id, nowMs, io).0, id)
  {
    RejectedInMemory(H, l, id, nowMs, io);
    if l.disk.Some? {
      RejectedOnDisk(H, l, id, nowMs, io);
      RejectKeepsLines(H, l, id, nowMs, io);
    }
  }

  // ---- how a refusal that did not land is undone ------------------------

  const ANN: string := "ann"

  /** The operator names herself and approves. */
  function ApproveAnyway(id: nat): seq<Step> {
    [OperatorStep(ANN, true), ApproveStep(id, ANN, 0, ALL_LAND)]
  }

  lemma {:induction false} RunAfter(H: Hash, l: Ledger, steps: seq<Step>, s: Step)
    ensures Run(H, l, steps + [s]) == Apply(H, Run(H, l, steps), s).0
  {
    assert (steps + [s])[..|steps|] == steps;
  }

  lemma {:induction false} RunTwo(H: Hash, l: Ledger, s: Step, t: Step)
    ensures Run(H, l, [s, t]) == Apply(H, Apply(H, l, s).0, t).0
  {
    RunAfter(H, l, [], s);
    RunAfter(H, l, [s], t);
    assert [] + [s] == [s] && [s] + [t] == [s, t];
  }

  lemma {:induction false} RunConcat(H: Hash, l: Ledger, p: seq<Step>, q: seq<Step>)
    ensures Run(H, l, p + q) == Run(H, Run(H, l, p), q)
    decreases |q|
  {
    if q == [] {
      assert p + q == p;
    } else {
      var before, last := q[..|q| - 1], q[|q| - 1];
      RunConcat(H, l, p, before);
      RunAfter(H, l, p + before, last);
      assert p + q == p + before + [last];
    }
  }

  /** A question that waits in a running backend can always be approved. */
  lemma {:induction false} WaitingCanBeApproved(H: Hash, l: Ledger, id: nat)
    requires !l.degraded && id in l.mem.pending
    ensures DecisionStatus(Run(H, l, ApproveAnyway(id)).mem, id) == Some(Granted)
  {
    TrimmedAnn();
    var m := Apply(H, l, OperatorStep(ANN, true)).0;
    RunTwo(H, l, OperatorStep(ANN, true), ApproveStep(id, ANN, 0, ALL_LAND));
    ApprovalIsFiled(H, m, id);
  }

  lemma {:induction false} ApprovalIsFiled(H: Hash, m: Ledger, id: nat)
    requires !m.degraded && id in m.mem.pending && !Blank(ANN) && m.operator == Some(Trim(ANN))
    ensures DecisionStatus(Approve(H, m, id, ANN, 0, ALL_LAND).0.mem, id) == Some(Granted)
  {
    TrimmedAnn();
    var (m1, e) := AnswerPhase(m, id, SaidYes, ALL_LAND);
    AnswerFiles(m, id, SaidYes, ALL_LAND);
    assert e.None?;
    if id < |m.mem.chain.entries| {
      CommitRecords(H, m1, m.mem.chain.entries[id].record.(principal := Some(ANN), verdict := Verdict.Approved,
                                                           hic := HicLevel.ApproveEach, timestampMs := 0),
                    RC301(ANN, m.mem.pending[id].agent), LogDone);
    }
  }

  lemma {:induction false} TrimmedAnn()
    ensures Trim(ANN) == ANN && Trim(Trim(ANN)) == ANN && !Blank(ANN)
  {
    assert Trim("ann") == "ann";
  }

  /** When the queue write fails the question waits again after a restart, with whatever
      answer was on file before, so it can still be approved. */
  lemma {:induction false} UnqueuedWaitsAgain(H: Hash, l: Ledger, id: nat, nowMs: I64, io: Faults)
    requires Sound(H, l) && l.disk.Some? && !l.degraded && id < |l.mem.chain.entries| && id in l.mem.pending
    requires !io.pending
    ensures var r := Restart(H, Reject(H, l, id, nowMs, io).0);
            && !r.degraded && id in r.mem.pending && r.mem.pending == l.mem.pending
            && r.mem.resolved == l.mem.resolved && DecisionStatus(r.mem, id) == Some(Waiting)
  {
    var m := Reject(H, l, id, nowMs, io).0;
    RejectIsSound(H, l, id, nowMs, io);
    RejectedOnDisk(H, l, id, nowMs, io);
    RestartReads(H, m);
    RestartRuns(H, m);
  }

  /** A rejection of a decision that waits holds over every later run, crashes anywhere
      included, exactly when the decision is on record and, where there is a store, the
      queue write landed and either the answer write did too or no approval was on file
      under the id before. */
  lemma {:induction false} RefusalHolds(H: Hash, l: Ledger, id: nat, nowMs: I64, io: Faults)
    requires Sound(H, l) && !l.degraded && id in l.mem.pending
    ensures NeverGranted(H, Reject(H, l, id, nowMs, io).0, id)
            <==> id < |l.mem.chain.entries|
                 && (l.disk.None? || (io.pending && (io.resolved || !ApprovedSomewhere(l, id))))
  {
    var m := Reject(H, l, id, nowMs, io).0;
    RejectIsSound(H, l, id, nowMs, io);
    if id >= |l.mem.chain.entries| {
      WaitingCanBeApproved(H, l, id);
    } else if l.disk.None? || (io.pending && (io.resolved || !ApprovedSomewhere(l, id))) {
      RejectedIsUnapprovable(H, l, id, nowMs, io);
      UnapprovableIsNeverGranted(H, m, id);
    } else if io.pending {
      RefusalAcrossCrash(H, l, id, nowMs, io);
      RestartGrants(H, m, id);
    } else {
      UnqueuedWaitsAgain(H, l, id, nowMs, io);
      WaitingCanBeApproved(H, Restart(H, m), id);
      RunConcat(H, m, [RestartStep], ApproveAnyway(id));
      RestartRun(H, m);
    }
  }

  lemma {:induction false} RestartRun(H: Hash, m: Ledger)
    ensures Run(H, m, [RestartStep]) == Restart(H, m)
  {
    assert [RestartStep][..0] == [];
  }

  lemma {:induction false} RestartGrants(H: Hash, m: Ledger, id: nat)
    requires DecisionStatus(Restart(H, m).mem, id) == Some(Granted)
    ensures !NeverGranted(H, m, id)
  {
    RestartRun(H, m);
  }

  /** So on a ledger where no decision is both waiting and answered, a refusal whose queue
      write lands is never reported approved, wherever it stops after that. */
  lemma {:induction false} QueuedRefusalHolds(H: Hash, l: Ledger, id: nat, nowMs: I64, io: Faults, steps: seq<Step>)
    requires Sound(H, l) && OnRecord(l.mem) && !l.degraded && id in l.mem.pending && (l.disk.Some? ==> io.pending)
    ensures DecisionStatus(Run(H, Reject(H, l, id, nowMs, io).0, steps).mem, id) != Some(Granted)
  {
    RefusalHolds(H, l, id, nowMs, io);
  }
}
