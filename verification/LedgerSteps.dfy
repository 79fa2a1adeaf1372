/** Every operation of the backend, under every pattern of failing writes, keeps the
    ledger sound; so every run does, crashes and restarts included. */
module LedgerSteps {
  import opened Basics
  import opened Audit
  import opened Policy
  import opened Store
  import opened Files
  import opened Ledger
  import opened LedgerSound

  // ---- evaluate and record ----------------------------------------------

  /** The policy names a grant exactly when the action is governed, and that grant
      can pay the charge. */
  lemma {:induction false} DecisionNamesPayingGrant(l: Ledger, input: ActionInput, c: Classification, nowMs: I64) returns (k: nat)
    ensures var d := Decide(l, input, c, nowMs);
            && (d.grantId.None? <==> d.verdict == Verdict.Ungoverned)
            && (d.verdict == Verdict.Ungoverned ==> d.hic == HicLevel.Ungoverned)
            && d.verdict !in {Verdict.Rejected, Verdict.Approved}
            && PaidBy(l, input, d, k)
  {
    var action := Action(input.class_, c, ChargeFor(input.cost), input.hic1CostThreshold,
                         input.mandatoryHic1 || ClassIsMandatoryHic1(input.class_));
    var found := FindCovering(GrantsOf(l.mem, input.agent), action, nowMs);
    k := if found.Some? then found.value else 0;
  }

  /** An evaluation is never refused for want of a principal, an inconsistent record
      or an unpayable charge: those errors cannot happen. */
  lemma {:induction false} EvaluateAppends(H: Hash, l: Ledger, input: ActionInput, c: Classification, nowMs: I64)
    requires MemKept(l.mem)
    ensures var d := Decide(l, input, c, nowMs);
            var who := Accountable(l, input.agent, d.grantId);
            && (d.verdict != Verdict.Ungoverned ==> who.Some?)
            && ActionRecord(input, d, who, nowMs).Consistent()
  {
    var k := DecisionNamesPayingGrant(l, input, c, nowMs);
    var d := Decide(l, input, c, nowMs);
    if d.grantId.Some? {
      assert IsGrant(l.mem.grants, input.agent, k);
      FindsItself(l.mem.grants, input.agent, k);
    }
  }

  /** The decision's grant is the k-th of the agent's and can pay. */
  predicate PaidBy(l: Ledger, input: ActionInput, d: Decision, k: nat) {
    d.grantId.Some? ==>
      && k < |GrantsOf(l.mem, input.agent)|
      && d.grantId == Some(GrantsOf(l.mem, input.agent)[k].id)
      && ChargeFor(input.cost) <= GrantsOf(l.mem, input.agent)[k].Remaining()
  }

  lemma {:induction false} EffectsKeep(l: Ledger, input: ActionInput, d: Decision, k: nat, id: nat, nowMs: I64, io: Faults)
    requires Mid(l) && PaidBy(l, input, d, k)
    ensures var (m, e) := Effects(l, input, d, id, nowMs, io);
            Mid(m) && SameLog(l, m) && (e.Some? ==> m.degraded)
  {
    if d.grantId.Some? {
      ChargePhaseKeeps(l, input.agent, k, id, ChargeFor(input.cost), io);
    }
    var l1 := ChargePhase(l, input.agent, d.grantId, id, ChargeFor(input.cost), io).0;
    PendingPhaseKeeps(l1, input, d.verdict, id, nowMs, io);
  }

  lemma {:induction false} FinishKeeps(H: Hash, l: Ledger, m: Ledger, e: Option<Error>, d: Decision, outcome: LogOutcome)
    requires ChainKept(H, l) && LogBehind(l, 1) && Mid(l) && l.mem.chain.entries != []
    requires Mid(m) && SameLog(l, m) && (e.Some? ==> m.degraded)
    ensures var id := |l.mem.chain.entries| - 1;
            Sound(H, Finish(m, e, l.mem.chain.entries[id], d, id, outcome).0)
  {
    if e.Some? {
      StoppedBehind(H, l, m);
    } else {
      assert LogBehind(m, 1);
      SaveEntryKeeps(H, m, outcome);
    }
  }

  lemma {:induction false} SettleKeeps(H: Hash, l: Ledger, input: ActionInput, d: Decision, k: nat, nowMs: I64, io: Faults)
    requires Mid(l) && ChainKept(H, l) && LogBehind(l, 1) && l.mem.chain.entries != []
    requires PaidBy(l, input, d, k)
    ensures Sound(H, Settle(l, input, d, nowMs, io).0)
  {
    var id := |l.mem.chain.entries| - 1;
    EffectsKeep(l, input, d, k, id, nowMs, io);
    var (m, e) := Effects(l, input, d, id, nowMs, io);
    FinishKeeps(H, l, m, e, d, io.log);
  }

  lemma {:induction false} EvaluateIsSound(H: Hash, l: Ledger, input: ActionInput, nowMs: I64, io: Faults)
    requires Sound(H, l)
    ensures Sound(H, EvaluateAndRecord(H, l, input, nowMs, io).0)
  {
    var c := ClassificationFromStr(input.classification);
    if !l.degraded && c.Some? {
      var k := DecisionNamesPayingGrant(l, input, c.value, nowMs);
      EvaluateAppends(H, l, input, c.value, nowMs);
      var d := Decide(l, input, c.value, nowMs);
      var r := ActionRecord(input, d, Accountable(l, input.agent, d.grantId), nowMs);
      AppendLeavesBehind(H, l, r);
      SettleKeeps(H, l.(mem := l.mem.(chain := Append(H, l.mem.chain, r).value)), input, d, k, nowMs, io);
    }
  }

  // ---- the human's answer -----------------------------------------------

  lemma {:induction false} RejectIsSound(H: Hash, l: Ledger, id: nat, nowMs: I64, io: Faults)
    requires Sound(H, l)
    ensures Sound(H, Reject(H, l, id, nowMs, io).0)
  {
    if !l.degraded && id < |l.mem.chain.entries| {
      var (l1, e1) := AnswerPhase(l, id, SaidNo, io);
      AnswerPhaseKeeps(l, id, SaidNo, io);
      PhaseIsSound(H, l, l1);
      if e1.None? {
        var (l2, e2) := RefundPhase(l1, id, io);
        RefundPhaseKeeps(l1, id, io);
        PhaseIsSound(H, l1, l2);
        if e2.None? {
          PhaseStillRunning(l, id, SaidNo, io);
          RefundStillRunning(l1, id, io);
          CommitKeeps(H, l2, l.mem.chain.entries[id].record.(verdict := Rejected, hic := HicLevel.ApproveEach,
                                                            timestampMs := nowMs), RC300, io.log);
        }
      }
    }
  }

  /** A phase that succeeds has not degraded the backend. */
  lemma {:induction false} PhaseStillRunning(l: Ledger, id: nat, answer: Answer, io: Faults)
    requires !l.degraded && AnswerPhase(l, id, answer, io).1.None?
    ensures !AnswerPhase(l, id, answer, io).0.degraded
  {
  }

  lemma {:induction false} RefundStillRunning(l: Ledger, id: nat, io: Faults)
    requires !l.degraded && RefundPhase(l, id, io).1.None?
    ensures !RefundPhase(l, id, io).0.degraded
  {
  }

  lemma {:induction false} ApproveIsSound(H: Hash, l: Ledger, id: nat, approver: string, nowMs: I64, io: Faults)
    requires Sound(H, l)
    ensures Sound(H, Approve(H, l, id, approver, nowMs, io).0)
  {
    if !l.degraded && !Blank(approver) && MatchesOperator(l.operator, approver) && id in l.mem.pending {
      var (l1, e1) := AnswerPhase(l, id, SaidYes, io);
      AnswerPhaseKeeps(l, id, SaidYes, io);
      PhaseIsSound(H, l, l1);
      if e1.None? && id < |l.mem.chain.entries| {
        PhaseStillRunning(l, id, SaidYes, io);
        CommitKeeps(H, l1, l.mem.chain.entries[id].record.(
                             principal := Some(approver), verdict := Verdict.Approved,
                             hic := HicLevel.ApproveEach, timestampMs := nowMs),
                    RC301(approver, l.mem.pending[id].agent), io.log);
      }
    }
  }

  // ---- principals, grants and allowances --------------------------------

  lemma {:induction false} RecordPrincipalIsSound(H: Hash, l: Ledger, who: string, class_: string, detail: string,
                               nowMs: I64, outcome: LogOutcome)
    requires Sound(H, l)
    ensures Sound(H, RecordPrincipal(H, l, who, class_, detail, nowMs, outcome).0)
  {
    if !l.degraded {
      CommitKeeps(H, l, DecisionRecord(who, Some(who), None, class_, NoHash(), Verdict.Approved,
                                       HicLevel.ApproveEach, "", detail, nowMs), RC302(class_, who), outcome);
    }
  }

  lemma {:induction false} RecordDelegatedIsSound(H: Hash, l: Ledger, agent: string, who: string, authority: string, class_: string,
                               detail: string, nowMs: I64, outcome: LogOutcome)
    requires Sound(H, l)
    ensures Sound(H, RecordDelegated(H, l, agent, who, authority, class_, detail, nowMs, outcome).0)
  {
    if !l.degraded {
      CommitKeeps(H, l, DecisionRecord(agent, Some(who), Some(authority), class_, NoHash(), Verdict.Approved,
                                       HicLevel.Budgeted, "", detail, nowMs), RC303(class_, agent, who), outcome);
    }
  }

  lemma {:induction false} GrantsSaved(H: Hash, l: Ledger, grants: map<string, seq<CapabilityGrant>>, lands: bool)
    requires Sound(H, l) && GrantsKept(grants)
    ensures Sound(H, SaveGrants(l.(mem := l.mem.(grants := grants)), lands).0)
  {
    PhaseIsSound(H, l, SaveGrants(l.(mem := l.mem.(grants := grants)), lands).0);
  }

  lemma {:induction false} AllowancesSaved(H: Hash, l: Ledger, id: string, a: VoteAllowance, lands: bool)
    requires Sound(H, l) && a.id == id && a.spent <= a.weightCap
    ensures Sound(H, SaveAllowances(l.(mem := l.mem.(allowances := l.mem.allowances[id := a])), lands).0)
  {
    PhaseIsSound(H, l, SaveAllowances(l.(mem := l.mem.(allowances := l.mem.allowances[id := a])), lands).0);
  }

  lemma {:induction false} IssueGrantIsSound(H: Hash, l: Ledger, input: GrantInput, nowMs: I64, io: Faults)
    requires Sound(H, l)
    ensures Sound(H, IssueGrant(H, l, input, nowMs, io).0)
  {
    var c := ClassificationFromStr(input.ceiling);
    if c.Some? && !HasGrant(l.mem.grants, input.id) {
      var g := NewGrant(input, c.value);
      IssueKept(l.mem.grants, g);
      var grants := l.mem.grants[input.agent := GrantsOf(l.mem, input.agent) + [g]];
      GrantsSaved(H, l, grants, io.grants);
      RecordPrincipalIsSound(H, SaveGrants(l.(mem := l.mem.(grants := grants)), io.grants).0, input.issuedBy,
                             "grant.issue", input.id + ARROW + input.agent, nowMs, io.log);
    }
  }

  lemma {:induction false} RevokeGrantIsSound(H: Hash, l: Ledger, agent: string, id: string, actor: string, nowMs: I64, io: Faults)
    requires Sound(H, l)
    ensures Sound(H, RevokeGrant(H, l, agent, id, actor, nowMs, io).0)
  {
    if !Blank(actor) && FindGrant(GrantsOf(l.mem, agent), id).Some? {
      RevokeKept(l.mem.grants, agent, id);
      var grants := l.mem.grants[agent := RevokeAll(GrantsOf(l.mem, agent), id)];
      GrantsSaved(H, l, grants, io.grants);
      RecordPrincipalIsSound(H, SaveGrants(l.(mem := l.mem.(grants := grants)), io.grants).0, actor,
                             "grant.revoke", id + ARROW + agent, nowMs, io.log);
    }
  }

  lemma {:induction false} IssueAllowanceIsSound(H: Hash, l: Ledger, input: AllowanceInput, nowMs: I64, io: Faults)
    requires Sound(H, l)
    ensures Sound(H, IssueAllowance(H, l, input, nowMs, io).0)
  {
    var a := NewAllowance(input);
    AllowancesSaved(H, l, input.id, a, io.allowances);
    RecordPrincipalIsSound(
      H, SaveAllowances(l.(mem := l.mem.(allowances := l.mem.allowances[input.id := a])), io.allowances).0,
      input.principal, "allowance.issue",
      input.id + ARROW + input.agent + " (cap " + Decimal(input.weightCap) + ")", nowMs, io.log);
  }

  lemma {:induction false} CastVoteIsSound(H: Hash, l: Ledger, id: string, class_: string, weight: U64, nowMs: I64, io: Faults)
    requires Sound(H, l)
    ensures Sound(H, CastVote(H, l, id, class_, weight, nowMs, io).0)
  {
    if id in l.mem.allowances && l.mem.allowances[id].Cast(class_, weight, nowMs).Ok? {
      var a := l.mem.allowances[id].Cast(class_, weight, nowMs).value;
      AllowancesSaved(H, l, id, a, io.allowances);
      RecordDelegatedIsSound(
        H, SaveAllowances(l.(mem := l.mem.(allowances := l.mem.allowances[id := a])), io.allowances).0,
        a.agent, a.principal, id, "vote.cast",
        id + DOT + class_ + DOT + "weight " + Decimal(weight) + DOT + Proof(a), nowMs, io.log);
    }
  }

  lemma {:induction false} RevokeAllowanceIsSound(H: Hash, l: Ledger, id: string, nowMs: I64, io: Faults)
    requires Sound(H, l)
    ensures Sound(H, RevokeAllowance(H, l, id, nowMs, io).0)
  {
    if id in l.mem.allowances {
      var a := l.mem.allowances[id].Revoke();
      AllowancesSaved(H, l, id, a, io.allowances);
      RecordPrincipalIsSound(
        H, SaveAllowances(l.(mem := l.mem.(allowances := l.mem.allowances[id := a])), io.allowances).0,
        a.principal, "allowance.revoke", id, nowMs, io.log);
    }
  }

  // ---- reload and restart -----------------------------------------------

  /** What the files of a sound ledger load back to: the durable prefix of the
      chain, and the other files as they are. */
  lemma {:induction false} FilesLoad(H: Hash, l: Ledger)
    requires Sound(H, l) && l.disk.Some?
    ensures var d := l.disk.value;
            var n := |d.log.Lines()|;
            && n <= |l.mem.chain.entries|
            && Linked(H, ChainPrefix(H, l.mem.chain, n))
            && LoadSlice(H, l.tenant, d)
               == Ok(Slice(ChainPrefix(H, l.mem.chain, n), d.grants.value, d.allowances, d.charges,
                           d.pending, d.resolved))
  {
    var f := l.disk.value.log;
    var n := |f.Lines()|;
    var es := l.mem.chain.entries;
    assert LinesOf(es[..n]) == LinesOf(es)[..n];
    OwnLogLoads(H, l.mem.chain, n, f.count);
    PrefixIsLinked(H, l.mem.chain, n);
    assert ChainPrefix(H, l.mem.chain, 0) == Fresh(H, l.tenant);
  }

  lemma {:induction false} SetActiveIsSound(H: Hash, l: Ledger, lands: bool)
    requires Sound(H, l)
    ensures Sound(H, SetActive(H, l, lands).0)
  {
    if l.disk.Some? {
      FilesLoad(H, l);
      var m := SetActive(H, l, lands).0;
      var n := |l.disk.value.log.Lines()|;
      assert m.mem.chain.entries[..n] == l.mem.chain.entries[..n];
      assert LogBehind(m, 0);
    }
  }

  lemma {:induction false} RestartIsSound(H: Hash, l: Ledger)
    requires Sound(H, l)
    ensures Sound(H, Restart(H, l))
  {
    if l.disk.Some? {
      FilesLoad(H, l);
      var m := Restart(H, l);
      var n := |l.disk.value.log.Lines()|;
      assert m.mem.chain.entries[..n] == l.mem.chain.entries[..n];
      assert LogBehind(m, 0);
    }
  }

  /** Unless a write failed, a restart changes nothing: the files load back to
      exactly the working set, and a new process is in the state the old one was. */
  lemma {:induction false} CleanRestartIsIdentity(H: Hash, l: Ledger)
    requires Sound(H, l) && l.disk.Some? && !l.degraded
    ensures LoadSlice(H, l.tenant, l.disk.value) == Ok(l.mem)
    ensures Restart(H, l) == l
  {
    FilesLoad(H, l);
    var es := l.mem.chain.entries;
    assert es[..|es|] == es;
    assert ChainPrefix(H, l.mem.chain, |es|) == l.mem.chain;
  }

  // ---- issues that fail -------------------------------------------------

  lemma {:induction false} RecordKeepsGrants(H: Hash, l: Ledger, who: string, class_: string, detail: string,
                                             nowMs: I64, outcome: LogOutcome)
    ensures var m := RecordPrincipal(H, l, who, class_, detail, nowMs, outcome).0;
            m.mem.grants == l.mem.grants && m.mem.allowances == l.mem.allowances
  {
    CommitKeepsAllowances(H, l, DecisionRecord(who, Some(who), None, class_, NoHash(), Verdict.Approved,
                                               HicLevel.ApproveEach, "", detail, nowMs), RC302(class_, who), outcome);
  }

  /** An issue that returns an error leaves the grant live in memory exactly when its
      ceiling was readable and its id was free: a failed write, a blank issuer or a
      degraded backend comes too late. */
  lemma {:induction false} FailedIssueStands(H: Hash, l: Ledger, input: GrantInput, nowMs: I64, io: Faults)
    requires IssueGrant(H, l, input, nowMs, io).1.Err? && !HasGrant(l.mem.grants, input.id)
    ensures var m := IssueGrant(H, l, input, nowMs, io).0;
            HasGrant(m.mem.grants, input.id) <==> ClassificationFromStr(input.ceiling).Some?
  {
    var c := ClassificationFromStr(input.ceiling);
    if c.Some? {
      var g := NewGrant(input, c.value);
      var gs := GrantsOf(l.mem, input.agent) + [g];
      var l1 := l.(mem := l.mem.(grants := l.mem.grants[input.agent := gs]));
      var l2 := SaveGrants(l1, io.grants).0;
      RecordKeepsGrants(H, l2, input.issuedBy, "grant.issue", input.id + ARROW + input.agent, nowMs, io.log);
      var m := IssueGrant(H, l, input, nowMs, io).0;
      assert m.mem.grants == l1.mem.grants;
      assert g in m.mem.grants[input.agent] && g.id == input.id;
    }
  }

  /** Issuing an allowance under an id in use replaces it, and whatever it had spent is
      forgotten, unless the principal's name is blank. */
  lemma {:induction false} ReissueForgetsSpending(H: Hash, l: Ledger, input: AllowanceInput, nowMs: I64, io: Faults)
    ensures var m := IssueAllowance(H, l, input, nowMs, io).0;
            m.mem.allowances == if Blank(input.principal) then l.mem.allowances
                                else l.mem.allowances[input.id := NewAllowance(input)]
    ensures NewAllowance(input).spent == 0
  {
    if !Blank(input.principal) {
      var l1 := l.(mem := l.mem.(allowances := l.mem.allowances[input.id := NewAllowance(input)]));
      var l2 := SaveAllowances(l1, io.allowances).0;
      RecordKeepsGrants(H, l2, input.principal, "allowance.issue",
                        input.id + ARROW + input.agent + " (cap " + Decimal(input.weightCap) + ")", nowMs, io.log);
    }
  }

  lemma {:induction false} CommitKeepsAllowances(H: Hash, l: Ledger, r: DecisionRecord, reason: Reason, outcome: LogOutcome)
    ensures var m := Commit(H, l, r, reason, outcome).0;
            && m.mem.grants == l.mem.grants && m.mem.allowances == l.mem.allowances && m.disk.Some? == l.disk.Some?
            && (l.disk.Some? ==> m.disk.value.allowances == l.disk.value.allowances)
  {
  }

  lemma {:induction false} DelegatedKeepsAllowances(H: Hash, l: Ledger, agent: string, who: string, authority: string,
                                                    class_: string, detail: string, nowMs: I64, outcome: LogOutcome)
    ensures var (m, r) := RecordDelegated(H, l, agent, who, authority, class_, detail, nowMs, outcome);
            && m.mem.allowances == l.mem.allowances && m.disk.Some? == l.disk.Some?
            && (l.disk.Some? ==> m.disk.value.allowances == l.disk.value.allowances)
            && (l.degraded ==> r.Err? && m.mem.chain == l.mem.chain)
  {
    CommitKeepsAllowances(H, l, DecisionRecord(agent, Some(who), Some(authority), class_, NoHash(), Verdict.Approved,
                                               HicLevel.Budgeted, "", detail, nowMs), RC303(class_, agent, who), outcome);
  }

  /** A cast that returns an error has spent its weight all the same exactly when the
      allowance accepted it: in memory always, on disk when the write lands. A degraded
      backend accepts like any other, returns an error and records nothing. */
  lemma {:induction false} FailedCastSpends(H: Hash, l: Ledger, id: string, class_: string, weight: U64, nowMs: I64,
                                            io: Faults)
    requires MemKept(l.mem) && CastVote(H, l, id, class_, weight, nowMs, io).1.Err?
    ensures var m := CastVote(H, l, id, class_, weight, nowMs, io).0;
            var accepted := id in l.mem.allowances && l.mem.allowances[id].Cast(class_, weight, nowMs).Ok?;
            && (if accepted
                then id in m.mem.allowances && m.mem.allowances - {id} == l.mem.allowances - {id}
                     && m.mem.allowances[id] == l.mem.allowances[id].(spent := l.mem.allowances[id].spent + weight)
                else m == l)
            && (accepted && l.disk.Some? ==>
                  m.disk.Some?
                  && m.disk.value.allowances == if io.allowances then m.mem.allowances else l.disk.value.allowances)
    ensures l.degraded ==> CastVote(H, l, id, class_, weight, nowMs, io).0.mem.chain == l.mem.chain
  {
    if id in l.mem.allowances && l.mem.allowances[id].Cast(class_, weight, nowMs).Ok? {
      var a := l.mem.allowances[id].Cast(class_, weight, nowMs).value;
      var l1 := SaveAllowances(l.(mem := l.mem.(allowances := l.mem.allowances[id := a])), io.allowances).0;
      DelegatedKeepsAllowances(H, l1, a.agent, a.principal, id, "vote.cast",
                               id + DOT + class_ + DOT + "weight " + Decimal(weight) + DOT + Proof(a), nowMs, io.log);
    }
  }

  /** On a degraded backend every cast returns an error, accepted or not. */
  lemma {:induction false} DegradedCastFails(H: Hash, l: Ledger, id: string, class_: string, weight: U64, nowMs: I64, io: Faults)
    requires l.degraded
    ensures CastVote(H, l, id, class_, weight, nowMs, io).1.Err?
  {
    if id in l.mem.allowances && l.mem.allowances[id].Cast(class_, weight, nowMs).Ok? {
      var a := l.mem.allowances[id].Cast(class_, weight, nowMs).value;
      var l1 := SaveAllowances(l.(mem := l.mem.(allowances := l.mem.allowances[id := a])), io.allowances).0;
      DelegatedKeepsAllowances(H, l1, a.agent, a.principal, id, "vote.cast",
                               id + DOT + class_ + DOT + "weight " + Decimal(weight) + DOT + Proof(a), nowMs, io.log);
    }
  }
}
