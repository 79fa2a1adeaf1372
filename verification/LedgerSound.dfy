/** What every step keeps, whatever writes fail: grants stay identified and inside
    their budgets, and memory and disk stay in the write-through relation. */
module LedgerSound {
  import opened Basics
  import opened Audit
  import opened Policy
  import opened Store
  import opened Files
  import opened Ledger

  // ---- the invariant ----------------------------------------------------

  predicate IsGrant(grants: map<string, seq<CapabilityGrant>>, a: string, i: int) {
    a in grants && 0 <= i < |grants[a]|
  }

  /** Grants are filed under their agent, within budget, and an id names one grant. */
  ghost predicate GrantsKept(grants: map<string, seq<CapabilityGrant>>) {
    && (forall a :: a in grants ==> grants[a] != [])
    && (forall a, i :: IsGrant(grants, a, i) ==>
          grants[a][i].agent == a && grants[a][i].consumed <= grants[a][i].budgetUnits)
    && (forall a, i, b, j :: IsGrant(grants, a, i) && IsGrant(grants, b, j) ==>
          grants[a][i].id == grants[b][j].id ==> a == b && i == j)
  }

  ghost predicate Kept(grants: map<string, seq<CapabilityGrant>>, allowances: map<string, VoteAllowance>,
                       charges: map<nat, Charge>, pending: map<nat, PendingApproval>)
  {
    && GrantsKept(grants)
    && (forall id :: id in allowances ==>
          allowances[id].id == id && allowances[id].spent <= allowances[id].weightCap)
    && (forall d :: d in charges ==> charges[d].decision == d && charges[d].units >= 1)
    && (forall d :: d in pending ==> pending[d].decision == d)
  }

  ghost predicate MemKept(s: Slice) {
    Kept(s.grants, s.allowances, s.charges, s.pending)
  }

  ghost predicate DiskKept(d: Disk) {
    d.grants.Ok? && Kept(d.grants.value, d.allowances, d.charges, d.pending)
  }

  /** While no write has failed, every file but the log holds what memory holds. */
  ghost predicate Synced(l: Ledger) {
    l.disk.Some? && !l.degraded ==>
      var d := l.disk.value;
      && d.grants == Ok(l.mem.grants) && d.allowances == l.mem.allowances
      && d.charges == l.mem.charges && d.pending == l.mem.pending && d.resolved == l.mem.resolved
      && d.operator == l.operator
  }

  /** The log on disk is the chain without its last `behind` entries, and the count
      never runs ahead of the log. */
  ghost predicate LogBehind(l: Ledger, behind: nat) {
    l.disk.Some? ==>
      var f := l.disk.value.log;
      && |f.Lines()| + behind == |l.mem.chain.entries|
      && f.Lines() == LinesOf(l.mem.chain.entries[..|f.Lines()|])
      && f.count <= |f.Lines()|
  }

  /** At most one record is missing from disk, and none unless a write failed. */
  ghost predicate LogKept(l: Ledger) {
    LogBehind(l, 0) || (l.degraded && LogBehind(l, 1))
  }

  ghost predicate ChainKept(H: Hash, l: Ledger) {
    l.mem.chain.tenant == l.tenant && Linked(H, l.mem.chain)
  }

  ghost predicate Sound(H: Hash, l: Ledger) {
    && !Blank(l.tenant)
    && ChainKept(H, l)
    && MemKept(l.mem)
    && (l.disk.Some? ==> DiskKept(l.disk.value) && l.disk.value.egress == l.egress)
    && Synced(l)
    && LogKept(l)
  }

  lemma {:induction false} InitialIsSound(H: Hash, tenant: string)
    requires !Blank(tenant)
    ensures Sound(H, Initial(H, tenant))
  {
    FreshIsLinked(H, tenant);
    assert LogBehind(Initial(H, tenant), 0);
  }

  // ---- grants -----------------------------------------------------------

  /** Replacing a grant by one with the same identity, inside its budget, keeps the file. */
  lemma {:induction false} UpdateGrantKept(grants: map<string, seq<CapabilityGrant>>, agent: string, k: nat, g: CapabilityGrant)
    requires GrantsKept(grants) && IsGrant(grants, agent, k)
    requires g.agent == agent && g.id == grants[agent][k].id && g.consumed <= g.budgetUnits
    ensures GrantsKept(grants[agent := grants[agent][k := g]])
  {
    var after := grants[agent := grants[agent][k := g]];
    forall a, i, b, j | IsGrant(after, a, i) && IsGrant(after, b, j) && after[a][i].id == after[b][j].id
      ensures a == b && i == j
    {
      assert IsGrant(grants, a, i) && IsGrant(grants, b, j);
      assert grants[a][i].id == after[a][i].id && grants[b][j].id == after[b][j].id;
    }
    forall a, i | IsGrant(after, a, i)
      ensures after[a][i].agent == a && after[a][i].consumed <= after[a][i].budgetUnits
    {
      assert IsGrant(grants, a, i);
    }
  }

  lemma {:induction false} RevokeKept(grants: map<string, seq<CapabilityGrant>>, agent: string, id: string)
    requires GrantsKept(grants) && agent in grants
    ensures GrantsKept(grants[agent := RevokeAll(grants[agent], id)])
  {
    var after := grants[agent := RevokeAll(grants[agent], id)];
    forall a, i | IsGrant(after, a, i)
      ensures after[a][i].agent == a && after[a][i].consumed <= after[a][i].budgetUnits
    {
      assert IsGrant(grants, a, i);
    }
    forall a, i, b, j | IsGrant(after, a, i) && IsGrant(after, b, j) && after[a][i].id == after[b][j].id
      ensures a == b && i == j
    {
      assert IsGrant(grants, a, i) && IsGrant(grants, b, j);
      assert grants[a][i].id == after[a][i].id && grants[b][j].id == after[b][j].id;
    }
  }

  lemma {:induction false} NoSuchGrant(grants: map<string, seq<CapabilityGrant>>, id: string, a: string, i: int)
    requires !HasGrant(grants, id) && IsGrant(grants, a, i)
    ensures grants[a][i].id != id
  {
    assert grants[a][i] in grants[a];
  }

  lemma {:induction false} IssueKept(grants: map<string, seq<CapabilityGrant>>, g: CapabilityGrant)
    requires GrantsKept(grants) && !HasGrant(grants, g.id) && g.consumed <= g.budgetUnits
    ensures GrantsKept(grants[g.agent := (if g.agent in grants then grants[g.agent] else []) + [g]])
  {
    var own := if g.agent in grants then grants[g.agent] else [];
    var after := grants[g.agent := own + [g]];
    forall a, i | IsGrant(after, a, i)
      ensures || (IsGrant(grants, a, i) && after[a][i] == grants[a][i])
              || (a == g.agent && i == |own| && after[a][i] == g)
    {
    }
    forall a, i, b, j | IsGrant(after, a, i) && IsGrant(after, b, j) && after[a][i].id == after[b][j].id
      ensures a == b && i == j
    {
      if IsGrant(grants, a, i) && after[a][i] == grants[a][i] {
        NoSuchGrant(grants, g.id, a, i);
      }
      if IsGrant(grants, b, j) && after[b][j] == grants[b][j] {
        NoSuchGrant(grants, g.id, b, j);
      }
    }
  }

  /** Looking a grant up by the id of the k-th finds the k-th. */
  lemma {:induction false} FindsItself(grants: map<string, seq<CapabilityGrant>>, agent: string, k: nat)
    requires GrantsKept(grants) && IsGrant(grants, agent, k)
    ensures FindGrant(grants[agent], grants[agent][k].id) == Some(k)
  {
    var r := FindGrant(grants[agent], grants[agent][k].id);
    if r.Some? {
      assert IsGrant(grants, agent, r.value);
    }
  }

  // ---- phases -----------------------------------------------------------

  /** What holds between the phases of a step: everything but the log. */
  ghost predicate Mid(l: Ledger) {
    && !Blank(l.tenant)
    && MemKept(l.mem)
    && (l.disk.Some? ==> DiskKept(l.disk.value) && l.disk.value.egress == l.egress)
    && Synced(l)
  }

  /** A phase leaves the chain and the log alone and never clears the degraded mark. */
  predicate SameLog(l: Ledger, m: Ledger) {
    && m.tenant == l.tenant && m.mem.chain == l.mem.chain
    && m.disk.Some? == l.disk.Some?
    && (l.disk.Some? ==> m.disk.value.log == l.disk.value.log)
    && (l.degraded ==> m.degraded)
  }

  lemma {:induction false} SpendKeeps(l: Ledger, agent: string, k: nat, units: U64)
    requires MemKept(l.mem) && k < |GrantsOf(l.mem, agent)|
    requires units <= GrantsOf(l.mem, agent)[k].Remaining()
    ensures var id := GrantsOf(l.mem, agent)[k].id;
            && Spend(l, agent, id, units).Some?
            && var m := Spend(l, agent, id, units).value;
               && MemKept(m.mem) && m == l.(mem := l.mem.(grants := m.mem.grants))
  {
    assert IsGrant(l.mem.grants, agent, k);
    FindsItself(l.mem.grants, agent, k);
    UpdateGrantKept(l.mem.grants, agent, k, l.mem.grants[agent][k].Consume(units).value);
  }

  lemma {:induction false} ChargePhaseKeeps(l: Ledger, agent: string, k: nat, id: nat, units: U64, io: Faults)
    requires Mid(l) && k < |GrantsOf(l.mem, agent)| && units >= 1
    requires units <= GrantsOf(l.mem, agent)[k].Remaining()
    ensures var (m, e) := ChargePhase(l, agent, Some(GrantsOf(l.mem, agent)[k].id), id, units, io);
            Mid(m) && SameLog(l, m) && (e.Some? ==> e == Some(WriteFailed) && m.degraded)
  {
    SpendKeeps(l, agent, k, units);
  }

  lemma {:induction false} PendingPhaseKeeps(l: Ledger, input: ActionInput, verdict: Verdict, id: nat, nowMs: I64, io: Faults)
    requires Mid(l)
    ensures var (m, e) := PendingPhase(l, input, verdict, id, nowMs, io);
            Mid(m) && SameLog(l, m) && (e.Some? ==> m.degraded)
  {
  }

  lemma {:induction false} DequeueKeeps(l: Ledger, id: nat, lands: bool)
    requires Mid(l)
    ensures var (m, ok) := Dequeue(l, id, lands);
            Mid(m) && SameLog(l, m) && (!ok ==> m.degraded)
  {
  }

  lemma {:induction false} FileAnswerKeeps(l: Ledger, id: nat, answer: Answer, lands: bool)
    requires Mid(l)
    ensures var (m, ok) := FileAnswer(l, id, answer, lands);
            Mid(m) && SameLog(l, m) && (!ok ==> m.degraded)
  {
  }

  lemma {:induction false} AnswerPhaseKeeps(l: Ledger, id: nat, answer: Answer, io: Faults)
    requires Mid(l)
    ensures var (m, e) := AnswerPhase(l, id, answer, io);
            Mid(m) && SameLog(l, m) && (e.Some? ==> m.degraded)
  {
    DequeueKeeps(l, id, io.pending);
    FileAnswerKeeps(Dequeue(l, id, io.pending).0, id, answer, io.resolved);
  }

  lemma {:induction false} UnspendKeeps(l: Ledger, charge: Charge)
    requires MemKept(l.mem)
    ensures var m := Unspend(l, charge);
            MemKept(m.mem) && m == l.(mem := l.mem.(grants := m.mem.grants))
  {
    var gs := GrantsOf(l.mem, charge.agent);
    var found := FindGrant(gs, charge.grantId);
    if found.Some? {
      assert IsGrant(l.mem.grants, charge.agent, found.value);
      UpdateGrantKept(l.mem.grants, charge.agent, found.value, gs[found.value].Refund(charge.units));
    }
  }

  lemma {:induction false} RefundPhaseKeeps(l: Ledger, id: nat, io: Faults)
    requires Mid(l)
    ensures var (m, e) := RefundPhase(l, id, io);
            Mid(m) && SameLog(l, m) && (e.Some? ==> m.degraded)
  {
    if id in l.mem.charges {
      var l1 := l.(mem := l.mem.(charges := l.mem.charges - {id}));
      UnspendKeeps(l1, l.mem.charges[id]);
    }
  }

  /** Writing the last chain entry to a log that is one behind catches it up, or
      degrades and leaves it at most one behind. */
  lemma {:induction false} SaveEntryKeeps(H: Hash, l: Ledger, outcome: LogOutcome)
    requires Mid(l) && ChainKept(H, l) && LogBehind(l, 1) && l.mem.chain.entries != []
    ensures Sound(H, SaveEntry(l, l.mem.chain.entries[|l.mem.chain.entries| - 1], outcome).0)
  {
    var es := l.mem.chain.entries;
    var n := |es| - 1;
    var m := SaveEntry(l, es[n], outcome).0;
    if l.disk.Some? {
      var f := l.disk.value.log;
      LineAppended(es[..n], es[n]);
      assert es[..n] + [es[n]] == es && es[..n + 1] == es;
      assert f.Lines() == LinesOf(es[..n]);
      if outcome.LogLost? {
        assert LogBehind(m, 1);
      } else {
        assert m.disk.value.log.Lines() == LinesOf(es);
        assert LogBehind(m, 0);
      }
    } else {
      assert LogBehind(m, 0);
    }
  }

  /** After an in-memory append the log is one behind. */
  lemma {:induction false} AppendLeavesBehind(H: Hash, l: Ledger, r: DecisionRecord)
    requires Sound(H, l) && !l.degraded && r.Consistent()
    ensures var m := l.(mem := l.mem.(chain := Append(H, l.mem.chain, r).value));
            Mid(m) && ChainKept(H, m) && LogBehind(m, 1)
  {
    AppendLinks(H, l.mem.chain, r);
    var es := l.mem.chain.entries;
    var d := Append(H, l.mem.chain, r).value;
    assert d.entries[..|es|] == es && es[..|es|] == es;
  }

  lemma {:induction false} CommitKeeps(H: Hash, l: Ledger, r: DecisionRecord, reason: Reason, outcome: LogOutcome)
    requires Sound(H, l) && !l.degraded
    ensures Sound(H, Commit(H, l, r, reason, outcome).0)
  {
    if r.Consistent() {
      AppendLeavesBehind(H, l, r);
      SaveEntryKeeps(H, l.(mem := l.mem.(chain := Append(H, l.mem.chain, r).value)), outcome);
    }
  }

  /** A step that stops after a phase leaves the ledger sound. */
  lemma {:induction false} PhaseIsSound(H: Hash, l: Ledger, m: Ledger)
    requires Sound(H, l) && SameLog(l, m) && Mid(m)
    ensures Sound(H, m)
  {
    assert LogBehind(l, 0) ==> LogBehind(m, 0);
    assert LogBehind(l, 1) ==> LogBehind(m, 1);
  }

  /** A step that stops degraded while its record is not yet on disk is sound too. */
  lemma {:induction false} StoppedBehind(H: Hash, l: Ledger, m: Ledger)
    requires Mid(l) && ChainKept(H, l) && LogBehind(l, 1)
    requires SameLog(l, m) && Mid(m) && m.degraded
    ensures Sound(H, m)
  {
    assert LogBehind(m, 1);
  }
}
