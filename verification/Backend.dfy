/** The backend as the source has it: one object over maps keyed by tenant, updated
    in place and written through to the store. Every method is proved to take the
    tenant's ledger through the matching step and to leave every other tenant's
    slice and files alone. */
module Backend {
  import opened Basics
  import opened Audit
  import opened Policy
  import opened Store
  import opened Files
  import opened LedgerModel = Ledger
  import opened Keyed
  import ES = EvidenceStore
  import Hex

  /** One or more grants, all of this agent. */
  predicate FiledUnder(gs: seq<CapabilityGrant>, agent: string) {
    gs != [] && forall i :: 0 <= i < |gs| ==> gs[i].agent == agent
  }

  predicate GrantsFiled(m: map<(string, string), seq<CapabilityGrant>>) {
    forall p :: p in m ==> FiledUnder(m[p], p.1)
  }

  predicate AllowancesFiled(m: map<(string, string), VoteAllowance>) {
    forall p :: p in m ==> m[p].id == p.1
  }

  predicate ChargesFiled(m: map<(string, nat), Charge>) {
    forall p :: p in m ==> m[p].decision == p.1
  }

  predicate PendingFiled(m: map<(string, nat), PendingApproval>) {
    forall p :: p in m ==> m[p].decision == p.1
  }

  /** `entry((tenant, agent)).or_default().push(g)`. */
  function Pushed(m: map<(string, string), seq<CapabilityGrant>>, t: string, g: CapabilityGrant)
    : map<(string, string), seq<CapabilityGrant>>
  {
    m[(t, g.agent) := (if (t, g.agent) in m then m[(t, g.agent)] else []) + [g]]
  }

  lemma {:induction false} PushKeepsGroups(m: map<(string, string), seq<CapabilityGrant>>, t: string,
                        list: seq<CapabilityGrant>, i: nat)
    requires GrantsFiled(m) && i < |list| && At(m, t) == GroupGrants(list[..i])
    ensures At(Pushed(m, t, list[i]), t) == GroupGrants(list[..i + 1])
  {
    var g := list[i];
    AtLookup(m, t, g.agent);
    AtUpdate(m, t, g.agent, (if (t, g.agent) in m then m[(t, g.agent)] else []) + [g]);
    assert list[..i + 1] == list[..i] + [g];
    GroupPush(list[..i], g);
  }

  lemma {:induction false} PushStaysFiled(m: map<(string, string), seq<CapabilityGrant>>, t: string, g: CapabilityGrant)
    requires GrantsFiled(m)
    ensures GrantsFiled(Pushed(m, t, g))
  {
    var r := Pushed(m, t, g);
    forall p | p in r ensures FiledUnder(r[p], p.1) {
      if p == (t, g.agent) && p in m {
        assert FiledUnder(m[p], p.1);
      }
    }
  }

  lemma {:induction false} AllowanceKeys(xs: seq<VoteAllowance>, k: string)
    requires k in Index(KeyedAllowances(xs))
    ensures Index(KeyedAllowances(xs))[k].id == k
  {
    var n := |xs| - 1;
    assert KeyedAllowances(xs)[..n] == KeyedAllowances(xs[..n]);
    if xs[n].id != k { AllowanceKeys(xs[..n], k); }
  }

  lemma {:induction false} ChargeKeys(xs: seq<Charge>, k: nat)
    requires k in Index(KeyedCharges(xs))
    ensures Index(KeyedCharges(xs))[k].decision == k
  {
    var n := |xs| - 1;
    assert KeyedCharges(xs)[..n] == KeyedCharges(xs[..n]);
    if xs[n].decision != k { ChargeKeys(xs[..n], k); }
  }

  lemma {:induction false} PendingKeys(xs: seq<PendingApproval>, k: nat)
    requires k in Index(KeyedPending(xs))
    ensures Index(KeyedPending(xs))[k].decision == k
  {
    var n := |xs| - 1;
    assert KeyedPending(xs)[..n] == KeyedPending(xs[..n]);
    if xs[n].decision != k { PendingKeys(xs[..n], k); }
  }

  lemma {:induction false} AllowanceFiledAfter(r: map<(string, string), VoteAllowance>, m: map<(string, string), VoteAllowance>, t: string,
                                           xs: seq<VoteAllowance>)
    requires AllowancesFiled(m) && SameElsewhere(r, m, t) && At(r, t) == Index(KeyedAllowances(xs))
    ensures AllowancesFiled(r)
  {
    forall p | p in r ensures r[p].id == p.1 {
      Origin(r, m, t, p);
      if p.0 == t { AllowanceKeys(xs, p.1); }
    }
  }

  lemma {:induction false} ChargeFiledAfter(r: map<(string, nat), Charge>, m: map<(string, nat), Charge>, t: string,
                                           xs: seq<Charge>)
    requires ChargesFiled(m) && SameElsewhere(r, m, t) && At(r, t) == Index(KeyedCharges(xs))
    ensures ChargesFiled(r)
  {
    forall p | p in r ensures r[p].decision == p.1 {
      Origin(r, m, t, p);
      if p.0 == t { ChargeKeys(xs, p.1); }
    }
  }

  lemma {:induction false} PendingFiledAfter(r: map<(string, nat), PendingApproval>, m: map<(string, nat), PendingApproval>, t: string,
                                           xs: seq<PendingApproval>)
    requires PendingFiled(m) && SameElsewhere(r, m, t) && At(r, t) == Index(KeyedPending(xs))
    ensures PendingFiled(r)
  {
    forall p | p in r ensures r[p].decision == p.1 {
      Origin(r, m, t, p);
      if p.0 == t { PendingKeys(xs, p.1); }
    }
  }

  /** What issuing and revoking have in common. */
  function GrantChange(h: Hash, l: LedgerModel.Ledger, agent: string, gs: seq<CapabilityGrant>, actor: string,
                       class_: string, detail: string, nowMs: I64, io: Faults)
    : (LedgerModel.Ledger, Result<DecisionDto, Error>)
  {
    var (l1, ok) := SaveGrants(l.(mem := l.mem.(grants := l.mem.grants[agent := gs])), io.grants);
    if !ok then (l1, Err(WriteFailed)) else RecordPrincipal(h, l1, actor, class_, detail, nowMs, io.log)
  }

  /** What an accepted cast does after the allowance took the weight. */
  function VoteChange(h: Hash, l: LedgerModel.Ledger, id: string, a: VoteAllowance, detail: string, nowMs: I64,
                      io: Faults): (LedgerModel.Ledger, Result<DecisionDto, Error>)
  {
    var (l1, ok) := SaveAllowances(l.(mem := l.mem.(allowances := l.mem.allowances[id := a])), io.allowances);
    if !ok then (l1, Err(WriteFailed))
    else RecordDelegated(h, l1, a.agent, a.principal, id, "vote.cast", detail, nowMs, io.log)
  }

  class QuorumBackend {
    const h: Hash
    const store: ES.EvidenceStore?
    var activeTenant: Option<string>
    var operator: Option<string>
    var chains: map<string, HashChain>
    var grants: map<(string, string), seq<CapabilityGrant>>
    var allowances: map<(string, string), VoteAllowance>
    var charges: map<(string, nat), Charge>
    var pending: map<(string, nat), PendingApproval>
    var resolved: map<(string, nat), Answer>
    var egress: EgressPolicy
    var degraded: bool

    /** Entries are filed under their own keys, which is what the flat files rely on. */
    ghost predicate Valid()
      reads this`grants, this`allowances, this`charges, this`pending, store
    {
      && (store != null ==> store.h == h)
      && GrantsFiled(grants) && AllowancesFiled(allowances) && ChargesFiled(charges) && PendingFiled(pending)
    }

    function SliceOf(t: string): Slice
      reads this`chains, this`grants, this`allowances, this`charges, this`pending, this`resolved
    {
      Slice(ChainFor(t), At(grants, t), At(allowances, t),
            At(charges, t), At(pending, t), At(resolved, t))
    }

    function DiskOf(t: string): Option<Disk>
      reads store
    {
      if store == null then None else Some(store.DiskOf(t))
    }

    /** The tenant's ledger, as this object holds it. */
    function LedgerOf(t: string): Ledger
      reads this`chains, this`grants, this`allowances, this`charges, this`pending, this`resolved,
            this`degraded, this`operator, this`egress, store
    {
      Ledger.Ledger(t, SliceOf(t), DiskOf(t), degraded, operator, egress)
    }

    /** Every other tenant's slice and files are as they were. */
    twostate predicate OthersKept(t: string)
      reads this`chains, this`grants, this`allowances, this`charges, this`pending, this`resolved, store
    {
      forall u :: u != t ==>
        SliceOf(u) == old(SliceOf(u)) && (store != null ==> store.FilesOf(u) == old(store.FilesOf(u)))
    }

    /** A backend that keeps everything in memory: with no store no write can fail, and
        nothing outlives the process. */
    constructor WithoutStore(h: Hash)
      ensures Valid() && this.h == h && store == null
      ensures forall t :: SliceOf(t) == EmptySlice(h, t)
    {
      this.h, store := h, null;
      activeTenant, operator, egress, degraded := None, None, DEFAULT_EGRESS, false;
      chains, grants, allowances, charges, pending, resolved := map[], map[], map[], map[], map[], map[];
      new;
      NothingHeld();
    }

    lemma {:induction false} NothingHeld()
      requires chains == map[] && grants == map[] && allowances == map[]
      requires charges == map[] && pending == map[] && resolved == map[]
      ensures forall t :: SliceOf(t) == EmptySlice(h, t)
    {
      forall t ensures SliceOf(t) == EmptySlice(h, t) {
        AtNothing(grants, t);
        AtNothing(allowances, t);
        AtNothing(charges, t);
        AtNothing(pending, t);
        AtNothing(resolved, t);
      }
    }

    // ---- the flat files -------------------------------------------------

    /** All of a tenant's grants, flattened in whatever order the map yields agents. */
    method TenantGrants(t: string) returns (list: seq<CapabilityGrant>)
      requires Valid()
      ensures GroupGrants(list) == At(grants, t)
    {
      list := [];
      var todo := KeysOf(grants, t);
      NothingDone(grants, t);
      while todo != {}
        invariant todo <= KeysOf(grants, t)
        invariant GroupGrants(list) == At(grants - todo, t)
      {
        var p :| p in todo;
        AtRestore(grants, todo, t, p.1);
        GroupAppend(list, p.1, grants[p], |grants[p]|);
        assert grants[p][..|grants[p]|] == grants[p];
        list := list + grants[p];
        todo := todo - {p};
      }
      assert grants - {} == grants;
    }

    method TenantAllowances(t: string) returns (list: seq<VoteAllowance>)
      requires Valid()
      ensures Index(KeyedAllowances(list)) == At(allowances, t)
    {
      var pairs := Entries(allowances, t);
      list := Values(pairs);
      assert KeyedAllowances(list) == pairs;
    }

    method TenantCharges(t: string) returns (list: seq<Charge>)
      requires Valid()
      ensures Index(KeyedCharges(list)) == At(charges, t)
    {
      var pairs := Entries(charges, t);
      list := Values(pairs);
      assert KeyedCharges(list) == pairs;
    }

    method TenantPending(t: string) returns (list: seq<PendingApproval>)
      requires Valid()
      ensures Index(KeyedPending(list)) == At(pending, t)
    {
      var pairs := Entries(pending, t);
      list := Values(pairs);
      assert KeyedPending(list) == pairs;
    }

    // ---- writing through ------------------------------------------------

    method PersistGrants(t: string, lands: bool) returns (ok: bool)
      requires Valid()
      modifies this`degraded, store
      ensures Valid() && OthersKept(t)
      ensures (LedgerOf(t), ok) == SaveGrants(old(LedgerOf(t)), lands)
    {
      if store == null { return true; }
      var list := TenantGrants(t);
      ok := store.SaveGrants(t, list, lands);
      ES.ReadsBackGrants(list);
      if !ok { degraded := true; }
    }

    method PersistAllowances(t: string, lands: bool) returns (ok: bool)
      requires Valid()
      modifies this`degraded, store
      ensures Valid() && OthersKept(t)
      ensures (LedgerOf(t), ok) == SaveAllowances(old(LedgerOf(t)), lands)
    {
      if store == null { return true; }
      var list := TenantAllowances(t);
      ok := store.SaveAllowances(t, list, lands);
      if !ok { degraded := true; }
    }

    method PersistCharges(t: string, lands: bool) returns (ok: bool)
      requires Valid()
      modifies this`degraded, store
      ensures Valid() && OthersKept(t)
      ensures (LedgerOf(t), ok) == SaveCharges(old(LedgerOf(t)), lands)
    {
      if store == null { return true; }
      var list := TenantCharges(t);
      ok := store.SaveCharges(t, list, lands);
      if !ok { degraded := true; }
    }

    method PersistPending(t: string, lands: bool) returns (ok: bool)
      requires Valid()
      modifies this`degraded, store
      ensures Valid() && OthersKept(t)
      ensures (LedgerOf(t), ok) == SavePending(old(LedgerOf(t)), lands)
    {
      if store == null { return true; }
      var list := TenantPending(t);
      ok := store.SavePending(t, list, lands);
      if !ok { degraded := true; }
    }

    method PersistResolved(t: string, lands: bool) returns (ok: bool)
      requires Valid()
      modifies this`degraded, store
      ensures Valid() && OthersKept(t)
      ensures (LedgerOf(t), ok) == SaveResolved(old(LedgerOf(t)), lands)
    {
      if store == null { return true; }
      var list := Entries(resolved, t);
      ok := store.SaveResolved(t, list, lands);
      if !ok { degraded := true; }
    }

    method PersistEntry(t: string, e: Entry, outcome: LogOutcome) returns (ok: bool)
      requires Valid()
      modifies this`degraded, store
      ensures Valid() && OthersKept(t)
      ensures (LedgerOf(t), ok) == SaveEntry(old(LedgerOf(t)), e, outcome)
    {
      if store == null { return true; }
      ok := store.AppendRecord(t, e, outcome);
      if !ok { degraded := true; }
    }

    // ---- the governed-action pipeline -----------------------------------

    function AgentGrants(t: string, agent: string): seq<CapabilityGrant>
      reads this`grants
    {
      if (t, agent) in grants then grants[(t, agent)] else []
    }

    lemma {:induction false} SliceGrants(t: string, agent: string)
      ensures AgentGrants(t, agent) == GrantsOf(SliceOf(t), agent)
    {
      AtLookup(grants, t, agent);
    }

    /** The tenant's chain, created on first use. */
    function ChainFor(t: string): HashChain
      reads this`chains
    {
      if t in chains then chains[t] else Fresh(h, t)
    }

    /** Replace one agent's grants, each by one of the same agent. */
    method PutGrants(t: string, agent: string, gs: seq<CapabilityGrant>)
      requires Valid() && FiledUnder(gs, agent)
      modifies this`grants
      ensures Valid() && OthersKept(t)
      ensures LedgerOf(t) == old(LedgerOf(t)).(mem := old(SliceOf(t)).(grants := old(SliceOf(t)).grants[agent := gs]))
    {
      AtUpdate(grants, t, agent, gs);
      AtUpdateElsewhere(grants, t, agent, gs);
      grants := grants[(t, agent) := gs];
    }

    method PutCharge(t: string, id: nat, c: Charge)
      requires Valid() && c.decision == id
      modifies this`charges
      ensures Valid() && OthersKept(t)
      ensures LedgerOf(t) == old(LedgerOf(t)).(mem := old(SliceOf(t)).(charges := old(SliceOf(t)).charges[id := c]))
    {
      AtUpdate(charges, t, id, c);
      AtUpdateElsewhere(charges, t, id, c);
      charges := charges[(t, id) := c];
    }

    method PutPending(t: string, id: nat, p: PendingApproval)
      requires Valid() && p.decision == id
      modifies this`pending
      ensures Valid() && OthersKept(t)
      ensures LedgerOf(t) == old(LedgerOf(t)).(mem := old(SliceOf(t)).(pending := old(SliceOf(t)).pending[id := p]))
    {
      AtUpdate(pending, t, id, p);
      AtUpdateElsewhere(pending, t, id, p);
      pending := pending[(t, id) := p];
    }

    method PutChain(t: string, c: HashChain)
      requires Valid()
      modifies this`chains
      ensures Valid() && OthersKept(t)
      ensures LedgerOf(t) == old(LedgerOf(t)).(mem := old(SliceOf(t)).(chain := c))
    {
      chains := chains[t := c];
    }

    /** Save the grants file and then the charges file. */
    method PersistBudget(t: string, io: Faults) returns (e: Option<Error>)
      requires Valid()
      modifies this`degraded, store
      ensures Valid() && OthersKept(t)
      ensures (LedgerOf(t), e) == SaveBudget(old(LedgerOf(t)), io)
    {
      var ok := PersistGrants(t, io.grants);
      if !ok { return Some(WriteFailed); }
      ok := PersistCharges(t, io.charges);
      e := if ok then None else Some(WriteFailed);
    }

    /** Take the units from the grant, if the agent has one of that id. */
    method Consume(t: string, agent: string, grantId: string, units: U64) returns (ok: bool)
      requires Valid()
      modifies this`grants
      ensures Valid() && OthersKept(t)
      ensures ok == Spend(old(LedgerOf(t)), agent, grantId, units).Some?
      ensures LedgerOf(t) == if ok then Spend(old(LedgerOf(t)), agent, grantId, units).value else old(LedgerOf(t))
    {
      SliceGrants(t, agent);
      var gs := AgentGrants(t, agent);
      var k := FindGrant(gs, grantId);
      if k.None? { return true; }
      var g := gs[k.value].Consume(units);
      if g.None? { return false; }
      assert (t, agent) in grants;
      PutGrants(t, agent, gs[k.value := g.value]);
      ok := true;
    }

    method ChargeGrant(t: string, agent: string, grantId: Option<string>, id: nat, units: U64, io: Faults)
      returns (e: Option<Error>)
      requires Valid()
      modifies this`grants, this`charges, this`degraded, store
      ensures Valid() && OthersKept(t)
      ensures (LedgerOf(t), e) == ChargePhase(old(LedgerOf(t)), agent, grantId, id, units, io)
    {
      if grantId.None? { return None; }
      var ok := Consume(t, agent, grantId.value, units);
      if !ok { return Some(NotCharged(grantId.value)); }
      var charge := Charge(id, agent, grantId.value, units);
      PutCharge(t, id, charge);
      e := PersistBudget(t, io);
    }

    /** Park an escalation where the ceremony queue can find it. */
    method Park(t: string, input: ActionInput, verdict: Verdict, id: nat, nowMs: I64, io: Faults)
      returns (e: Option<Error>)
      requires Valid()
      modifies this`pending, this`degraded, store
      ensures Valid() && OthersKept(t)
      ensures (LedgerOf(t), e) == PendingPhase(old(LedgerOf(t)), input, verdict, id, nowMs, io)
    {
      if verdict != RequireApproval { return None; }
      var p := PendingApproval(id, input.agent, input.principal, input.class_, input.classification,
                               input.cost, input.correlationId, nowMs);
      PutPending(t, id, p);
      var ok := PersistPending(t, io.pending);
      e := if ok then None else Some(WriteFailed);
    }

    method PutAllowance(t: string, id: string, a: VoteAllowance)
      requires Valid() && a.id == id
      modifies this`allowances
      ensures Valid() && OthersKept(t)
      ensures LedgerOf(t)
              == old(LedgerOf(t)).(mem := old(SliceOf(t)).(allowances := old(SliceOf(t)).allowances[id := a]))
    {
      AtUpdate(allowances, t, id, a);
      AtUpdateElsewhere(allowances, t, id, a);
      allowances := allowances[(t, id) := a];
    }

    method PutResolved(t: string, id: nat, a: Answer)
      requires Valid()
      modifies this`resolved
      ensures Valid() && OthersKept(t)
      ensures LedgerOf(t)
              == old(LedgerOf(t)).(mem := old(SliceOf(t)).(resolved := old(SliceOf(t)).resolved[id := a]))
    {
      AtUpdate(resolved, t, id, a);
      AtUpdateElsewhere(resolved, t, id, a);
      resolved := resolved[(t, id) := a];
    }

    method RemovePending(t: string, id: nat)
      requires Valid()
      modifies this`pending
      ensures Valid() && OthersKept(t)
      ensures LedgerOf(t) == old(LedgerOf(t)).(mem := old(SliceOf(t)).(pending := old(SliceOf(t)).pending - {id}))
    {
      AtRemove(pending, t, id);
      pending := pending - {(t, id)};
    }

    method RemoveCharge(t: string, id: nat)
      requires Valid()
      modifies this`charges
      ensures Valid() && OthersKept(t)
      ensures LedgerOf(t) == old(LedgerOf(t)).(mem := old(SliceOf(t)).(charges := old(SliceOf(t)).charges - {id}))
    {
      AtRemove(charges, t, id);
      charges := charges - {(t, id)};
    }

    /** Evaluate, record, charge, park, and make durable before reporting. */
    method EvaluateAndRecord(input: ActionInput, t: string, nowMs: I64, io: Faults)
      returns (r: Result<DecisionDto, Error>)
      requires Valid()
      modifies this`chains, this`grants, this`charges, this`pending, this`degraded, store
      ensures Valid() && OthersKept(t)
      ensures (LedgerOf(t), r) == LedgerModel.EvaluateAndRecord(h, old(LedgerOf(t)), input, nowMs, io)
    {
      if degraded { return Err(Degraded); }
      var classification := ClassificationFromStr(input.classification);
      if classification.None? { return Err(UnknownClassification(input.classification)); }
      var decision := Decide(LedgerOf(t), input, classification.value, nowMs);
      var accountable := Accountable(LedgerOf(t), input.agent, decision.grantId);
      if decision.verdict != Verdict.Ungoverned && accountable.None? {
        return Err(NoAccountablePrincipal);
      }
      var chain := Append(h, ChainFor(t), ActionRecord(input, decision, accountable, nowMs));
      if chain.None? { return Err(InconsistentRecord); }
      PutChain(t, chain.value);
      r := SettleDecision(input, t, decision, nowMs, io);
    }

    method SettleDecision(input: ActionInput, t: string, decision: Decision, nowMs: I64, io: Faults)
      returns (r: Result<DecisionDto, Error>)
      requires Valid() && SliceOf(t).chain.entries != []
      modifies this`grants, this`charges, this`pending, this`degraded, store
      ensures Valid() && OthersKept(t)
      ensures (LedgerOf(t), r) == Settle(old(LedgerOf(t)), input, decision, nowMs, io)
    {
      var id := |ChainFor(t).entries| - 1;
      var entry := ChainFor(t).entries[id];
      var e := TakeEffect(input, t, decision, id, nowMs, io);
      if e.Some? { return Err(e.value); }
      var ok := PersistEntry(t, entry, io.log);
      if !ok { return Err(WriteFailed); }
      r := Ok(DecisionDto(id, decision.verdict, decision.hic, decision.grantId, decision.reason,
                          Hex.Encode(entry.hash), decision.verdict == Verdict.Ungoverned));
    }

    method TakeEffect(input: ActionInput, t: string, decision: Decision, id: nat, nowMs: I64, io: Faults)
      returns (e: Option<Error>)
      requires Valid()
      modifies this`grants, this`charges, this`pending, this`degraded, store
      ensures Valid() && OthersKept(t)
      ensures (LedgerOf(t), e) == Effects(old(LedgerOf(t)), input, decision, id, nowMs, io)
    {
      e := ChargeGrant(t, input.agent, decision.grantId, id, ChargeFor(input.cost), io);
      if e.None? {
        e := Park(t, input, decision.verdict, id, nowMs, io);
      }
    }

    // ---- the human's answer ---------------------------------------------

    /** Append a record to the chain and make it durable. */
    method CommitRecord(t: string, record: DecisionRecord, reason: Reason, outcome: LogOutcome)
      returns (r: Result<DecisionDto, Error>)
      requires Valid()
      modifies this`chains, this`degraded, store
      ensures Valid() && OthersKept(t)
      ensures (LedgerOf(t), r) == Commit(h, old(LedgerOf(t)), record, reason, outcome)
    {
      var id := |ChainFor(t).entries|;
      var chain := Append(h, ChainFor(t), record);
      if chain.None? { return Err(InconsistentRecord); }
      PutChain(t, chain.value);
      var ok := PersistEntry(t, chain.value.entries[id], outcome);
      if !ok { return Err(WriteFailed); }
      r := Ok(DecisionDto(id, record.verdict, record.hic, record.grantId, reason,
                          Hex.Encode(chain.value.head), false));
    }

    /** The escalation leaves the queue and its answer is filed. */
    method AnswerQuestion(t: string, id: nat, answer: Answer, io: Faults) returns (e: Option<Error>)
      requires Valid()
      modifies this`pending, this`resolved, this`degraded, store
      ensures Valid() && OthersKept(t)
      ensures (LedgerOf(t), e) == AnswerPhase(old(LedgerOf(t)), id, answer, io)
    {
      var ok := LeaveQueue(t, id, io.pending);
      if !ok { return Some(WriteFailed); }
      ok := RecordAnswer(t, id, answer, io.resolved);
      e := if ok then None else Some(WriteFailed);
    }

    method LeaveQueue(t: string, id: nat, lands: bool) returns (ok: bool)
      requires Valid()
      modifies this`pending, this`degraded, store
      ensures Valid() && OthersKept(t)
      ensures (LedgerOf(t), ok) == Dequeue(old(LedgerOf(t)), id, lands)
    {
      AtLookup(pending, t, id);
      if (t, id) !in pending { return true; }
      RemovePending(t, id);
      ok := PersistPending(t, lands);
    }

    method RecordAnswer(t: string, id: nat, answer: Answer, lands: bool) returns (ok: bool)
      requires Valid()
      modifies this`resolved, this`degraded, store
      ensures Valid() && OthersKept(t)
      ensures (LedgerOf(t), ok) == FileAnswer(old(LedgerOf(t)), id, answer, lands)
    {
      PutResolved(t, id, answer);
      ok := PersistResolved(t, lands);
    }

    /** Put the units back, if the agent has a grant of that id. */
    method GiveBack(t: string, charge: Charge)
      requires Valid()
      modifies this`grants
      ensures Valid() && OthersKept(t)
      ensures LedgerOf(t) == Unspend(old(LedgerOf(t)), charge)
    {
      SliceGrants(t, charge.agent);
      var gs := AgentGrants(t, charge.agent);
      var k := FindGrant(gs, charge.grantId);
      if k.Some? {
        assert (t, charge.agent) in grants;
        PutGrants(t, charge.agent, gs[k.value := gs[k.value].Refund(charge.units)]);
      }
    }

    /** Refund, once: the charge comes off the books first. */
    method RefundCharge(t: string, id: nat, io: Faults) returns (e: Option<Error>)
      requires Valid()
      modifies this`grants, this`charges, this`degraded, store
      ensures Valid() && OthersKept(t)
      ensures (LedgerOf(t), e) == RefundPhase(old(LedgerOf(t)), id, io)
    {
      AtLookup(charges, t, id);
      if (t, id) !in charges { return None; }
      var charge := charges[(t, id)];
      RemoveCharge(t, id);
      GiveBack(t, charge);
      e := PersistBudget(t, io);
    }

    method RejectDecision(t: string, id: nat, nowMs: I64, io: Faults) returns (r: Result<DecisionDto, Error>)
      requires Valid()
      modifies this`chains, this`grants, this`charges, this`pending, this`resolved, this`degraded, store
      ensures Valid() && OthersKept(t)
      ensures (LedgerOf(t), r) == Reject(h, old(LedgerOf(t)), id, nowMs, io)
    {
      if degraded { return Err(Degraded); }
      if id >= |ChainFor(t).entries| { return Err(NoSuchDecision(id)); }
      var original := ChainFor(t).entries[id].record;
      var e := AnswerQuestion(t, id, SaidNo, io);
      if e.Some? { return Err(e.value); }
      e := RefundCharge(t, id, io);
      if e.Some? { return Err(e.value); }
      r := CommitRecord(t, original.(verdict := Rejected, hic := HicLevel.ApproveEach, timestampMs := nowMs),
                        RC300, io.log);
    }

    method ApproveDecision(t: string, id: nat, approver: string, nowMs: I64, io: Faults)
      returns (r: Result<DecisionDto, Error>)
      requires Valid()
      modifies this`chains, this`pending, this`resolved, this`degraded, store
      ensures Valid() && OthersKept(t)
      ensures (LedgerOf(t), r) == Approve(h, old(LedgerOf(t)), id, approver, nowMs, io)
    {
      if degraded { return Err(Degraded); }
      if Blank(approver) { return Err(MustNameTheHuman); }
      if !MatchesOperator(operator, approver) { return Err(NotTheOperator); }
      AtLookup(pending, t, id);
      if (t, id) !in pending { return Err(NotAwaiting(id)); }
      var agent := pending[(t, id)].agent;
      var e := AnswerQuestion(t, id, SaidYes, io);
      if e.Some? { return Err(e.value); }
      if id >= |ChainFor(t).entries| { return Err(NoSuchDecision(id)); }
      var original := ChainFor(t).entries[id].record;
      r := CommitRecord(t, original.(principal := Some(approver), verdict := Verdict.Approved,
                                     hic := HicLevel.ApproveEach, timestampMs := nowMs),
                        RC301(approver, agent), io.log);
    }

    /** What an agent polling on its escalation is told. */
    method Status(t: string, id: nat) returns (s: Option<LedgerModel.Status>)
      ensures s == DecisionStatus(SliceOf(t), id)
    {
      AtLookup(pending, t, id);
      AtLookup(resolved, t, id);
      if (t, id) in pending { return Some(Waiting); }
      if (t, id) in resolved {
        match resolved[(t, id)] {
          case SaidYes => return Some(Granted);
          case SaidNo => return Some(Refused);
          case SaidOther(_) => return Some(Waiting);
        }
      }
      s := if t in chains && id < |chains[t].entries| then Some(Waiting) else None;
    }

    // ---- principals, grants and allowances ------------------------------

    /** Record something a human did under their own authority. */
    method RecordPrincipalAction(t: string, principal: string, class_: string, detail: string, nowMs: I64,
                                 io: Faults) returns (r: Result<DecisionDto, Error>)
      requires Valid()
      modifies this`chains, this`degraded, store
      ensures Valid() && OthersKept(t)
      ensures (LedgerOf(t), r) == RecordPrincipal(h, old(LedgerOf(t)), principal, class_, detail, nowMs, io.log)
    {
      if degraded { return Err(Degraded); }
      if Blank(principal) { return Err(MustNameTheHuman); }
      r := CommitRecord(t, DecisionRecord(principal, Some(principal), None, class_, NoHash(), Verdict.Approved,
                                          HicLevel.ApproveEach, "", detail, nowMs),
                        RC302(class_, principal), io.log);
    }

    /** Record an agent acting under a principal's allowance. */
    method RecordDelegatedAction(t: string, agent: string, principal: string, authority: string, class_: string,
                                 detail: string, nowMs: I64, io: Faults) returns (r: Result<DecisionDto, Error>)
      requires Valid()
      modifies this`chains, this`degraded, store
      ensures Valid() && OthersKept(t)
      ensures (LedgerOf(t), r)
              == RecordDelegated(h, old(LedgerOf(t)), agent, principal, authority, class_, detail, nowMs, io.log)
    {
      if degraded { return Err(Degraded); }
      if Blank(principal) { return Err(MustNameTheHuman); }
      r := CommitRecord(t, DecisionRecord(agent, Some(principal), Some(authority), class_, NoHash(),
                                          Verdict.Approved, HicLevel.Budgeted, "", detail, nowMs),
                        RC303(class_, agent, principal), io.log);
    }

    /** Some grant of the tenant, of whatever agent, has this id. */
    predicate IdTaken(t: string, id: string)
      reads this`grants
    {
      exists p | p in grants :: p.0 == t && exists g | g in grants[p] :: g.id == id
    }

    lemma {:induction false} IdTakenInSlice(t: string, id: string)
      ensures IdTaken(t, id) == HasGrant(SliceOf(t).grants, id)
    {
      var s := SliceOf(t).grants;
      if IdTaken(t, id) {
        var p: (string, string) :| p in grants && p.0 == t && exists g: CapabilityGrant | g in grants[p] :: g.id == id;
        AtLookup(grants, t, p.1);
        assert s[p.1] == grants[p];
      }
      if HasGrant(s, id) {
        var a: string :| a in s && exists g: CapabilityGrant | g in s[a] :: g.id == id;
        AtLookup(grants, t, a);
        assert grants[(t, a)] == s[a];
      }
    }

    /** Replace one agent's grants and write them through. */
    method RewriteGrants(t: string, agent: string, gs: seq<CapabilityGrant>, lands: bool) returns (ok: bool)
      requires Valid() && FiledUnder(gs, agent)
      modifies this`grants, this`degraded, store
      ensures Valid() && OthersKept(t)
      ensures (LedgerOf(t), ok)
              == SaveGrants(old(LedgerOf(t)).(mem := old(SliceOf(t)).(grants := old(SliceOf(t)).grants[agent := gs])),
                            lands)
    {
      PutGrants(t, agent, gs);
      ok := PersistGrants(t, lands);
    }

    /** Change one agent's grants, write them through, and record who changed them. */
    method ChangeGrants(t: string, agent: string, gs: seq<CapabilityGrant>, actor: string, class_: string,
                        detail: string, nowMs: I64, io: Faults) returns (r: Result<DecisionDto, Error>)
      requires Valid() && FiledUnder(gs, agent)
      modifies this`chains, this`grants, this`degraded, store
      ensures Valid() && OthersKept(t)
      ensures (LedgerOf(t), r) == GrantChange(h, old(LedgerOf(t)), agent, gs, actor, class_, detail, nowMs, io)
    {
      var ok := RewriteGrants(t, agent, gs, io.grants);
      if !ok { return Err(WriteFailed); }
      r := RecordPrincipalAction(t, actor, class_, detail, nowMs, io);
    }

    method IssueGrant(input: GrantInput, t: string, nowMs: I64, io: Faults) returns (r: Result<(), Error>)
      requires Valid()
      modifies this`chains, this`grants, this`degraded, store
      ensures Valid() && OthersKept(t)
      ensures (LedgerOf(t), r) == LedgerModel.IssueGrant(h, old(LedgerOf(t)), input, nowMs, io)
    {
      var ceiling := ClassificationFromStr(input.ceiling);
      if ceiling.None? { return Err(UnknownClassification(input.ceiling)); }
      IdTakenInSlice(t, input.id);
      if IdTaken(t, input.id) { return Err(DuplicateGrant(input.id)); }
      var d := FileGrant(t, NewGrant(input, ceiling.value), input.issuedBy, input.id + ARROW + input.agent, nowMs, io);
      r := if d.Ok? then Ok(()) else Err(d.error);
    }

    /** File a grant under its agent, save, and put the issue on record. */
    method FileGrant(t: string, g: CapabilityGrant, issuer: string, detail: string, nowMs: I64, io: Faults)
      returns (r: Result<DecisionDto, Error>)
      requires Valid()
      modifies this`chains, this`grants, this`degraded, store
      ensures Valid() && OthersKept(t)
      ensures (LedgerOf(t), r)
              == GrantChange(h, old(LedgerOf(t)), g.agent, GrantsOf(old(SliceOf(t)), g.agent) + [g], issuer,
                             "grant.issue", detail, nowMs, io)
    {
      SliceGrants(t, g.agent);
      r := ChangeGrants(t, g.agent, AgentGrants(t, g.agent) + [g], issuer, "grant.issue", detail, nowMs, io);
    }

    /** Every grant of the list with this id, revoked in place. */
    method RevokeIn(gs: seq<CapabilityGrant>, id: string) returns (out: seq<CapabilityGrant>, found: bool)
      ensures out == RevokeAll(gs, id)
      ensures found == FindGrant(gs, id).Some?
    {
      out, found := gs, false;
      for i := 0 to |gs|
        invariant |out| == |gs|
        invariant forall k :: 0 <= k < i ==> out[k] == (if gs[k].id == id then gs[k].Revoke() else gs[k])
        invariant forall k :: i <= k < |gs| ==> out[k] == gs[k]
        invariant found <==> exists k :: 0 <= k < i && gs[k].id == id
      {
        if gs[i].id == id {
          out := out[i := gs[i].Revoke()];
          found := true;
        }
      }
    }

    lemma {:induction false} StillFiledUnder(t: string, agent: string, id: string)
      requires Valid() && FindGrant(AgentGrants(t, agent), id).Some?
      ensures FiledUnder(RevokeAll(AgentGrants(t, agent), id), agent)
    {
      assert (t, agent) in grants;
    }

    method RevokeGrant(t: string, agent: string, id: string, actor: string, nowMs: I64, io: Faults)
      returns (r: Result<bool, Error>)
      requires Valid()
      modifies this`chains, this`grants, this`degraded, store
      ensures Valid() && OthersKept(t)
      ensures (LedgerOf(t), r) == LedgerModel.RevokeGrant(h, old(LedgerOf(t)), agent, id, actor, nowMs, io)
    {
      if Blank(actor) { return Err(MustNameTheHuman); }
      SliceGrants(t, agent);
      var gs, found := RevokeIn(AgentGrants(t, agent), id);
      if !found { return Ok(false); }
      StillFiledUnder(t, agent, id);
      var d := ChangeGrants(t, agent, gs, actor, "grant.revoke", id + ARROW + agent, nowMs, io);
      r := if d.Ok? then Ok(true) else Err(d.error);
    }

    /** Replace one allowance and write them through. */
    method RewriteAllowance(t: string, id: string, a: VoteAllowance, lands: bool) returns (ok: bool)
      requires Valid() && a.id == id
      modifies this`allowances, this`degraded, store
      ensures Valid() && OthersKept(t)
      ensures (LedgerOf(t), ok)
              == SaveAllowances(old(LedgerOf(t)).(mem := old(SliceOf(t)).(allowances := old(SliceOf(t)).allowances[id := a])),
                                lands)
    {
      PutAllowance(t, id, a);
      ok := PersistAllowances(t, lands);
    }

    method IssueAllowance(input: AllowanceInput, t: string, nowMs: I64, io: Faults) returns (r: Result<(), Error>)
      requires Valid()
      modifies this`chains, this`allowances, this`degraded, store
      ensures Valid() && OthersKept(t)
      ensures (LedgerOf(t), r) == LedgerModel.IssueAllowance(h, old(LedgerOf(t)), input, nowMs, io)
    {
      if Blank(input.principal) { return Err(MustNameTheHuman); }
      var ok := RewriteAllowance(t, input.id, NewAllowance(input), io.allowances);
      if !ok { return Err(WriteFailed); }
      var d := RecordPrincipalAction(t, input.principal, "allowance.issue",
                                     input.id + ARROW + input.agent + " (cap " + Decimal(input.weightCap) + ")",
                                     nowMs, io);
      r := if d.Ok? then Ok(()) else Err(d.error);
    }

    method CastVote(t: string, id: string, class_: string, weight: U64, nowMs: I64, io: Faults)
      returns (r: Result<string, Error>)
      requires Valid()
      modifies this`chains, this`allowances, this`degraded, store
      ensures Valid() && OthersKept(t)
      ensures (LedgerOf(t), r) == LedgerModel.CastVote(h, old(LedgerOf(t)), id, class_, weight, nowMs, io)
    {
      AtLookup(allowances, t, id);
      if (t, id) !in allowances { return Err(NoSuchAllowance(id)); }
      var cast := allowances[(t, id)].Cast(class_, weight, nowMs);
      if cast.Err? { return Err(CastRefused(cast.error)); }
      var a := cast.value;
      var d := SpendWeight(t, id, a, id + DOT + class_ + DOT + "weight " + Decimal(weight) + DOT + Proof(a), nowMs, io);
      r := if d.Ok? then Ok(Proof(a)) else Err(d.error);
    }

    /** Save the spent weight, then put the vote on record under the allowance. */
    method SpendWeight(t: string, id: string, a: VoteAllowance, detail: string, nowMs: I64, io: Faults)
      returns (r: Result<DecisionDto, Error>)
      requires Valid() && a.id == id
      modifies this`chains, this`allowances, this`degraded, store
      ensures Valid() && OthersKept(t)
      ensures (LedgerOf(t), r) == VoteChange(h, old(LedgerOf(t)), id, a, detail, nowMs, io)
    {
      var ok := RewriteAllowance(t, id, a, io.allowances);
      if !ok { return Err(WriteFailed); }
      r := RecordDelegatedAction(t, a.agent, a.principal, id, "vote.cast", detail, nowMs, io);
    }

    method RevokeAllowance(t: string, id: string, nowMs: I64, io: Faults) returns (r: Result<bool, Error>)
      requires Valid()
      modifies this`chains, this`allowances, this`degraded, store
      ensures Valid() && OthersKept(t)
      ensures (LedgerOf(t), r) == LedgerModel.RevokeAllowance(h, old(LedgerOf(t)), id, nowMs, io)
    {
      AtLookup(allowances, t, id);
      if (t, id) !in allowances { return Ok(false); }
      var a := allowances[(t, id)].Revoke();
      var ok := RewriteAllowance(t, id, a, io.allowances);
      if !ok { return Err(WriteFailed); }
      var d := RecordPrincipalAction(t, a.principal, "allowance.revoke", id, nowMs, io);
      r := if d.Ok? then Ok(true) else Err(d.error);
    }

    // ---- the operator and the scope -------------------------------------

    /** Name the human operating this installation. */
    method SetOperator(name: string, lands: bool) returns (r: Result<(), Error>)
      requires Valid()
      modifies this`operator, this`degraded, store
      ensures Valid()
      ensures forall t :: SliceOf(t) == old(SliceOf(t))
      ensures forall t :: (LedgerOf(t), r) == LedgerModel.SetOperator(old(LedgerOf(t)), name, lands)
    {
      if Blank(name) { return Err(MustNameTheHuman); }
      operator := Some(Trim(name));
      if store == null { return Ok(()); }
      var ok := store.SaveOperator(Some(Trim(name)), lands);
      if !ok { degraded := true; }
      r := if ok then Ok(()) else Err(WriteFailed);
    }

    /** The loaded grants, pushed one by one under their agents. */
    static method RefillGrants(m: map<(string, string), seq<CapabilityGrant>>, t: string,
                               list: seq<CapabilityGrant>) returns (r: map<(string, string), seq<CapabilityGrant>>)
      requires GrantsFiled(m)
      ensures GrantsFiled(r)
      ensures At(r, t) == GroupGrants(list)
      ensures forall u :: u != t ==> At(r, u) == At(m, u)
    {
      AtWithout(m, t);
      r := Without(m, t);
      for i := 0 to |list|
        invariant GrantsFiled(r)
        invariant At(r, t) == GroupGrants(list[..i])
        invariant forall u :: u != t ==> At(r, u) == At(m, u)
      {
        PushKeepsGroups(r, t, list, i);
        PushStaysFiled(r, t, list[i]);
        AtUpdateElsewhere(r, t, list[i].agent, Pushed(r, t, list[i])[(t, list[i].agent)]);
        r := Pushed(r, t, list[i]);
      }
      assert list[..|list|] == list;
    }

    /** Everything the tenant's files hold replaces what memory held, grants and
        chain here, the rest in the two methods below. */
    method ReplaceGrants(t: string, gs: seq<CapabilityGrant>)
      requires Valid()
      modifies this`grants
      ensures Valid() && OthersKept(t)
      ensures SliceOf(t) == old(SliceOf(t)).(grants := GroupGrants(gs))
    {
      grants := RefillGrants(grants, t, gs);
    }

    method ReplaceAllowances(t: string, xs: seq<VoteAllowance>)
      requires Valid()
      modifies this`allowances
      ensures Valid() && OthersKept(t)
      ensures SliceOf(t) == old(SliceOf(t)).(allowances := Index(KeyedAllowances(xs)))
    {
      var r := Refill(allowances, t, KeyedAllowances(xs));
      AllowanceFiledAfter(r, allowances, t, xs);
      InstallAllowances(t, r, Index(KeyedAllowances(xs)));
    }

    method InstallAllowances(t: string, r: map<(string, string), VoteAllowance>, ghost slice: map<string, VoteAllowance>)
      requires Valid() && AllowancesFiled(r) && SameElsewhere(r, allowances, t) && At(r, t) == slice
      modifies this`allowances
      ensures Valid() && OthersKept(t)
      ensures SliceOf(t) == old(SliceOf(t)).(allowances := slice)
    {
      allowances := r;
    }

    method ReplaceCharges(t: string, xs: seq<Charge>)
      requires Valid()
      modifies this`charges
      ensures Valid() && OthersKept(t)
      ensures SliceOf(t) == old(SliceOf(t)).(charges := Index(KeyedCharges(xs)))
    {
      var r := Refill(charges, t, KeyedCharges(xs));
      ChargeFiledAfter(r, charges, t, xs);
      InstallCharges(t, r, Index(KeyedCharges(xs)));
    }

    method InstallCharges(t: string, r: map<(string, nat), Charge>, ghost slice: map<nat, Charge>)
      requires Valid() && ChargesFiled(r) && SameElsewhere(r, charges, t) && At(r, t) == slice
      modifies this`charges
      ensures Valid() && OthersKept(t)
      ensures SliceOf(t) == old(SliceOf(t)).(charges := slice)
    {
      charges := r;
    }

    method ReplacePending(t: string, xs: seq<PendingApproval>)
      requires Valid()
      modifies this`pending
      ensures Valid() && OthersKept(t)
      ensures SliceOf(t) == old(SliceOf(t)).(pending := Index(KeyedPending(xs)))
    {
      var r := Refill(pending, t, KeyedPending(xs));
      PendingFiledAfter(r, pending, t, xs);
      InstallPending(t, r, Index(KeyedPending(xs)));
    }

    method InstallPending(t: string, r: map<(string, nat), PendingApproval>, ghost slice: map<nat, PendingApproval>)
      requires Valid() && PendingFiled(r) && SameElsewhere(r, pending, t) && At(r, t) == slice
      modifies this`pending
      ensures Valid() && OthersKept(t)
      ensures SliceOf(t) == old(SliceOf(t)).(pending := slice)
    {
      pending := r;
    }

    method ReplaceResolved(t: string, xs: seq<(nat, Answer)>)
      requires Valid()
      modifies this`resolved
      ensures Valid() && OthersKept(t)
      ensures SliceOf(t) == old(SliceOf(t)).(resolved := Index(xs))
    {
      resolved := Refill(resolved, t, xs);
    }

    /** Everything the tenant's files hold replaces what memory held. */
    method Replace(t: string, chain: HashChain, gs: seq<CapabilityGrant>, f: ES.TenantFiles)
      requires Valid()
      modifies this`chains, this`grants, this`allowances, this`charges, this`pending, this`resolved
      ensures Valid() && OthersKept(t)
      ensures SliceOf(t) == Slice(chain, GroupGrants(gs), Index(KeyedAllowances(f.allowances)),
                                  Index(KeyedCharges(f.charges)), Index(KeyedPending(f.pending)), Index(f.resolved))
    {
      PutChain(t, chain);
      ReplaceGrants(t, gs);
      ReplaceAllowances(t, f.allowances);
      ReplaceCharges(t, f.charges);
      ReplacePending(t, f.pending);
      ReplaceResolved(t, f.resolved);
    }

    /** Load everything first, then replace; a file that fails changes nothing. */
    method Reload(t: string) returns (r: Result<(), StoreError>)
      requires Valid() && store != null
      modifies this`chains, this`grants, this`allowances, this`charges, this`pending, this`resolved
      ensures Valid() && OthersKept(t)
      ensures r.Ok? ==> LoadSlice(h, t, store.DiskOf(t)) == Ok(SliceOf(t))
      ensures r.Err? ==> LoadSlice(h, t, store.DiskOf(t)) == Err(r.error) && SliceOf(t) == old(SliceOf(t))
    {
      var chain := store.LoadChain(t);
      if chain.Err? { return Err(chain.error); }
      var gs := store.LoadGrants(t);
      if gs.Err? { return Err(gs.error); }
      ES.LoadedSlice(h, t, store.FilesOf(t), store.operator, store.egress, chain.value, gs.value);
      Replace(t, chain.value, gs.value, store.FilesOf(t));
      r := Ok(());
    }

    /** Reload the tenant and note it in the scope file. */
    method OpenScope(t: string, lands: bool) returns (r: Result<(), Error>)
      requires Valid() && store != null && !Blank(t)
      modifies this`activeTenant, this`chains, this`grants, this`allowances, this`charges, this`pending,
               this`resolved, store`scope
      ensures Valid() && OthersKept(t)
      ensures (LedgerOf(t), r) == SetActive(h, old(LedgerOf(t)), lands)
      ensures activeTenant == if r.Ok? then Some(t) else old(activeTenant)
    {
      SetActiveIs(h, LedgerOf(t), lands);
      var loaded := Reload(t);
      if loaded.Err? { return Err(LoadFailed(loaded.error)); }
      var ok := store.SaveScope(Some(t), lands);
      if !ok { return Err(WriteFailed); }
      activeTenant := Some(t);
      r := Ok(());
    }

    /** Establish the active scope: the files replace what memory held. */
    method SetActiveTenant(t: string, lands: bool) returns (r: Result<(), Error>)
      requires Valid()
      modifies this`activeTenant, this`chains, this`grants, this`allowances, this`charges, this`pending,
               this`resolved, (if store == null then {} else {store})`scope
      ensures Valid() && OthersKept(t)
      ensures (LedgerOf(t), r) == SetActive(h, old(LedgerOf(t)), lands)
      ensures activeTenant == if r.Ok? then Some(t) else old(activeTenant)
    {
      if Blank(t) { return Err(BlankTenant); }
      if store == null {
        activeTenant := Some(t);
        return Ok(());
      }
      r := OpenScope(t, lands);
    }

    /** A new process over a store, in the scope it was last left in. A scope that
        fails to reload is left unset. */
    constructor WithStore(store: ES.EvidenceStore, lands: bool)
      modifies store`scope
      ensures Valid() && this.store == store && h == store.h
      ensures Resumed(old(store.scope))
    {
      h, this.store := store.h, store;
      activeTenant, operator, egress, degraded := None, None, DEFAULT_EGRESS, false;
      chains, grants, allowances, charges, pending, resolved := map[], map[], map[], map[], map[], map[];
      new;
      Start(lands);
    }

    /** The scope's tenant is as a restart leaves it; every other slice is empty. */
    ghost predicate Resumed(scope: Option<string>)
      requires store != null
      reads this, store
    {
      && (scope.Some? ==> LedgerOf(scope.value) == Restart(h, Unloaded(h, scope.value, store.DiskOf(scope.value))))
      && forall u :: scope != Some(u) ==> SliceOf(u) == EmptySlice(h, u)
    }

    ghost predicate Unstarted()
      reads this, store
    {
      && activeTenant == None && operator == None && egress == DEFAULT_EGRESS && !degraded && chains == map[]
      && grants == map[] && allowances == map[] && charges == map[] && pending == map[] && resolved == map[]
    }

    method Start(lands: bool)
      requires Valid() && store != null && Unstarted()
      modifies this, store`scope
      ensures Valid() && Resumed(old(store.scope))
    {
      NothingHeld();
      var scope := store.scope;
      if scope.Some? {
        Resume(scope.value, lands);
      }
      ReadSettings();
    }

    /** The operator and the egress policy come from the store as well. */
    method ReadSettings()
      requires Valid() && store != null
      modifies this`operator, this`egress
      ensures Valid() && operator == store.operator && egress == store.egress
      ensures forall t :: SliceOf(t) == old(SliceOf(t))
      ensures forall t :: LedgerOf(t) == old(LedgerOf(t)).(operator := operator, egress := egress)
    {
      operator := store.operator;
      egress := store.egress;
    }

    /** Reload the tenant a fresh process finds in its scope file, whatever comes of it. */
    method Resume(t: string, lands: bool)
      requires Valid() && store != null && LedgerOf(t) == Unloaded(h, t, store.DiskOf(t))
      modifies this`activeTenant, this`chains, this`grants, this`allowances, this`charges, this`pending,
               this`resolved, store`scope
      ensures Valid() && OthersKept(t)
      ensures LedgerOf(t).(operator := store.operator, egress := store.egress) == Restart(h, old(LedgerOf(t)))
      ensures forall u :: u != t ==> SliceOf(u) == old(SliceOf(u))
    {
      var _ := SetActiveTenant(t, lands);
      ResumeIsRestart(h, t, store.DiskOf(t), lands);
    }
  }

  lemma {:induction false} SetActiveIs(h: Hash, l: LedgerModel.Ledger, lands: bool)
    requires !Blank(l.tenant) && l.disk.Some?
    ensures var s := LoadSlice(h, l.tenant, l.disk.value);
            SetActive(h, l, lands) == if s.Err? then (l, Err(LoadFailed(s.error)))
                                      else (l.(mem := s.value), if lands then Ok(()) else Err(WriteFailed))
  {
  }

  /** A process that has opened the store and read nothing yet. */
  function Unloaded(h: Hash, t: string, disk: Disk): LedgerModel.Ledger {
    Ledger.Ledger(t, EmptySlice(h, t), Some(disk), false, None, DEFAULT_EGRESS)
  }

  lemma {:induction false} ResumeIsRestart(h: Hash, t: string, disk: Disk, lands: bool)
    ensures SetActive(h, Unloaded(h, t, disk), lands).0.(operator := disk.operator, egress := disk.egress)
            == Restart(h, Unloaded(h, t, disk))
  {
  }
}
