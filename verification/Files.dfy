/** The small files beside the log: outstanding charges, waiting and answered
    escalations, grants and allowances, each rewritten whole, and how a list read
    back from disk becomes the keyed working set. */
module Files {
  import opened Basics
  import opened Policy
  import opened Store

  /** What one decision took from its grant. */
  datatype Charge = Charge(decision: nat, agent: string, grantId: string, units: U64)

  datatype PendingApproval = PendingApproval(
    decision: nat,
    agent: string,
    principal: Option<string>,
    actionClass: string,
    classification: string,
    cost: U64,
    correlationId: string,
    requestedAtMs: I64)

  /** How an escalation was answered; the file holds the text. */
  datatype Answer = SaidYes | SaidNo | SaidOther(text: string)

  datatype EgressPolicy = EgressPolicy(controlled: seq<string>, allow: map<string, seq<string>>)
  {
    /** `permits`: an unnamed model is never permitted at a controlled level. */
    predicate Permits(classification: string, model: string) {
      classification in controlled ==>
        !Blank(model) && classification in allow && model in allow[classification]
    }
  }

  const DEFAULT_EGRESS: EgressPolicy := EgressPolicy(["CUI", "ITAR"], map[])

  datatype StoredGrant = StoredGrant(
    id: string,
    agent: string,
    principal: string,
    tenantScope: string,
    actionClasses: seq<string>,
    ceiling: string,
    budgetUnits: U64,
    consumed: U64,
    expiresAtMs: I64,
    hic: string,
    revoked: bool)

  function StoreGrant(g: CapabilityGrant): StoredGrant {
    StoredGrant(g.id, g.agent, g.principal, g.tenantScope, g.actionClasses, ClassificationStr(g.ceiling),
                g.budgetUnits, g.consumed, g.expiresAtMs, GrantHicStr(g.hic), g.revoked)
  }

  function RestoreGrant(s: StoredGrant): Result<CapabilityGrant, StoreError> {
    match ClassificationFromStr(s.ceiling)
    case None => Err(BadGrant(s.id))
    case Some(c) =>
      Ok(CapabilityGrant(s.id, s.agent, s.principal, s.tenantScope, s.actionClasses, c, s.budgetUnits,
                         s.consumed, s.expiresAtMs, GrantHicFromStr(s.hic), s.revoked))
  }

  lemma {:induction false} GrantRoundTrip(g: CapabilityGrant)
    ensures RestoreGrant(StoreGrant(g)) == Ok(g)
  {
    ClassificationRoundTrip(g.ceiling);
    GrantHicRoundTrip(g.hic);
  }

  /** A stored grant is refused, by its id, exactly when its ceiling reads as no level. */
  lemma {:induction false} RefusedGrant(s: StoredGrant)
    ensures RestoreGrant(s).Err? <==> ClassificationFromStr(s.ceiling).None?
    ensures RestoreGrant(s).Err? ==> RestoreGrant(s) == Err(BadGrant(s.id))
  {
  }

  function StoreGrants(gs: seq<CapabilityGrant>): (ss: seq<StoredGrant>)
    ensures |ss| == |gs|
  {
    seq(|gs|, i requires 0 <= i < |gs| => StoreGrant(gs[i]))
  }

  /** The first `n` stored grants, or the first that cannot be read. */
  function RestoreGrants(ss: seq<StoredGrant>, n: nat): (r: Result<seq<CapabilityGrant>, StoreError>)
    requires n <= |ss|
  {
    if n == 0 then Ok([])
    else match RestoreGrants(ss, n - 1)
      case Err(e) => Err(e)
      case Ok(gs) =>
        match RestoreGrant(ss[n - 1])
        case Err(e) => Err(e)
        case Ok(g) => Ok(gs + [g])
  }

  lemma {:induction false} RestoreOneMore(ss: seq<StoredGrant>, n: nat, gs: seq<CapabilityGrant>, g: CapabilityGrant)
    requires n < |ss|
    requires RestoreGrants(ss, n) == Ok(gs) && RestoreGrant(ss[n]) == Ok(g)
    ensures RestoreGrants(ss, n + 1) == Ok(gs + [g])
  {
  }

  lemma {:induction false} GrantsRoundTrip(gs: seq<CapabilityGrant>, n: nat)
    requires n <= |gs|
    ensures RestoreGrants(StoreGrants(gs), n) == Ok(gs[..n])
  {
    if n > 0 {
      var k := n - 1;
      GrantsRoundTrip(gs, k);
      GrantRoundTrip(gs[k]);
      RestoreOneMore(StoreGrants(gs), k, gs[..k], gs[k]);
      assert gs[..n] == gs[..k] + [gs[k]];
    }
  }

  // ---- lists to keyed sets ----------------------------------------------

  /** `entry(agent).or_default().push(g)` for every grant of the list. */
  function GroupGrants(gs: seq<CapabilityGrant>): map<string, seq<CapabilityGrant>> {
    if gs == [] then map[]
    else
      var m := GroupGrants(gs[..|gs| - 1]);
      var g := gs[|gs| - 1];
      m[g.agent := (if g.agent in m then m[g.agent] else []) + [g]]
  }

  /** Inserting pairs in order; a later pair replaces an earlier one of its key. */
  function Index<K(==), V>(xs: seq<(K, V)>): map<K, V> {
    if xs == [] then map[]
    else Index(xs[..|xs| - 1])[xs[|xs| - 1].0 := xs[|xs| - 1].1]
  }

  lemma {:induction false} IndexPush<K, V>(xs: seq<(K, V)>, x: (K, V))
    ensures Index(xs + [x]) == Index(xs)[x.0 := x.1]
  {
    assert (xs + [x])[..|xs|] == xs;
  }

  /** The values of a list of pairs: what a file holds when its values carry their keys. */
  function Values<K, V>(xs: seq<(K, V)>): (vs: seq<V>)
    ensures |vs| == |xs|
  {
    seq(|xs|, i requires 0 <= i < |xs| => xs[i].1)
  }

  function KeyedAllowances(xs: seq<VoteAllowance>): seq<(string, VoteAllowance)> {
    seq(|xs|, i requires 0 <= i < |xs| => (xs[i].id, xs[i]))
  }

  function KeyedCharges(xs: seq<Charge>): seq<(nat, Charge)> {
    seq(|xs|, i requires 0 <= i < |xs| => (xs[i].decision, xs[i]))
  }

  function KeyedPending(xs: seq<PendingApproval>): seq<(nat, PendingApproval)> {
    seq(|xs|, i requires 0 <= i < |xs| => (xs[i].decision, xs[i]))
  }

  lemma {:induction false} GroupPush(gs: seq<CapabilityGrant>, g: CapabilityGrant)
    ensures GroupGrants(gs + [g])
            == GroupGrants(gs)[g.agent := (if g.agent in GroupGrants(gs) then GroupGrants(gs)[g.agent] else []) + [g]]
  {
    assert (gs + [g])[..|gs|] == gs;
  }

  /** Grants of one agent, written after a list without that agent, group to that
      agent's own sequence: the flattened file keeps every per-agent order. */
  lemma {:induction false} GroupAppend(gs: seq<CapabilityGrant>, agent: string, own: seq<CapabilityGrant>, n: nat)
    requires agent !in GroupGrants(gs) && 0 < n <= |own|
    requires forall i :: 0 <= i < |own| ==> own[i].agent == agent
    ensures GroupGrants(gs + own[..n]) == GroupGrants(gs)[agent := own[..n]]
    decreases n
  {
    var k := n - 1;
    var before, last := own[..k], own[k];
    GroupPush(gs + before, last);
    assert gs + own[..n] == gs + before + [last];
    assert own[..n] == before + [last];
    if k == 0 {
      assert gs + before == gs;
    } else {
      GroupAppend(gs, agent, own, k);
      assert GroupGrants(gs + before)[agent := before + [last]] == GroupGrants(gs)[agent := before + [last]];
    }
  }
}
