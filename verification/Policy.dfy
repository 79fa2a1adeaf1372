/** Capability grants, the policy check over them, and delegated vote allowances. */
module Policy {
  import opened Basics
  import opened Audit

  datatype Classification = Public | Proprietary | Cui | Itar

  function Rank(c: Classification): nat {
    match c
    case Public => 0
    case Proprietary => 1
    case Cui => 2
    case Itar => 3
  }

  datatype GrantHic = ApproveEach | Budgeted | PostHoc

  function Level(h: GrantHic): HicLevel {
    match h
    case ApproveEach => HicLevel.ApproveEach
    case Budgeted => HicLevel.Budgeted
    case PostHoc => HicLevel.PostHoc
  }

  datatype CapabilityGrant = CapabilityGrant(
    id: string,
    agent: string,
    principal: string,
    tenantScope: string,
    actionClasses: seq<string>,
    ceiling: Classification,
    budgetUnits: U64,
    consumed: U64,
    expiresAtMs: I64,
    hic: GrantHic,
    revoked: bool)
  {
    predicate IsLive(nowMs: I64) {
      !revoked && expiresAtMs > nowMs
    }

    /** `saturating_sub`. */
    function Remaining(): U64 {
      if consumed <= budgetUnits then budgetUnits - consumed else 0
    }

    predicate Covers(action: Action, nowMs: I64) {
      && IsLive(nowMs)
      && action.class_ in actionClasses
      && Rank(action.classification) <= Rank(ceiling)
      && Remaining() >= action.cost
    }

    /** `consume`: `None` is the over-budget error, which changes nothing. */
    function Consume(cost: U64): Option<CapabilityGrant> {
      if cost > Remaining() then None else Some(this.(consumed := consumed + cost))
    }

    /** `refund`, saturating at zero. */
    function Refund(units: U64): CapabilityGrant {
      this.(consumed := if units <= consumed then consumed - units else 0)
    }

    function Revoke(): CapabilityGrant {
      this.(revoked := true)
    }
  }

  datatype Action = Action(
    class_: string,
    classification: Classification,
    cost: U64,
    hic1CostThreshold: U64,
    mandatoryHic1: bool)

  /** The reason codes of the ledger, with the names some of them carry. */
  datatype Reason =
    | RC000 | RC101 | RC102 | RC103 | RC200 | RC300
    | RC301(approver: string, agent: string)
    | RC302(actionClass: string, principal: string)
    | RC303(actionClass: string, agent: string, principal: string)
    | RC400 | RC401

  datatype Decision = Decision(verdict: Verdict, hic: HicLevel, grantId: Option<string>, reason: Reason)

  /** The first grant of the list that covers the action. */
  function FindCovering(grants: seq<CapabilityGrant>, action: Action, nowMs: I64): (r: Option<nat>)
    ensures r.Some? ==> r.value < |grants| && grants[r.value].Covers(action, nowMs)
    ensures r.Some? ==> forall k :: 0 <= k < r.value ==> !grants[k].Covers(action, nowMs)
    ensures r.None? ==> forall k :: 0 <= k < |grants| ==> !grants[k].Covers(action, nowMs)
  {
    if grants == [] then None
    else if grants[0].Covers(action, nowMs) then Some(0)
    else match FindCovering(grants[1..], action, nowMs)
      case None => None
      case Some(k) => assert forall j :: 0 < j < |grants| ==> grants[j] == grants[1..][j - 1]; Some(k + 1)
  }

  /** `evaluate`: no covering grant is ungoverned, a mandatory signature or an
      exceeded ceiling escalates, and anything else is allowed at the grant's level. */
  function Evaluate(action: Action, grants: seq<CapabilityGrant>, nowMs: I64): Decision {
    match FindCovering(grants, action, nowMs)
    case None => Decision(Verdict.Ungoverned, HicLevel.Ungoverned, None, RC000)
    case Some(k) =>
      var grant := grants[k];
      var overCeiling := action.hic1CostThreshold > 0 && action.cost > action.hic1CostThreshold;
      if action.mandatoryHic1 || overCeiling || grant.hic == GrantHic.ApproveEach then
        Decision(RequireApproval, HicLevel.ApproveEach, Some(grant.id),
                 if overCeiling then RC102 else if action.mandatoryHic1 then RC101 else RC103)
      else
        Decision(Allow, Level(grant.hic), Some(grant.id), RC200)
  }

  /** The first position of a grant with this id. */
  function FindGrant(grants: seq<CapabilityGrant>, id: string): (r: Option<nat>)
    ensures r.Some? ==> r.value < |grants| && grants[r.value].id == id
    ensures r.None? ==> forall k :: 0 <= k < |grants| ==> grants[k].id != id
  {
    if grants == [] then None
    else if grants[0].id == id then Some(0)
    else match FindGrant(grants[1..], id)
      case None => assert forall j :: 0 < j < |grants| ==> grants[j] == grants[1..][j - 1]; None
      case Some(k) => Some(k + 1)
  }

  datatype VoteAllowance = VoteAllowance(
    id: string,
    principal: string,
    agent: string,
    tenantScope: string,
    proposalClasses: seq<string>,
    weightCap: U64,
    spent: U64,
    expiresAtMs: I64,
    revoked: bool)
  {
    predicate IsLive(nowMs: I64) {
      !revoked && expiresAtMs > nowMs
    }

    function Remaining(): U64 {
      if spent <= weightCap then weightCap - spent else 0
    }

    /** `cast`: the allowance after the spend, or why nothing was spent. */
    function Cast(class_: string, weight: U64, nowMs: I64): (r: Result<VoteAllowance, PolicyError>)
    {
      if !IsLive(nowMs) then Err(AllowanceInactive)
      else if class_ !in proposalClasses then Err(ClassNotCovered)
      else if weight > Remaining() then Err(OverAllowance)
      else Ok(this.(spent := spent + weight))
    }

    function Revoke(): VoteAllowance {
      this.(revoked := true)
    }
  }

  datatype PolicyError = OverBudget | AllowanceInactive | ClassNotCovered | OverAllowance
}
