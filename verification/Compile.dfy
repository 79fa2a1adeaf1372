/** Compiling a drafted spec: every clause is mapped to a registered template with typed
    parameters, or is unmapped with a reason, structural, or waived. */
module Compile {
  import opened Basics
  import opened Interview
  import opened Spec
  import opened Text

  datatype TemplateRow = TemplateRow(name: string, id: string, version: U64)

  type Catalog = seq<TemplateRow>

  function ByName(catalog: Catalog, name: string): (r: Option<TemplateRow>)
    ensures r.Some? ==> r.value in catalog && r.value.name == name
  {
    if catalog == [] then None
    else if catalog[0].name == name then Some(catalog[0])
    else ByName(catalog[1..], name)
  }

  type Params = seq<(string, string)>

  datatype Why =
    | NoTemplate(topic: Topic)
    | NothingRegistered(template: string)
    | NotRegistered(template: string)
    | NoCount(text: string)
    | ZeroThreshold
    | NoDuration(text: string)
    | NoCeiling(text: string)

  datatype Mapped = Mapped(clause: string, templateId: string, templateName: string, params: Params)
  datatype Unmapped = Unmapped(clause: string, why: Why)
  datatype Structural = Structural(clause: string, kind: Topic, value: string)
  datatype Waived = Waived(clause: string, topic: Topic, said: string)

  datatype Compiled = Compiled(
    mapped: seq<Mapped>,
    unmapped: seq<Unmapped>,
    structural: seq<Structural>,
    waived: seq<Waived>)
  {
    predicate Deployable() {
      unmapped == [] && mapped != []
    }
  }

  // ---- reading parameters out of words ----------------------------------

  function WordOrDigit(token: string): (r: Option<nat>)
    ensures r.Some? ==> r.value <= 64
  {
    var t := TrimToAlphanumeric(token);
    if t == "one" then Some(1)
    else if t == "two" then Some(2)
    else if t == "three" then Some(3)
    else if t == "four" then Some(4)
    else if t == "five" then Some(5)
    else if t == "six" then Some(6)
    else match ParseU64(t)
      case None => None
      case Some(n) => if n <= 64 then Some(n) else None
  }

  /** The first token that reads as a count. */
  function FirstCount(tokens: seq<string>): (r: Option<nat>)
    ensures r.None? <==> forall i :: 0 <= i < |tokens| ==> WordOrDigit(tokens[i]).None?
    ensures r.Some? ==> r.value <= 64
  {
    if tokens == [] then None
    else if WordOrDigit(tokens[0]).Some? then WordOrDigit(tokens[0])
    else
      assert forall i :: 0 < i < |tokens| ==> tokens[i] == tokens[1..][i - 1];
      FirstCount(tokens[1..])
  }

  predicate AboutApproving(lower: string) {
    Contains(lower, "approv") || Contains(lower, "signature") || Contains(lower, "sign-off")
    || Contains(lower, "signer")
  }

  function LastWord(s: string): string {
    var ws := Words(s);
    if ws == [] then "" else ws[|ws| - 1]
  }

  /** `N of M` before the first " of ". */
  function CountOf(lower: string): (r: Option<nat>)
    ensures r.Some? ==> r.value <= 64
  {
    match Find(lower, " of ")
    case None => None
    case Some(i) => WordOrDigit(LastWord(Trim(lower[..i])))
  }

  function ParseCount(s: string): (r: Option<nat>)
    ensures r.Some? ==> r.value <= 64
  {
    var l := Lower(s);
    if CountOf(l).Some? then CountOf(l)
    else if !AboutApproving(l) then None
    else FirstCount(Words(l))
  }

  function UnitSecs(token: string): (r: Option<nat>)
    ensures r.Some? ==> 1 <= r.value <= 604800
  {
    var unit := TrimToAlphabetic(token);
    if unit in ["second", "seconds", "sec", "secs"] then Some(1)
    else if unit in ["minute", "minutes", "min", "mins"] then Some(60)
    else if unit in ["hour", "hours", "hr", "hrs"] then Some(3600)
    else if unit in ["day", "days"] then Some(86400)
    else if unit in ["week", "weeks"] then Some(604800)
    else None
  }

  /** The token names a unit and the one before it a number. */
  predicate DurationAt(tokens: seq<string>, i: nat) {
    0 < i < |tokens| && UnitSecs(tokens[i]).Some? && WordOrDigit(tokens[i - 1]).Some?
  }

  function SecsAt(tokens: seq<string>, i: nat): (secs: U64)
    requires DurationAt(tokens, i)
    ensures secs <= 64 * 604800
  {
    var n, m := WordOrDigit(tokens[i - 1]).value, UnitSecs(tokens[i]).value;
    assert n * m <= 64 * m;
    n * m
  }

  method ParseDurationSecs(s: string) returns (r: Option<U64>)
    ensures r == DurationFrom(Words(Lower(s)), 0)
  {
    var tokens := Words(Lower(s));
    for i := 0 to |tokens|
      invariant DurationFrom(tokens, 0) == DurationFrom(tokens, i)
    {
      var mult := UnitSecs(tokens[i]);
      if mult.Some? && i > 0 {
        var n := WordOrDigit(tokens[i - 1]);
        if n.Some? { return Some(SecsAt(tokens, i)); }
      }
    }
    r := None;
  }

  /** The first number followed by a unit, from token `i` on. */
  function DurationFrom(tokens: seq<string>, i: nat): Option<U64>
    requires i <= |tokens|
    decreases |tokens| - i
  {
    if i == |tokens| then None
    else if DurationAt(tokens, i) then Some(SecsAt(tokens, i))
    else DurationFrom(tokens, i + 1)
  }

  predicate FirstDurationAt(tokens: seq<string>, from: nat, k: nat) {
    DurationAt(tokens, k) && forall j :: from <= j < k ==> !DurationAt(tokens, j)
  }

  /** A duration is read exactly when some number stands before some unit, and then it is
      the first such pair's product, at most 64 weeks. */
  lemma {:induction false} DurationIsFirstPair(tokens: seq<string>, i: nat)
    requires i <= |tokens|
    ensures DurationFrom(tokens, i).None? <==> forall k :: i <= k < |tokens| ==> !DurationAt(tokens, k)
    ensures DurationFrom(tokens, i).Some? ==>
              exists k | i <= k < |tokens| :: FirstDurationAt(tokens, i, k)
                                              && DurationFrom(tokens, i).value == SecsAt(tokens, k)
  {
    NoDurationFrom(tokens, i);
    if DurationFrom(tokens, i).Some? {
      var k := DurationFound(tokens, i);
      assert FirstDurationAt(tokens, i, k);
    }
  }

  lemma {:induction false} NoDurationFrom(tokens: seq<string>, i: nat)
    requires i <= |tokens|
    ensures DurationFrom(tokens, i).None? <==> forall k :: i <= k < |tokens| ==> !DurationAt(tokens, k)
    decreases |tokens| - i
  {
    if i < |tokens| && !DurationAt(tokens, i) {
      NoDurationFrom(tokens, i + 1);
    }
  }

  lemma {:induction false} DurationFound(tokens: seq<string>, i: nat) returns (k: nat)
    requires i <= |tokens| && DurationFrom(tokens, i).Some?
    ensures i <= k < |tokens| && FirstDurationAt(tokens, i, k)
    ensures DurationFrom(tokens, i).value == SecsAt(tokens, k)
    decreases |tokens| - i
  {
    k := i;
    if !DurationAt(tokens, i) {
      k := DurationFound(tokens, i + 1);
    }
  }

  const LEVELS: seq<(string, string)> :=
    [("itar", "ITAR"), ("cui", "CUI"), ("proprietary", "Proprietary"), ("public", "Public")]

  /** The first level of the list, highest first, whose word stands in the text. */
  function LevelFrom(parts: seq<string>, i: nat): Option<string>
    requires i <= |LEVELS|
    decreases |LEVELS| - i
  {
    if i == |LEVELS| then None
    else if LEVELS[i].0 in parts then Some(LEVELS[i].1)
    else LevelFrom(parts, i + 1)
  }

  function ParseClassification(s: string): Option<string> {
    LevelFrom(AlphanumericParts(Lower(s)), 0)
  }

  /** The stricter level wins wherever it stands. */
  lemma {:induction false} StricterWins(s: string)
    ensures var parts := AlphanumericParts(Lower(s));
            && (ParseClassification(s) == Some("ITAR") <==> "itar" in parts)
            && (ParseClassification(s) == Some("CUI") <==> "cui" in parts && "itar" !in parts)
            && (ParseClassification(s) == Some("Proprietary")
                <==> "proprietary" in parts && "cui" !in parts && "itar" !in parts)
            && (ParseClassification(s).None?
                <==> "itar" !in parts && "cui" !in parts && "proprietary" !in parts && "public" !in parts)
  {
    var parts := AlphanumericParts(Lower(s));
    assert LevelFrom(parts, 3) == if "public" in parts then Some("Public") else None;
    assert LevelFrom(parts, 2) == if "proprietary" in parts then Some("Proprietary") else LevelFrom(parts, 3);
    assert LevelFrom(parts, 1) == if "cui" in parts then Some("CUI") else LevelFrom(parts, 2);
  }

  // ---- one clause -------------------------------------------------------

  predicate IsStructuralTopic(t: Topic) {
    t == Scope || t == Principals
  }

  const WAIVERS: seq<string> := ["none", "no exceptions", "nothing", "n/a", "not applicable"]

  predicate IsWaiver(text: string) {
    Lower(TrimDots(Trim(text))) in WAIVERS
  }

  function TemplateFor(t: Topic): Option<string> {
    match t
    case Thresholds => Some("ThresholdApproval")
    case Roles => Some("SegregationOfDuties")
    case Escalation => Some("IncidentEscalation")
    case Expiry => Some("TimeBoundedElevation")
    case Exceptions => Some("ClassificationGate")
    case Scope => None
    case Principals => None
  }

  function RawOf(c: Clause): string {
    if c.params == [] then "" else c.params[0].1
  }

  /** Typed parameters, or why there are none. */
  function ExtractParams(c: Clause): Result<Params, Why> {
    var raw := RawOf(c);
    match c.topic
    case Thresholds =>
      (match ParseCount(raw)
       case None => Err(NoCount(raw))
       case Some(n) => if n == 0 then Err(ZeroThreshold) else Ok([("threshold", Decimal(n))]))
    case Roles =>
      Ok([("minApprovers", Decimal(if ParseCount(raw).Some? then ParseCount(raw).value else 1))])
    case Exceptions =>
      (match ParseClassification(raw)
       case None => Err(NoCeiling(raw))
       case Some(level) => Ok([("ceiling", level)]))
    case _ =>
      match DurationFrom(Words(Lower(raw)), 0)
      case None => Err(NoDuration(raw))
      case Some(secs) => Ok([(if c.topic == Expiry then "durationSeconds" else "slaSeconds", Decimal(secs))])
  }

  datatype Outcome =
    | AsMapped(m: Mapped)
    | AsUnmapped(u: Unmapped)
    | AsStructural(s: Structural)
    | AsWaived(w: Waived)

  function MapTo(c: Clause, catalog: Catalog, name: string): Outcome {
    match ByName(catalog, name)
    case None =>
      AsUnmapped(Unmapped(c.n, if catalog == [] then NothingRegistered(name) else NotRegistered(name)))
    case Some(row) =>
      match ExtractParams(c)
      case Ok(params) => AsMapped(Mapped(c.n, row.id, row.name, params))
      case Err(why) => AsUnmapped(Unmapped(c.n, why))
  }

  function Classify(c: Clause, catalog: Catalog): Outcome {
    if IsStructuralTopic(c.topic) then AsStructural(Structural(c.n, c.topic, RawOf(c)))
    else if c.params != [] && IsWaiver(c.params[0].1) then AsWaived(Waived(c.n, c.topic, Trim(c.params[0].1)))
    else match TemplateFor(c.topic)
      case None => AsUnmapped(Unmapped(c.n, NoTemplate(c.topic)))
      case Some(name) => MapTo(c, catalog, name)
  }

  // ---- the whole spec ---------------------------------------------------

  /** The outcome joins the list of its kind, at the end. */
  function Put(out: Compiled, o: Outcome): Compiled {
    match o
    case AsMapped(m) => out.(mapped := out.mapped + [m])
    case AsUnmapped(u) => out.(unmapped := out.unmapped + [u])
    case AsStructural(s) => out.(structural := out.structural + [s])
    case AsWaived(w) => out.(waived := out.waived + [w])
  }

  function Collect(os: seq<Outcome>): Compiled {
    if os == [] then Compiled([], [], [], []) else Put(Collect(os[..|os| - 1]), os[|os| - 1])
  }

  function Outcomes(clauses: seq<Clause>, catalog: Catalog): (os: seq<Outcome>)
    ensures |os| == |clauses|
  {
    seq(|clauses|, i requires 0 <= i < |clauses| => Classify(clauses[i], catalog))
  }

  function CompiledTo(clauses: seq<Clause>, catalog: Catalog): Compiled {
    Collect(Outcomes(clauses, catalog))
  }

  lemma {:induction false} CollectOneMore(os: seq<Outcome>, i: nat)
    requires i < |os|
    ensures Collect(os[..i + 1]) == Put(Collect(os[..i]), os[i])
  {
    var k := i + 1;
    assert os[..k][..i] == os[..i];
  }

  method CompileSpec(clauses: seq<Clause>, catalog: Catalog) returns (out: Compiled)
    ensures out == CompiledTo(clauses, catalog)
  {
    out := Compiled([], [], [], []);
    ghost var os := Outcomes(clauses, catalog);
    for i := 0 to |clauses|
      invariant out == Collect(os[..i])
    {
      var c := clauses[i];
      CollectOneMore(os, i);
      if IsStructuralTopic(c.topic) {
        out := out.(structural := out.structural + [Structural(c.n, c.topic, RawOf(c))]);
        continue;
      }
      if c.params != [] && IsWaiver(c.params[0].1) {
        out := out.(waived := out.waived + [Waived(c.n, c.topic, Trim(c.params[0].1))]);
        continue;
      }
      var name := TemplateFor(c.topic);
      if name.None? {
        out := out.(unmapped := out.unmapped + [Unmapped(c.n, NoTemplate(c.topic))]);
        continue;
      }
      var row := ByName(catalog, name.value);
      if row.None? {
        var why := if catalog == [] then NothingRegistered(name.value) else NotRegistered(name.value);
        out := out.(unmapped := out.unmapped + [Unmapped(c.n, why)]);
        continue;
      }
      match ExtractParams(c) {
        case Ok(params) => out := out.(mapped := out.mapped + [Mapped(c.n, row.value.id, row.value.name, params)]);
        case Err(why) => out := out.(unmapped := out.unmapped + [Unmapped(c.n, why)]);
      }
    }
    assert os[..|os|] == os;
  }

  // ---- total, exclusive, in order ---------------------------------------

  predicate StandsIn(out: Compiled, o: Outcome, at: Compiled) {
    match o
    case AsMapped(m) => |at.mapped| < |out.mapped| && out.mapped[|at.mapped|] == m
    case AsUnmapped(u) => |at.unmapped| < |out.unmapped| && out.unmapped[|at.unmapped|] == u
    case AsStructural(s) => |at.structural| < |out.structural| && out.structural[|at.structural|] == s
    case AsWaived(w) => |at.waived| < |out.waived| && out.waived[|at.waived|] == w
  }

  function Size(out: Compiled): nat {
    |out.mapped| + |out.unmapped| + |out.structural| + |out.waived|
  }

  predicate Continues(a: Compiled, b: Compiled) {
    && |a.mapped| <= |b.mapped| && b.mapped[..|a.mapped|] == a.mapped
    && |a.unmapped| <= |b.unmapped| && b.unmapped[..|a.unmapped|] == a.unmapped
    && |a.structural| <= |b.structural| && b.structural[..|a.structural|] == a.structural
    && |a.waived| <= |b.waived| && b.waived[..|a.waived|] == a.waived
  }

  lemma {:induction false} PutOne(out: Compiled, o: Outcome)
    ensures Size(Put(out, o)) == Size(out) + 1 && Continues(out, Put(out, o)) && StandsIn(Put(out, o), o, out)
  {
  }

  lemma {:induction false} PutKeeps(at: Compiled, out: Compiled, o: Outcome, p: Outcome)
    requires Continues(at, out) && StandsIn(out, o, at)
    ensures Continues(at, Put(out, p)) && StandsIn(Put(out, p), o, at)
  {
  }

  lemma {:induction false} SizeOf(os: seq<Outcome>)
    ensures Size(Collect(os)) == |os|
  {
    if os != [] {
      SizeOf(os[..|os| - 1]);
      PutOne(Collect(os[..|os| - 1]), os[|os| - 1]);
    }
  }

  lemma {:induction false} EveryOutcomeOnce(os: seq<Outcome>, i: nat)
    requires i < |os|
    ensures Size(Collect(os)) == |os|
    ensures Continues(Collect(os[..i]), Collect(os)) && StandsIn(Collect(os), os[i], Collect(os[..i]))
    decreases |os|
  {
    var n := |os| - 1;
    var before := os[..n];
    SizeOf(os);
    PutOne(Collect(before), os[n]);
    if i < n {
      EveryOutcomeOnce(before, i);
      assert before[..i] == os[..i] && before[i] == os[i];
      PutKeeps(Collect(os[..i]), Collect(before), os[i], os[n]);
    }
  }

  /** Every clause has exactly one entry, in the list of its kind, after the entries of
      the clauses before it; the lists hold nothing else. */
  lemma {:induction false} EveryClauseOnce(clauses: seq<Clause>, catalog: Catalog, i: nat)
    requires i < |clauses|
    ensures Size(CompiledTo(clauses, catalog)) == |clauses|
    ensures Continues(CompiledTo(clauses[..i], catalog), CompiledTo(clauses, catalog))
    ensures StandsIn(CompiledTo(clauses, catalog), Classify(clauses[i], catalog), CompiledTo(clauses[..i], catalog))
  {
    EveryOutcomeOnce(Outcomes(clauses, catalog), i);
    assert Outcomes(clauses[..i], catalog) == Outcomes(clauses, catalog)[..i];
  }

  /** Structural is decided by the topic alone, and waived by the words alone. */
  lemma {:induction false} NotADumpingGround(c: Clause, catalog: Catalog)
    ensures Classify(c, catalog).AsStructural? <==> c.topic in {Scope, Principals}
    ensures Classify(c, catalog).AsWaived?
            <==> c.topic !in {Scope, Principals} && c.params != []
                 && Lower(TrimDots(Trim(c.params[0].1)))
                    in {"none", "no exceptions", "nothing", "n/a", "not applicable"}
    ensures Classify(c, catalog).AsMapped?
            <==> c.topic !in {Scope, Principals} && !(c.params != [] && IsWaiver(c.params[0].1))
                 && ByName(catalog, TemplateFor(c.topic).value).Some? && ExtractParams(c).Ok?
  {
  }

  lemma {:induction false} ByNameKeeps(catalog: Catalog, more: Catalog, name: string)
    ensures ByName(catalog + more, name)
            == if ByName(catalog, name).Some? then ByName(catalog, name) else ByName(more, name)
  {
    if catalog == [] {
      assert catalog + more == more;
    } else {
      assert (catalog + more)[1..] == catalog[1..] + more;
      ByNameKeeps(catalog[1..], more, name);
    }
  }

  /** Registering more templates keeps every outcome but unmapped ones, and moves one of
      those exactly when its template was missing, now is there, and its words type. */
  lemma {:induction false} MoreTemplatesOnlyMap(c: Clause, catalog: Catalog, more: Catalog)
    ensures var was, now := Classify(c, catalog), Classify(c, catalog + more);
            && (!was.AsUnmapped? ==> now == was)
            && (was.AsUnmapped? ==> now.AsUnmapped? || now.AsMapped?)
            && (was.AsUnmapped? && now.AsMapped?
                <==> was.AsUnmapped? && TemplateFor(c.topic).Some? && ByName(catalog, TemplateFor(c.topic).value).None?
                     && ByName(more, TemplateFor(c.topic).value).Some? && ExtractParams(c).Ok?)
  {
    if TemplateFor(c.topic).Some? {
      ByNameKeeps(catalog, more, TemplateFor(c.topic).value);
    }
  }

  predicate NoneUnmapped(os: seq<Outcome>) {
    forall i :: 0 <= i < |os| ==> !os[i].AsUnmapped?
  }

  predicate SomeMapped(os: seq<Outcome>) {
    exists i | 0 <= i < |os| :: os[i].AsMapped?
  }

  lemma {:induction false} ListsAreTheOutcomes(os: seq<Outcome>)
    ensures Collect(os).unmapped == [] <==> NoneUnmapped(os)
    ensures Collect(os).mapped != [] <==> SomeMapped(os)
  {
    if os != [] {
      var n := |os| - 1;
      var before := os[..n];
      ListsAreTheOutcomes(before);
      assert forall i :: 0 <= i < n ==> before[i] == os[i];
      if SomeMapped(before) {
        var i :| 0 <= i < n && before[i].AsMapped?;
        assert os[i].AsMapped?;
      }
    }
  }

  /** A spec is deployable exactly when no clause is unmapped and some clause is mapped;
      registering more templates never takes that away. */
  lemma {:induction false} DeployableStays(clauses: seq<Clause>, catalog: Catalog, more: Catalog)
    ensures CompiledTo(clauses, catalog).Deployable()
            <==> NoneUnmapped(Outcomes(clauses, catalog)) && SomeMapped(Outcomes(clauses, catalog))
    ensures CompiledTo(clauses, catalog).Deployable() ==> CompiledTo(clauses, catalog + more).Deployable()
  {
    var was, now := Outcomes(clauses, catalog), Outcomes(clauses, catalog + more);
    ListsAreTheOutcomes(was);
    ListsAreTheOutcomes(now);
    forall i | 0 <= i < |clauses| ensures !was[i].AsUnmapped? ==> now[i] == was[i] {
      MoreTemplatesOnlyMap(clauses[i], catalog, more);
    }
    if SomeMapped(was) && NoneUnmapped(was) {
      var i :| 0 <= i < |was| && was[i].AsMapped?;
      assert now[i].AsMapped?;
    }
  }

  datatype TargetError = NotDeployable(unmapped: nat) | NothingToDeploy

  /** `target`: what a deployment of this spec is for. */
  function Target(c: Compiled): Result<Mapped, TargetError> {
    if c.unmapped != [] then Err(NotDeployable(|c.unmapped|))
    else if c.mapped == [] then Err(NothingToDeploy)
    else Ok(c.mapped[0])
  }

  /** A deployment has a target exactly when the spec is deployable: the first clause, in
      spec order, that mapped. */
  lemma {:induction false} TargetIsFirstMapped(clauses: seq<Clause>, catalog: Catalog, i: nat)
    requires i < |clauses| && Classify(clauses[i], catalog).AsMapped?
    requires forall k :: 0 <= k < i ==> !Classify(clauses[k], catalog).AsMapped?
    ensures Target(CompiledTo(clauses, catalog))
            == if NoneUnmapped(Outcomes(clauses, catalog)) then Ok(Classify(clauses[i], catalog).m)
               else Err(NotDeployable(|CompiledTo(clauses, catalog).unmapped|))
  {
    var os := Outcomes(clauses, catalog);
    ListsAreTheOutcomes(os);
    EveryOutcomeOnce(os, i);
    ListsAreTheOutcomes(os[..i]);
  }

  // ---- what a mapped clause carries -------------------------------------

  /** The first row of the catalog with this name. */
  predicate FirstRow(catalog: Catalog, name: string, i: nat) {
    && i < |catalog| && catalog[i].name == name
    && forall j :: 0 <= j < i ==> catalog[j].name != name
  }

  lemma {:induction false} ByNameIsFirst(catalog: Catalog, name: string) returns (i: nat)
    ensures ByName(catalog, name).None? <==> forall j :: 0 <= j < |catalog| ==> catalog[j].name != name
    ensures ByName(catalog, name).Some? ==> FirstRow(catalog, name, i) && ByName(catalog, name) == Some(catalog[i])
  {
    i := 0;
    if catalog != [] && catalog[0].name != name {
      var k := ByNameIsFirst(catalog[1..], name);
      assert forall j :: 0 < j < |catalog| ==> catalog[j] == catalog[1..][j - 1];
      i := k + 1;
    }
  }

  /** The template each topic's clause is for. */
  predicate IsFor(t: Topic, template: string) {
    (t, template) in {(Thresholds, "ThresholdApproval"), (Roles, "SegregationOfDuties"),
                      (Escalation, "IncidentEscalation"), (Expiry, "TimeBoundedElevation"),
                      (Exceptions, "ClassificationGate")}
  }

  /** The one parameter a mapped clause carries, by topic: a threshold above zero, a number
      of approvers, a ceiling, or a time in seconds under the name the topic gives it. */
  predicate Carries(t: Topic, raw: string, key: string, value: string) {
    match t
    case Thresholds => key == "threshold" && ParseCount(raw).Some? && ParseCount(raw).value > 0
                       && value == Decimal(ParseCount(raw).value)
    case Roles => key == "minApprovers"
                  && value == (if ParseCount(raw).Some? then Decimal(ParseCount(raw).value) else "1")
    case Exceptions => key == "ceiling" && ParseClassification(raw) == Some(value)
    case Escalation => key == "slaSeconds" && ReadsSecs(raw, value)
    case Expiry => key == "durationSeconds" && ReadsSecs(raw, value)
    case _ => false
  }

  predicate ReadsSecs(raw: string, value: string) {
    var secs := DurationFrom(Words(Lower(raw)), 0);
    secs.Some? && value == Decimal(secs.value)
  }

  /** A clause maps exactly when its topic has a template, it is not waived, the template is
      in the catalog and its words type; then it names the first such row and carries its
      one parameter. */
  lemma {:induction false} MappedOnFields(c: Clause, catalog: Catalog) returns (i: nat)
    ensures Classify(c, catalog).AsMapped? ==>
              var m := Classify(c, catalog).m;
              && m.clause == c.n && IsFor(c.topic, m.templateName)
              && FirstRow(catalog, m.templateName, i) && m.templateId == catalog[i].id
              && |m.params| == 1 && Carries(c.topic, RawOf(c), m.params[0].0, m.params[0].1)
  {
    assert Decimal(1) == "1";
    if TemplateFor(c.topic).Some? {
      i := ByNameIsFirst(catalog, TemplateFor(c.topic).value);
    } else {
      i := 0;
    }
  }

  /** A structural clause keeps its first value, and a waived one its words, trimmed. */
  lemma {:induction false} KeptOnFields(c: Clause, catalog: Catalog)
    ensures Classify(c, catalog).AsStructural? ==>
              var s := Classify(c, catalog).s;
              s.clause == c.n && s.kind == c.topic && s.value == (if c.params == [] then "" else c.params[0].1)
    ensures Classify(c, catalog).AsWaived? ==>
              var w := Classify(c, catalog).w;
              c.params != [] && w.clause == c.n && w.topic == c.topic && w.said == Trim(c.params[0].1)
  {
  }

  /** Why a clause is unmapped: nothing is registered at all, or not its template, or its
      words hold no count, a zero, no duration, or no level. */
  lemma {:induction false} UnmappedOnFields(c: Clause, catalog: Catalog, template: string)
    requires Classify(c, catalog).AsUnmapped? && IsFor(c.topic, template)
    ensures var u := Classify(c, catalog).u;
            && u.clause == c.n
            && (if catalog == [] then u.why == NothingRegistered(template)
                else if forall j :: 0 <= j < |catalog| ==> catalog[j].name != template then u.why == NotRegistered(template)
                else match c.topic
                  case Thresholds => u.why == (if ParseCount(RawOf(c)).None? then NoCount(RawOf(c)) else ZeroThreshold)
                  case Exceptions => u.why == NoCeiling(RawOf(c))
                  case _ => u.why == NoDuration(RawOf(c)))
  {
    var i := ByNameIsFirst(catalog, template);
  }

  // ---- numbers and times, in words --------------------------------------

  /** Counting words read as the digits they stand for, and digits up to 64 as themselves. */
  lemma {:induction false} NumberWords(n: nat)
    requires n <= 64
    ensures WordOrDigit(Decimal(n)) == Some(n)
    ensures WordOrDigit("one") == Some(1) && WordOrDigit("two") == Some(2) && WordOrDigit("three") == Some(3)
    ensures WordOrDigit("four") == Some(4) && WordOrDigit("five") == Some(5) && WordOrDigit("six") == Some(6)
  {
    PlainNumber(n);
    AsItStands("one");
    AsItStands("two");
    AsItStands("three");
    AsItStands("four");
    AsItStands("five");
    AsItStands("six");
  }

  lemma {:induction false} AsItStands(w: string)
    requires w != [] && IsAlphabetic(w[0]) && IsAlphabetic(w[|w| - 1])
    ensures TrimToAlphanumeric(w) == w && TrimToAlphabetic(w) == w
  {
  }

  /** A unit in the singular, the plural and its short forms. */
  predicate SameUnit(secs: nat, names: seq<string>) {
    forall i :: 0 <= i < |names| ==> UnitSecs(names[i]) == Some(secs)
  }

  /** Sixty seconds to the minute, sixty minutes to the hour, twenty-four hours to the day,
      seven days to the week. */
  lemma {:induction false} UnitsOfTime()
    ensures SameUnit(1, ["second", "seconds", "sec", "secs"])
    ensures SameUnit(60 * 1, ["minute", "minutes", "min", "mins"])
    ensures SameUnit(60 * 60, ["hour", "hours", "hr", "hrs"])
    ensures SameUnit(24 * 60 * 60, ["day", "days"])
    ensures SameUnit(7 * 24 * 60 * 60, ["week", "weeks"])
  {
    Seconds();
    Minutes();
    Hours();
    DaysAndWeeks();
  }

  lemma {:induction false} Seconds()
    ensures SameUnit(1, ["second", "seconds", "sec", "secs"])
  {
    AsItStands("second");
    AsItStands("seconds");
    AsItStands("sec");
    AsItStands("secs");
  }

  lemma {:induction false} Minutes()
    ensures SameUnit(60, ["minute", "minutes", "min", "mins"])
  {
    AsItStands("minute");
    AsItStands("minutes");
    AsItStands("min");
    AsItStands("mins");
  }

  lemma {:induction false} Hours()
    ensures SameUnit(3600, ["hour", "hours", "hr", "hrs"])
  {
    AsItStands("hour");
    AsItStands("hours");
    AsItStands("hr");
    AsItStands("hrs");
  }

  lemma {:induction false} DaysAndWeeks()
    ensures SameUnit(86400, ["day", "days"]) && SameUnit(604800, ["week", "weeks"])
  {
    AsItStands("day");
    AsItStands("days");
    AsItStands("week");
    AsItStands("weeks");
  }

  /** "N of M" gives N, for any N up to 64 and whatever M is. */
  lemma {:induction false} NOfMIsN(n: nat, rest: string)
    requires n <= 64
    ensures ParseCount(Decimal(n) + " of " + rest) == Some(n)
  {
    var d := Decimal(n);
    LowerOfPair(d, rest);
    CountBeforeOf(d, Lower(rest));
    PlainNumber(n);
  }

  lemma {:induction false} LowerOfPair(d: string, rest: string)
    requires AllDigits(d)
    ensures Lower(d + " of " + rest) == d + (" of " + Lower(rest))
  {
    assert d + " of " + rest == d + (" of " + rest);
    DigitsStayLow(d, " of " + rest);
    LowerOf(rest);
  }

  lemma {:induction false} CountBeforeOf(d: string, rest: string)
    requires d != [] && AllDigits(d)
    ensures CountOf(d + (" of " + rest)) == WordOrDigit(d)
  {
    var l := d + (" of " + rest);
    FindAfterDigits(d, rest);
    assert l[..|d|] == d;
    TrimDigits(d);
    OneWord(d);
  }

  lemma {:induction false} LowerOf(rest: string)
    ensures Lower(" of " + rest) == " of " + Lower(rest)
  {
  }

  lemma {:induction false} DigitsStayLow(d: string, rest: string)
    requires AllDigits(d)
    ensures Lower(d + rest) == d + Lower(rest)
  {
  }

  lemma {:induction false} StartsElse(s: string, p: string)
    requires s != [] && p != [] && s[0] != p[0]
    ensures !StartsWith(s, p)
  {
  }

  lemma {:induction false} FindAfterDigits(d: string, rest: string)
    requires AllDigits(d)
    ensures Find(d + (" of " + rest), " of ") == Some(|d|)
  {
    var s := d + (" of " + rest);
    if d == [] {
      assert s == " of " + rest && s[..4] == " of ";
    } else {
      assert s[0] == d[0] && IsDigit(s[0]) && s[1..] == d[1..] + (" of " + rest);
      StartsElse(s, " of ");
      FindAfterDigits(d[1..], rest);
    }
  }

  lemma {:induction false} TrimDigits(d: string)
    requires d != [] && AllDigits(d)
    ensures Trim(d) == d && IsWord(d)
  {
    assert IsDigit(d[0]) && IsDigit(d[|d| - 1]);
    forall i | 0 <= i < |d| ensures !IsSpace(d[i]) { assert IsDigit(d[i]); }
  }

  /** A mapped threshold is a number from 1 to 64, and the constructor reads it back. */
  lemma {:induction false} ThresholdIsSane(c: Clause, catalog: Catalog)
    requires c.topic == Thresholds && Classify(c, catalog).AsMapped?
    ensures var params := Classify(c, catalog).m.params;
            && |params| == 1 && params[0].0 == "threshold"
            && ParseU64(params[0].1).Some? && 1 <= ParseU64(params[0].1).value <= 64
            && ParseCount(RawOf(c)) == Some(ParseU64(params[0].1).value)
  {
    DecimalParses(ParseCount(RawOf(c)).value);
  }

  /** A roles clause never fails to type: what does not read as a count becomes 1. */
  lemma {:induction false} RolesFallBack(c: Clause, catalog: Catalog)
    requires c.topic == Roles && !(c.params != [] && IsWaiver(c.params[0].1))
    ensures Classify(c, catalog).AsMapped? <==> ByName(catalog, "SegregationOfDuties").Some?
    ensures Classify(c, catalog).AsMapped? ==>
              var params := Classify(c, catalog).m.params;
              |params| == 1 && ParseU64(params[0].1)
                               == Some(if ParseCount(RawOf(c)).Some? then ParseCount(RawOf(c)).value else 1)
  {
    DecimalParses(if ParseCount(RawOf(c)).Some? then ParseCount(RawOf(c)).value else 1);
  }

  /** Some token of the text reads as a number. */
  predicate HasNumber(tokens: seq<string>) {
    exists i | 0 <= i < |tokens| :: WordOrDigit(tokens[i]).Some?
  }

  /** Without an "N of M", any text about approving takes the first number in it, whatever
      it counts; a text that is not about approving gives none. */
  lemma {:induction false} CountIsTheFirstNumber(s: string)
    requires CountOf(Lower(s)).None?
    ensures ParseCount(s).Some? <==> AboutApproving(Lower(s)) && HasNumber(Words(Lower(s)))
  {
  }

  lemma {:induction false} FoundHolds(s: string, p: string, c: char)
    requires c in p && Find(s, p).Some?
    ensures c in s
  {
    var i := Find(s, p).value;
    var k :| 0 <= k < |p| && p[k] == c;
    assert s[i..i + |p|][k] == s[i + k];
  }

  lemma {:induction false} NotFound(s: string, p: string, c: char)
    requires c in p && c !in s
    ensures Find(s, p).None?
  {
    if Find(s, p).Some? { FoundHolds(s, p, c); }
  }

  predicate NoUpper(s: string) {
    forall i :: 0 <= i < |s| ==> !('A' <= s[i] <= 'Z')
  }

  lemma {:induction false} LowerIsDone(s: string)
    requires NoUpper(s)
    ensures Lower(s) == s
  {
  }

  lemma {:induction false} WordThen(w: string, rest: string)
    requires IsWord(w)
    ensures Words(w + " " + rest) == [w] + Words(rest)
  {
    WordBefore(w, ' ', rest);
  }

  lemma {:induction false} PlainWord(w: string)
    requires w != [] && IsAlphabetic(w[0]) && IsAlphabetic(w[|w| - 1])
    requires w !in ["one", "two", "three", "four", "five", "six"]
    ensures WordOrDigit(w).None?
  {
    assert TrimToAlphanumeric(w) == w;
    NotANumber(w);
  }

  lemma {:induction false} PlainNumber(n: nat)
    requires n <= 64
    ensures WordOrDigit(Decimal(n)) == Some(n)
  {
    var t := Decimal(n);
    assert IsDigit(t[0]) && IsDigit(t[|t| - 1]);
    assert TrimToAlphanumeric(t) == t;
    DecimalParses(n);
  }

  /** A sentence about a number of days. */
  function DaysSentence(n: nat): string {
    "approval" + " " + ("within" + " " + (Decimal(n) + " " + ("business" + " " + "days")))
  }

  lemma {:induction false} DaysSentenceIsPlain(n: nat)
    ensures NoUpper(DaysSentence(n)) && 'f' !in DaysSentence(n) && IsWord(Decimal(n))
  {
    var d := Decimal(n);
    forall i | 0 <= i < |d| ensures !('A' <= d[i] <= 'Z') && d[i] != 'f' && !IsSpace(d[i]) {
      assert IsDigit(d[i]);
    }
  }

  lemma {:induction false} LastWords(n: nat)
    requires IsWord(Decimal(n))
    ensures Words(Decimal(n) + " " + ("business" + " " + "days")) == [Decimal(n)] + ["business", "days"]
  {
    WordThen(Decimal(n), "business" + " " + "days");
    WordThen("business", "days");
    OneWord("days");
  }

  lemma {:induction false} DaysSentenceWords(n: nat)
    ensures Words(DaysSentence(n)) == ["approval", "within", Decimal(n)] + ["business", "days"]
  {
    DaysSentenceIsPlain(n);
    var middle := Decimal(n) + " " + ("business" + " " + "days");
    LastWords(n);
    WordThen("approval", "within" + " " + middle);
    WordThen("within", middle);
  }

  lemma {:induction false} ThirdIsFirst(a: string, b: string, c: string, rest: seq<string>)
    requires WordOrDigit(a).None? && WordOrDigit(b).None? && WordOrDigit(c).Some?
    ensures FirstCount([a, b, c] + rest) == WordOrDigit(c)
  {
    var all := [a, b, c] + rest;
    var two, one := [b, c] + rest, [c] + rest;
    assert all[1..] == two && two[1..] == one;
    assert FirstCount(one) == WordOrDigit(c);
    assert FirstCount(two) == FirstCount(one);
  }

  /** So a sentence about days is read as a threshold, whatever the number. */
  lemma {:induction false} DaysBecomeAThreshold(n: nat)
    requires n <= 64
    ensures ParseCount(DaysSentence(n)) == Some(n)
  {
    var s := DaysSentence(n);
    DaysSentenceIsPlain(n);
    LowerIsDone(s);
    assert " of "[2] == 'f';
    NotFound(s, " of ", 'f');
    assert s[..6] == "approv";
    DaysSentenceWords(n);
    PlainWord("approval");
    PlainWord("within");
    PlainNumber(n);
    ThirdIsFirst("approval", "within", Decimal(n), ["business", "days"]);
  }
}
