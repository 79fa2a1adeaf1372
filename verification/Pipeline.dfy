/** From a human's words to the contract: an interview answer, drafted, compiled, and
    encoded as constructor arguments. */
module Pipeline {
  import opened Basics
  import opened Interview
  import Spec
  import Compile
  import Ctor
  import opened AbiDecode
  import opened Calldata

  /** The parameters a deployment takes from a mapped clause. */
  function ParamsOf(m: Compile.Mapped): map<string, string> {
    map i | 0 <= i < |m.params| && forall j :: i < j < |m.params| ==> m.params[j].0 != m.params[i].0
      :: m.params[i].0 := m.params[i].1
  }

  lemma {:induction false} OneParam(m: Compile.Mapped)
    requires |m.params| == 1
    ensures ParamsOf(m) == map[m.params[0].0 := m.params[0].1]
  {
  }

  /** A threshold answer that maps reaches the contract as the number the words say: the
      arguments encode exactly when the people named can be bound and are that many, and
      the threshold word of the encoding is that number, from 1 to 64. */
  lemma {:induction false} ThresholdReachesTheContract(K: Keccak, n: nat, a: Answer, catalog: Compile.Catalog, ctx: Ctor.Context)
    requires Compile.Classify(Spec.ClauseOf(n, Thresholds, a), catalog).AsMapped?
    requires ctx.params == ParamsOf(Compile.Classify(Spec.ClauseOf(n, Thresholds, a), catalog).m)
    ensures var count := Compile.ParseCount(a.text);
            count.Some? && 1 <= count.value <= 64
            && (Ctor.Encoded(K, "ThresholdApproval", ctx).Ok?
                <==> Ctor.Seatable(K, ctx.principals) && count.value <= |ctx.principals| && ctx.envelopes.Some?)
            && (Ctor.Encoded(K, "ThresholdApproval", ctx).Ok?
                && |Ctor.Encoded(K, "ThresholdApproval", ctx).value| < TOP
                ==> WordU64(Ctor.Encoded(K, "ThresholdApproval", ctx).value, 7) == Some(count.value))
  {
    var c := Spec.ClauseOf(n, Thresholds, a);
    var m := Compile.Classify(c, catalog).m;
    Compile.ThresholdIsSane(c, catalog);
    OneParam(m);
    Ctor.ThresholdIsMeetable(K, ctx);
  }

  /** A roles answer always maps once its template is registered, but what it maps to
      encodes only when its number, or 1 where the words hold none, is not zero and
      leaves a proposer beside the approvers. */
  lemma {:induction false} RolesReachTheContract(K: Keccak, n: nat, a: Answer, catalog: Compile.Catalog, ctx: Ctor.Context)
    requires Compile.Classify(Spec.ClauseOf(n, Roles, a), catalog).AsMapped?
    requires ctx.params == ParamsOf(Compile.Classify(Spec.ClauseOf(n, Roles, a), catalog).m)
    ensures var count := if Compile.ParseCount(a.text).Some? then Compile.ParseCount(a.text).value else 1;
            Ctor.Encoded(K, "SegregationOfDuties", ctx).Ok?
            <==> count >= 1 && Ctor.Seatable(K, ctx.principals) && count < |ctx.principals| && ctx.envelopes.Some?
  {
    var c := Spec.ClauseOf(n, Roles, a);
    var m := Compile.Classify(c, catalog).m;
    Compile.RolesFallBack(c, catalog);
    OneParam(m);
    Ctor.RosterIsMeetable(K, ctx);
  }
}
