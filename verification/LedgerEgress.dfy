/** Egress control by the text of a classification: when the level's policy is enforced
    on an action, and an action it misses. */
module LedgerEgress {
  import opened Basics
  import opened Audit
  import opened Policy
  import opened Store
  import opened Files
  import opened Ledger
  import opened LedgerRecords
  import opened LedgerRuns

  predicate IsLevelName(s: string) {
    s == ClassificationStr(Public) || s == ClassificationStr(Proprietary) || s == ClassificationStr(Cui)
    || s == ClassificationStr(Itar)
  }

  /** Every controlled name of the policy is the name of a level. */
  predicate NamesLevels(p: EgressPolicy) {
    forall i :: 0 <= i < |p.controlled| ==> IsLevelName(p.controlled[i])
  }

  lemma {:induction false} DefaultNamesLevels()
    ensures NamesLevels(DEFAULT_EGRESS)
  {
  }

  lemma {:induction false} LevelNames(c: Classification, name: string)
    requires IsLevelName(name) && ClassificationFromStr(name) == Some(c)
    ensures name == ClassificationStr(c)
  {
    ClassificationRoundTrip(Public);
    ClassificationRoundTrip(Proprietary);
    ClassificationRoundTrip(Cui);
    ClassificationRoundTrip(Itar);
  }

  /** A level spelled in any other way than its own name is under no control at all. */
  lemma {:induction false} OtherSpellingsAreFree(p: EgressPolicy, text: string, c: Classification, model: string)
    requires NamesLevels(p) && ClassificationFromStr(text) == Some(c) && text != ClassificationStr(c)
    ensures p.Permits(text, model)
  {
    if text in p.controlled {
      var i :| 0 <= i < |p.controlled| && p.controlled[i] == text;
      LevelNames(c, text);
    }
  }

  /** The level's control reaches an input exactly when the input spells the level by its
      name, or the level is not controlled, or the model is permitted there. */
  lemma {:induction false} ControlIsByName(p: EgressPolicy, text: string, c: Classification, model: string)
    requires NamesLevels(p) && ClassificationFromStr(text) == Some(c)
    ensures (p.Permits(text, model) ==> p.Permits(ClassificationStr(c), model))
            <==> text == ClassificationStr(c) || ClassificationStr(c) !in p.controlled
                 || p.Permits(ClassificationStr(c), model)
  {
    if text != ClassificationStr(c) {
      OtherSpellingsAreFree(p, text, c, model);
    }
  }

  /** So a governed action is denied exactly when its level forbids the model if and only
      if the input spells the level by its name, or the model is permitted there anyway. */
  lemma {:induction false} DenialIsByName(l: Ledger, input: ActionInput, c: Classification, nowMs: I64)
    requires NamesLevels(l.egress) && ClassificationFromStr(input.classification) == Some(c)
    requires !NoneCovers(l, input, c, nowMs)
    ensures (Decide(l, input, c, nowMs).verdict == Deny
             <==> !l.egress.Permits(ClassificationStr(c), input.modelId))
            <==> input.classification == ClassificationStr(c)
                 || l.egress.Permits(ClassificationStr(c), input.modelId)
  {
    var k := VerdictMeans(l, input, c, nowMs);
    if input.classification != ClassificationStr(c) {
      OtherSpellingsAreFree(l.egress, input.classification, c, input.modelId);
    }
  }

  /** Under the policy every installation starts with, whatever model is named: a governed
      action is denied exactly when its level is one of the two controlled ones and is
      spelled by its name. */
  lemma {:induction false} DefaultDenial(l: Ledger, input: ActionInput, c: Classification, nowMs: I64)
    requires l.egress == DEFAULT_EGRESS && ClassificationFromStr(input.classification) == Some(c)
    requires !NoneCovers(l, input, c, nowMs)
    ensures Decide(l, input, c, nowMs).verdict == Deny
            <==> c in {Cui, Itar} && input.classification == ClassificationStr(c)
  {
    DefaultNamesLevels();
    ControlledNames(c);
    DenialIsByName(l, input, c, nowMs);
    if input.classification != ClassificationStr(c) {
      var k := VerdictMeans(l, input, c, nowMs);
      OtherSpellingsAreFree(DEFAULT_EGRESS, input.classification, c, input.modelId);
    }
  }

  lemma {:induction false} ControlledNames(c: Classification)
    ensures ClassificationStr(c) in DEFAULT_EGRESS.controlled <==> c in {Cui, Itar}
  {
    assert |"Public"| == 6 && |"Proprietary"| == 11 && |"CUI"| == 3 && |"ITAR"| == 4;
  }
}
