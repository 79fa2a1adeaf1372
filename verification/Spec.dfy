/** Drafting: clauses from an interview's answers, and proposals from documents. */
module Spec {
  import opened Basics
  import opened Interview
  import opened Text
  import Chunks
  import Utf8

  datatype Provenance =
    | FromInterview(topic: Topic, by_: string)
    | ConfirmedFrom(topic: Topic, by_: string, from: string)

  /** `params` in key order. */
  datatype Clause = Clause(n: string, topic: Topic, en: string, params: seq<(string, string)>, provenance: Provenance)

  function ParamKey(t: Topic): string {
    match t
    case Scope => "action_classes"
    case Principals => "principals"
    case Roles => "roles"
    case Thresholds => "threshold"
    case Escalation => "escalation"
    case Expiry => "expires"
    case Exceptions => "exceptions"
  }

  function ProseLead(t: Topic): string {
    match t
    case Scope => "This policy governs"
    case Principals => "Accountable principals are"
    case Roles => "Approval and execution roles are"
    case Thresholds => "Approval thresholds are"
    case Escalation => "Refusals and timeouts escalate to"
    case Expiry => "This authority lapses"
    case Exceptions => "Explicitly excluded:"
  }

  // ---- drafting ---------------------------------------------------------

  function ClauseOf(n: nat, topic: Topic, a: Answer): Clause {
    Clause(Decimal(n), topic, ProseLead(topic) + " " + a.text, [(ParamKey(topic), a.text)],
           match a.source
           case Human => FromInterview(topic, a.by_)
           case ConfirmedProposal(from) => ConfirmedFrom(topic, a.by_, from))
  }

  /** The answered turns, in order. */
  function Answered(turns: seq<Turn>): (r: seq<Turn>)
    ensures forall i :: 0 <= i < |r| ==> r[i] in turns && r[i].answer.Some?
    ensures forall t :: t in turns && t.answer.Some? ==> t in r
  {
    if turns == [] then []
    else
      var n := |turns| - 1;
      Answered(turns[..n]) + (if turns[n].answer.Some? then [turns[n]] else [])
  }

  /** One clause per answered turn, numbered from 1. */
  predicate Drafts(turns: seq<Turn>, clauses: seq<Clause>) {
    && |clauses| == |Answered(turns)|
    && forall i :: 0 <= i < |clauses| ==>
         clauses[i] == ClauseOf(i + 1, Answered(turns)[i].topic, Answered(turns)[i].answer.value)
  }

  /** What a clause is, by its topic: the words its prose opens with, and its parameter. */
  predicate Phrased(t: Topic, lead: string, key: string) {
    (t, lead, key) in {(Scope, "This policy governs", "action_classes"),
                       (Principals, "Accountable principals are", "principals"),
                       (Roles, "Approval and execution roles are", "roles"),
                       (Thresholds, "Approval thresholds are", "threshold"),
                       (Escalation, "Refusals and timeouts escalate to", "escalation"),
                       (Expiry, "This authority lapses", "expires"),
                       (Exceptions, "Explicitly excluded:", "exceptions")}
  }

  /** The i-th clause of a draft, field by field: numbered from 1, on the i-th answered
      topic, in that answer's words, by its author, and from where they were confirmed. */
  lemma {:induction false} DraftOnFields(turns: seq<Turn>, clauses: seq<Clause>, i: nat) returns (lead: string, key: string)
    requires Drafts(turns, clauses) && i < |clauses|
    ensures var c, turn := clauses[i], Answered(turns)[i];
            && turn.answer.Some? && Phrased(turn.topic, lead, key)
            && c.n == Decimal(i + 1) && c.topic == turn.topic && c.en == lead + " " + turn.answer.value.text
            && c.params == [(key, turn.answer.value.text)]
            && c.provenance.topic == turn.topic && c.provenance.by_ == turn.answer.value.by_
            && (match turn.answer.value.source
                case Human => c.provenance.FromInterview?
                case ConfirmedProposal(from) => c.provenance.ConfirmedFrom? && c.provenance.from == from)
  {
    var turn := Answered(turns)[i];
    lead, key := ProseLead(turn.topic), ParamKey(turn.topic);
    assert clauses[i] == ClauseOf(i + 1, turn.topic, turn.answer.value);
  }

  lemma {:induction false} AnsweredPush(turns: seq<Turn>, turn: Turn)
    ensures Answered(turns + [turn]) == Answered(turns) + (if turn.answer.Some? then [turn] else [])
  {
    assert (turns + [turn])[..|turns|] == turns;
  }

  lemma {:induction false} DraftsSkip(turns: seq<Turn>, turn: Turn, clauses: seq<Clause>)
    requires Drafts(turns, clauses) && turn.answer.None?
    ensures Drafts(turns + [turn], clauses)
  {
    AnsweredPush(turns, turn);
    assert Answered(turns) + [] == Answered(turns);
  }

  lemma {:induction false} DraftsAdd(turns: seq<Turn>, turn: Turn, clauses: seq<Clause>, c: Clause)
    requires Drafts(turns, clauses) && turn.answer.Some?
    requires c == ClauseOf(|clauses| + 1, turn.topic, turn.answer.value)
    ensures Drafts(turns + [turn], clauses + [c])
  {
    AnsweredPush(turns, turn);
    var before, all, more := Answered(turns), Answered(turns + [turn]), clauses + [c];
    assert all == before + [turn];
    forall i | 0 <= i < |more| ensures more[i] == ClauseOf(i + 1, all[i].topic, all[i].answer.value) {
      if i < |clauses| {
        assert more[i] == clauses[i] && all[i] == before[i];
      }
    }
  }

  method Draft(turns: seq<Turn>) returns (clauses: seq<Clause>)
    ensures Drafts(turns, clauses)
  {
    clauses := [];
    for i := 0 to |turns|
      invariant Drafts(turns[..i], clauses)
    {
      ghost var before := turns[..i];
      assert turns[..i + 1] == before + [turns[i]];
      if turns[i].answer.Some? {
        var a := turns[i].answer.value;
        var n := Decimal(|clauses| + 1);
        var c := Clause(n, turns[i].topic, ProseLead(turns[i].topic) + " " + a.text,
                        [(ParamKey(turns[i].topic), a.text)],
                        match a.source
                        case Human => FromInterview(turns[i].topic, a.by_)
                        case ConfirmedProposal(from) => ConfirmedFrom(turns[i].topic, a.by_, from));
        DraftsAdd(before, turns[i], clauses, c);
        clauses := clauses + [c];
      } else {
        DraftsSkip(before, turns[i], clauses);
      }
    }
    assert turns[..|turns|] == turns;
  }

  lemma {:induction false} AnsweredAndOpen(turns: seq<Turn>)
    ensures |Answered(turns)| + |Outstanding(turns)| == |turns|
  {
    if turns != [] {
      AnsweredAndOpen(turns[..|turns| - 1]);
    }
  }

  lemma {:induction false} AnsweredKeepsTopicsApart(turns: seq<Turn>, i: nat, j: nat)
    requires DistinctTopics(turns) && i < j < |Answered(turns)|
    ensures Answered(turns)[i].topic != Answered(turns)[j].topic
  {
    var n := |turns| - 1;
    var before := Answered(turns[..n]);
    if j < |before| {
      AnsweredKeepsTopicsApart(turns[..n], i, j);
    } else {
      assert before[i] in turns[..n];
      var k :| 0 <= k < n && turns[k] == before[i];
    }
  }

  lemma {:induction false} RunKeepsTopics(s: State, steps: seq<Step>)
    ensures |Run(s, steps).turns| == |s.turns|
    ensures forall i :: 0 <= i < |s.turns| ==> Run(s, steps).turns[i].topic == s.turns[i].topic
  {
    HistoriesGrow(s, steps);
  }

  lemma {:induction false} SevenTopics(steps: seq<Step>)
    ensures |Run(Fresh(), steps).turns| == 7 && DistinctTopics(Run(Fresh(), steps).turns)
  {
    RunKeepsTopics(Fresh(), steps);
    assert forall i, j :: 0 <= i < j < 7 ==> TOPICS[i] != TOPICS[j];
  }

  /** A finished interview, however it got there, drafts into exactly one clause for each
      of the seven topics, no topic twice, and an unfinished one into fewer. */
  lemma {:induction false} CompleteMeansSeven(steps: seq<Step>, clauses: seq<Clause>)
    requires Drafts(Run(Fresh(), steps).turns, clauses)
    ensures Pending(Run(Fresh(), steps)).None? <==> |clauses| == 7
    ensures forall i, j :: 0 <= i < j < |clauses| ==> clauses[i].topic != clauses[j].topic
  {
    var turns := Run(Fresh(), steps).turns;
    SevenTopics(steps);
    AnsweredAndOpen(turns);
    NothingOutstanding(turns);
    forall i, j | 0 <= i < j < |clauses| ensures clauses[i].topic != clauses[j].topic {
      AnsweredKeepsTopicsApart(turns, i, j);
    }
  }

  lemma {:induction false} NothingOutstanding(turns: seq<Turn>)
    ensures Outstanding(turns) == [] <==> forall k :: 0 <= k < |turns| ==> turns[k].answer.Some?
  {
    if turns == [] {
    } else {
      var before := turns[..|turns| - 1];
      NothingOutstanding(before);
      forall k | 0 <= k < |turns| - 1 ensures before[k] == turns[k] {
      }
    }
  }

  // ---- proposals from documents -----------------------------------------

  /** Split at every full stop and newline. */
  function Sentences(text: string): (r: seq<string>)
    ensures r != []
  {
    if text == [] then [""]
    else
      var rest := Sentences(text[1..]);
      if text[0] == '.' || text[0] == '\n' then [""] + rest else [[text[0]] + rest[0]] + rest[1..]
  }

  /** The topic a sentence looks to be about; the first rule that fits decides. */
  function TopicOf(sentence: string): Option<Topic> {
    var l := Lower(sentence);
    if Contains(l, "approv") && (Contains(l, "two") || Contains(l, "2") || Contains(l, "of")) then Some(Thresholds)
    else if Contains(l, "escalat") then Some(Escalation)
    else if Contains(l, "expire") || Contains(l, "lapse") || Contains(l, "valid until") then Some(Expiry)
    else if Contains(l, "except") || Contains(l, "exclud") then Some(Exceptions)
    else None
  }

  function CandidateOf(sentence: string): Option<(Topic, string)> {
    var s := Trim(sentence);
    if s == [] || |Utf8.Encode(s)| > 240 then None
    else match TopicOf(s)
      case None => None
      case Some(t) => Some((t, s))
  }

  /** The sentence speaks of one of these, in any case. */
  ghost predicate Speaks(s: string, words: set<string>) {
    exists w | w in words :: Holds(Lower(s), w)
  }

  /** What a candidate is: a sentence, trimmed, not empty and at most 240 bytes long, on the
      first topic of these it speaks of: approving by some number, escalating, expiring, or
      excepting. */
  lemma {:induction false} CandidateMeans(sentence: string, t: Topic, text: string)
    ensures CandidateOf(sentence) == Some((t, text))
            <==> text == Trim(sentence) && text != "" && |Utf8.Encode(text)| <= 240
                 && var thresholds := Speaks(text, {"approv"}) && Speaks(text, {"two", "2", "of"});
                    var escalation, expiry := Speaks(text, {"escalat"}), Speaks(text, {"expire", "lapse", "valid until"});
                    match t
                    case Thresholds => thresholds
                    case Escalation => !thresholds && escalation
                    case Expiry => !thresholds && !escalation && expiry
                    case Exceptions => !thresholds && !escalation && !expiry && Speaks(text, {"except", "exclud"})
                    case _ => false
  {
    var l := Lower(Trim(sentence));
    SpeaksOne(Trim(sentence), "approv");
    SpeaksThree(Trim(sentence), "two", "2", "of");
    SpeaksOne(Trim(sentence), "escalat");
    SpeaksThree(Trim(sentence), "expire", "lapse", "valid until");
    SpeaksThree(Trim(sentence), "except", "exclud", "exclud");
    assert {"except", "exclud", "exclud"} == {"except", "exclud"};
  }

  lemma {:induction false} SpeaksOne(s: string, w: string)
    ensures Speaks(s, {w}) <==> Contains(Lower(s), w)
  {
    ContainsIs(Lower(s), w);
    if Contains(Lower(s), w) {
      assert w in {w} && Holds(Lower(s), w);
    }
  }

  lemma {:induction false} SpeaksThree(s: string, x: string, y: string, z: string)
    ensures Speaks(s, {x, y, z}) <==> Contains(Lower(s), x) || Contains(Lower(s), y) || Contains(Lower(s), z)
  {
    ContainsIs(Lower(s), x);
    ContainsIs(Lower(s), y);
    ContainsIs(Lower(s), z);
    assert x in {x, y, z} && y in {x, y, z} && z in {x, y, z};
  }

  predicate IsStop(c: char) {
    c == '.' || c == '\n'
  }

  /** The sentences of a text are what stands between its full stops and newlines: none
      holds one, and put back together with them they are the text. */
  lemma {:induction false} SentencesMeans(text: string) returns (stops: string)
    ensures forall i :: 0 <= i < |Sentences(text)| ==> forall c :: c in Sentences(text)[i] ==> !IsStop(c)
    ensures forall i :: 0 <= i < |stops| ==> IsStop(stops[i])
    ensures |Sentences(text)| == |stops| + 1 && Rejoined(Sentences(text), stops) == text
  {
    if text == [] {
      stops := [];
    } else {
      var rest := Sentences(text[1..]);
      var after := SentencesMeans(text[1..]);
      assert text == [text[0]] + text[1..];
      if IsStop(text[0]) {
        stops := [text[0]] + after;
        var all := [""] + rest;
        assert Sentences(text) == all && all[1..] == rest && stops[1..] == after;
      } else {
        stops := after;
        var all := [[text[0]] + rest[0]] + rest[1..];
        assert Sentences(text) == all && all[1..] == rest[1..];
        forall i, c | 0 <= i < |all| && c in all[i] ensures !IsStop(c) {
          if i > 0 { assert all[i] == rest[i]; }
        }
      }
    }
  }

  function CandidatesOf(sentences: seq<string>): seq<(Topic, string)> {
    if sentences == [] then []
    else
      var n := |sentences| - 1;
      CandidatesOf(sentences[..n])
      + (match CandidateOf(sentences[n]) case None => [] case Some(c) => [c])
  }

  lemma {:induction false} OneMoreSentence(sentences: seq<string>, i: nat)
    requires i < |sentences|
    ensures CandidatesOf(sentences[..i + 1])
            == CandidatesOf(sentences[..i])
               + (match CandidateOf(sentences[i]) case None => [] case Some(c) => [c])
  {
    var k := i + 1;
    assert sentences[..k][..i] == sentences[..i];
  }

  method Candidates(text: string) returns (out: seq<(Topic, string)>)
    ensures out == CandidatesOf(Sentences(text))
  {
    var sentences := Sentences(text);
    out := [];
    for i := 0 to |sentences|
      invariant out == CandidatesOf(sentences[..i])
    {
      OneMoreSentence(sentences, i);
      var s := Trim(sentences[i]);
      if s != [] && |Utf8.Encode(s)| <= 240 {
        var topic := TopicOf(s);
        if topic.Some? {
          out := out + [(topic.value, s)];
        }
      }
    }
    assert sentences[..|sentences|] == sentences;
  }

  datatype Document = Document(name: string, chunks: seq<Chunks.Chunk>)

  /** Where a chunk's candidates come from. */
  function ChunkPlace(f: Document, c: Chunks.Chunk): string {
    f.name + "#chunk-" + Decimal(c.ordinal)
  }

  function Offers(cands: seq<(Topic, string)>, from: string): (ps: seq<Proposal>)
    ensures |ps| == |cands|
  {
    seq(|cands|, i requires 0 <= i < |cands| => Proposal(cands[i].0, cands[i].1, from))
  }

  /** An extractor of candidates: nothing below depends on what it finds. */
  type Extractor = string -> seq<(Topic, string)>

  function ChunkOffers(x: Extractor, f: Document, c: Chunks.Chunk): seq<Proposal> {
    Offers(x(c.text), ChunkPlace(f, c))
  }

  /** Each offer is a candidate's words, and names the document and the chunk. */
  lemma {:induction false} OfferOnFields(x: Extractor, f: Document, c: Chunks.Chunk, i: nat)
    requires i < |x(c.text)|
    ensures |ChunkOffers(x, f, c)| == |x(c.text)|
    ensures var p := ChunkOffers(x, f, c)[i];
            p.topic == x(c.text)[i].0 && p.text == x(c.text)[i].1 && p.from == f.name + "#chunk-" + Decimal(c.ordinal)
  {
  }

  /** Everything the first `n` chunks of a document offer, in reading order. */
  function DocumentOffers(x: Extractor, f: Document, n: nat): seq<Proposal>
    requires n <= |f.chunks|
  {
    if n == 0 then [] else DocumentOffers(x, f, n - 1) + ChunkOffers(x, f, f.chunks[n - 1])
  }

  function AllOffers(x: Extractor, files: seq<Document>): seq<Proposal> {
    if files == [] then []
    else
      var n := |files| - 1;
      AllOffers(x, files[..n]) + DocumentOffers(x, files[n], |files[n].chunks|)
  }

  /** Take up an offer unless its topic already has a proposal. */
  function TakeUp(ps: seq<Proposal>, p: Proposal): seq<Proposal> {
    if ProposalFor(ps, p.topic).Some? then ps else ps + [p]
  }

  function TakeAll(ps: seq<Proposal>, offers: seq<Proposal>): seq<Proposal> {
    if offers == [] then ps else TakeUp(TakeAll(ps, offers[..|offers| - 1]), offers[|offers| - 1])
  }

  lemma {:induction false} TakeConcat(ps: seq<Proposal>, a: seq<Proposal>, b: seq<Proposal>)
    ensures TakeAll(ps, a + b) == TakeAll(TakeAll(ps, a), b)
    decreases |b|
  {
    if b == [] {
      assert a + b == a;
    } else {
      var c, x := b[..|b| - 1], b[|b| - 1];
      TakeConcat(ps, a, c);
      assert (a + b)[..|a + b| - 1] == a + c && (a + b)[|a + b| - 1] == x;
    }
  }

  lemma {:induction false} NothingToRemove(ps: seq<Proposal>, topic: Topic)
    requires ProposalFor(ps, topic).None?
    ensures OnOtherTopics(ps, topic) == ps
  {
    if ps != [] {
      var before, p := ps[..|ps| - 1], ps[|ps| - 1];
      assert before + [p] == ps;
      LastProposal(before, p, topic);
      NothingToRemove(before, topic);
    }
  }

  method ProposeFromChunk(interview: Interview, x: Extractor, f: Document, c: Chunks.Chunk)
    modifies interview`proposals
    ensures interview.proposals == TakeAll(old(interview.proposals), ChunkOffers(x, f, c))
  {
    var from := ChunkPlace(f, c);
    var cands := x(c.text);
    ghost var offers := Offers(cands, from);
    ghost var was := interview.proposals;
    for i := 0 to |cands|
      invariant interview.proposals == TakeAll(was, offers[..i])
    {
      assert offers[..i + 1][..i] == offers[..i];
      var (topic, sentence) := cands[i];
      if ProposalFor(interview.proposals, topic).None? {
        NothingToRemove(interview.proposals, topic);
        interview.Propose(topic, sentence, from);
      }
    }
    assert offers[..|offers|] == offers;
  }

  method ProposeFromDocument(interview: Interview, x: Extractor, f: Document)
    modifies interview`proposals
    ensures interview.proposals == TakeAll(old(interview.proposals), DocumentOffers(x, f, |f.chunks|))
  {
    ghost var was := interview.proposals;
    for j := 0 to |f.chunks|
      invariant interview.proposals == TakeAll(was, DocumentOffers(x, f, j))
    {
      TakeConcat(was, DocumentOffers(x, f, j), ChunkOffers(x, f, f.chunks[j]));
      ProposeFromChunk(interview, x, f, f.chunks[j]);
    }
  }

  /** `propose_from_documents`, with any extractor in the place of `CandidatesOf`. */
  method ProposeFromDocuments(interview: Interview, x: Extractor, files: seq<Document>)
    modifies interview`proposals
    ensures interview.proposals == TakeAll(old(interview.proposals), AllOffers(x, files))
  {
    ghost var was := interview.proposals;
    for i := 0 to |files|
      invariant interview.proposals == TakeAll(was, AllOffers(x, files[..i]))
    {
      OneMoreFile(x, files, i);
      TakeConcat(was, AllOffers(x, files[..i]), DocumentOffers(x, files[i], |files[i].chunks|));
      ProposeFromDocument(interview, x, files[i]);
    }
    assert files[..|files|] == files;
  }

  lemma {:induction false} OneMoreFile(x: Extractor, files: seq<Document>, i: nat)
    requires i < |files|
    ensures AllOffers(x, files[..i + 1]) == AllOffers(x, files[..i]) + DocumentOffers(x, files[i], |files[i].chunks|)
  {
    var k := i + 1;
    assert files[..k][..i] == files[..i];
  }

  /** A topic's proposal is the one it had, or else the first offer on it: a later
      document never replaces an earlier one. */
  lemma {:induction false} FirstOfferWins(ps: seq<Proposal>, offers: seq<Proposal>, t: Topic)
    ensures ProposalFor(TakeAll(ps, offers), t)
            == if ProposalFor(ps, t).Some? then ProposalFor(ps, t) else ProposalFor(offers, t)
  {
    if offers != [] {
      var before, p := offers[..|offers| - 1], offers[|offers| - 1];
      FirstOfferWins(ps, before, t);
      assert before + [p] == offers;
      LastProposal(before, p, t);
      LastProposal(TakeAll(ps, before), p, t);
    }
  }

  /** Reading the same documents again changes nothing. */
  lemma {:induction false} ReadingAgainIsIdle(ps: seq<Proposal>, offers: seq<Proposal>)
    requires forall p :: p in offers ==> ProposalFor(ps, p.topic).Some?
    ensures TakeAll(ps, offers) == ps
  {
    if offers != [] {
      var before, p := offers[..|offers| - 1], offers[|offers| - 1];
      ReadingAgainIsIdle(ps, before);
      assert p in offers;
    }
  }

  lemma {:induction false} TakenIsIdempotent(ps: seq<Proposal>, offers: seq<Proposal>)
    ensures TakeAll(TakeAll(ps, offers), offers) == TakeAll(ps, offers)
  {
    forall p | p in offers ensures ProposalFor(TakeAll(ps, offers), p.topic).Some? {
      FirstOfferWins(ps, offers, p.topic);
    }
    ReadingAgainIsIdle(TakeAll(ps, offers), offers);
  }
}
