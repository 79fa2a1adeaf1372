/** The interview: seven questions, attributed answers, and proposals that are never
    answers. */
module Interview {
  import opened Basics

  datatype Topic = Scope | Principals | Roles | Thresholds | Escalation | Expiry | Exceptions

  const TOPICS: seq<Topic> := [Scope, Principals, Roles, Thresholds, Escalation, Expiry, Exceptions]

  datatype Source = Human | ConfirmedProposal(from: string)

  datatype Answer = Answer(text: string, by_: string, atMs: I64, source: Source)

  datatype Proposal = Proposal(topic: Topic, text: string, from: string)

  datatype Turn = Turn(topic: Topic, answer: Option<Answer>, superseded: seq<Answer>)
  {
    /** Every answer the topic ever had, oldest first, the standing one last. */
    function History(): seq<Answer> {
      superseded + (if answer.Some? then [answer.value] else [])
    }
  }

  datatype InterviewError = Unattributed | EmptyAnswer | NoSuchProposal(topic: Topic) | AlreadyAnswered(topic: Topic)

  /** What an interview holds. */
  datatype State = State(turns: seq<Turn>, proposals: seq<Proposal>)

  // ---- reading ----------------------------------------------------------

  function FirstOpen(turns: seq<Turn>): (r: Option<nat>)
    ensures r.Some? ==> r.value < |turns| && turns[r.value].answer.None?
                        && forall k :: 0 <= k < r.value ==> turns[k].answer.Some?
    ensures r.None? ==> forall k :: 0 <= k < |turns| ==> turns[k].answer.Some?
  {
    if turns == [] then None
    else if turns[0].answer.None? then Some(0)
    else match FirstOpen(turns[1..])
      case None => assert forall k :: 0 < k < |turns| ==> turns[k] == turns[1..][k - 1]; None
      case Some(k) => Some(k + 1)
  }

  /** `pending`. */
  function Pending(s: State): Option<Topic> {
    match FirstOpen(s.turns)
    case None => None
    case Some(k) => Some(s.turns[k].topic)
  }

  /** `outstanding`: the topics without a human answer, in order. */
  function Outstanding(turns: seq<Turn>): seq<Topic> {
    if turns == [] then []
    else
      var n := |turns| - 1;
      Outstanding(turns[..n]) + (if turns[n].answer.None? then [turns[n].topic] else [])
  }

  function FindTurn(turns: seq<Turn>, topic: Topic): (r: Option<nat>)
    ensures r.Some? ==> r.value < |turns| && turns[r.value].topic == topic
                        && forall k :: 0 <= k < r.value ==> turns[k].topic != topic
    ensures r.None? ==> forall k :: 0 <= k < |turns| ==> turns[k].topic != topic
  {
    if turns == [] then None
    else if turns[0].topic == topic then Some(0)
    else match FindTurn(turns[1..], topic)
      case None => assert forall k :: 0 < k < |turns| ==> turns[k] == turns[1..][k - 1]; None
      case Some(k) => Some(k + 1)
  }

  /** `proposal_for`: the first proposal on the topic. */
  function ProposalFor(ps: seq<Proposal>, topic: Topic): (r: Option<Proposal>)
    ensures r.Some? ==> r.value in ps && r.value.topic == topic
    ensures r.None? ==> forall p :: p in ps ==> p.topic != topic
  {
    if ps == [] then None
    else if ps[0].topic == topic then Some(ps[0])
    else ProposalFor(ps[1..], topic)
  }

  function OnOtherTopics(ps: seq<Proposal>, topic: Topic): (r: seq<Proposal>)
    ensures forall p :: p in r <==> p in ps && p.topic != topic
  {
    if ps == [] then []
    else
      var n := |ps| - 1;
      OnOtherTopics(ps[..n], topic) + (if ps[n].topic != topic then [ps[n]] else [])
  }

  // ---- changing ---------------------------------------------------------

  /** `record`: supersede rather than refuse. */
  function Record(s: State, topic: Topic, text: string, who: string, atMs: I64, source: Source)
    : (State, Result<(), InterviewError>)
  {
    if Blank(who) then (s, Err(Unattributed))
    else if Blank(text) then (s, Err(EmptyAnswer))
    else match FindTurn(s.turns, topic)
      case None => (s, Err(AlreadyAnswered(topic)))
      case Some(k) =>
        var turn := Turn(topic, Some(Answer(Trim(text), who, atMs, source)), s.turns[k].History());
        (s.(turns := s.turns[k := turn]), Ok(()))
  }

  datatype Step =
    | ProposeStep(topic: Topic, text: string, from: string)
    | AnswerStep(text: string, who: string, atMs: I64)
    | ReviseStep(topic: Topic, text: string, who: string, atMs: I64)
    | ConfirmStep(who: string, atMs: I64)

  function Apply(s: State, step: Step): (State, Result<(), InterviewError>) {
    match step
    case ProposeStep(topic, text, from) =>
      (s.(proposals := OnOtherTopics(s.proposals, topic) + [Proposal(topic, text, from)]), Ok(()))
    case AnswerStep(text, who, atMs) =>
      (match Pending(s)
       case None => (s, Err(AlreadyAnswered(Scope)))
       case Some(topic) => Record(s, topic, text, who, atMs, Human))
    case ReviseStep(topic, text, who, atMs) => Record(s, topic, text, who, atMs, Human)
    case ConfirmStep(who, atMs) =>
      (match Pending(s)
       case None => (s, Err(AlreadyAnswered(Scope)))
       case Some(topic) =>
         match ProposalFor(s.proposals, topic)
         case None => (s, Err(NoSuchProposal(topic)))
         case Some(p) => Record(s, topic, p.text, who, atMs, ConfirmedProposal(p.from)))
  }

  class Interview {
    var turns: seq<Turn>
    var proposals: seq<Proposal>

    constructor ()
      ensures Contents() == Fresh()
    {
      turns := seq(|TOPICS|, i requires 0 <= i < |TOPICS| => Turn(TOPICS[i], None, []));
      proposals := [];
    }

    function Contents(): State
      reads this
    {
      State(turns, proposals)
    }

    /** Attach a value read from a document. Does not answer the topic. */
    method Propose(topic: Topic, text: string, from: string)
      modifies this`proposals
      ensures Contents() == Apply(old(Contents()), ProposeStep(topic, text, from)).0
    {
      proposals := OnOtherTopics(proposals, topic);
      proposals := proposals + [Proposal(topic, text, from)];
    }

    method RecordAnswer(topic: Topic, text: string, who: string, atMs: I64, source: Source)
      returns (r: Result<(), InterviewError>)
      modifies this`turns
      ensures (Contents(), r) == Record(old(Contents()), topic, text, who, atMs, source)
    {
      if Blank(who) { return Err(Unattributed); }
      if Blank(text) { return Err(EmptyAnswer); }
      var k := FindTurn(turns, topic);
      if k.None? { return Err(AlreadyAnswered(topic)); }
      var turn := turns[k.value];
      if turn.answer.Some? {
        turn := turn.(superseded := turn.superseded + [turn.answer.value], answer := None);
      } else {
        assert turn.superseded + [] == turn.superseded;
      }
      turn := turn.(answer := Some(Answer(Trim(text), who, atMs, source)));
      turns := turns[k.value := turn];
      r := Ok(());
    }

    method AnswerNext(text: string, who: string, atMs: I64) returns (r: Result<(), InterviewError>)
      modifies this`turns
      ensures (Contents(), r) == Apply(old(Contents()), AnswerStep(text, who, atMs))
    {
      var topic := Pending(Contents());
      if topic.None? { return Err(AlreadyAnswered(Scope)); }
      r := RecordAnswer(topic.value, text, who, atMs, Human);
    }

    method Revise(topic: Topic, text: string, who: string, atMs: I64) returns (r: Result<(), InterviewError>)
      modifies this`turns
      ensures (Contents(), r) == Apply(old(Contents()), ReviseStep(topic, text, who, atMs))
    {
      r := RecordAnswer(topic, text, who, atMs, Human);
    }

    method ConfirmProposal(who: string, atMs: I64) returns (r: Result<(), InterviewError>)
      modifies this`turns
      ensures (Contents(), r) == Apply(old(Contents()), ConfirmStep(who, atMs))
    {
      var topic := Pending(Contents());
      if topic.None? { return Err(AlreadyAnswered(Scope)); }
      var p := ProposalFor(proposals, topic.value);
      if p.None? { return Err(NoSuchProposal(topic.value)); }
      r := RecordAnswer(topic.value, p.value.text, who, atMs, ConfirmedProposal(p.value.from));
    }
  }

  /** A new interview: every topic once, nothing answered, nothing proposed. */
  function Fresh(): State {
    State(seq(|TOPICS|, i requires 0 <= i < |TOPICS| => Turn(TOPICS[i], None, [])), [])
  }

  /** The seven questions, in the order they are asked. */
  lemma {:induction false} FreshAsks()
    ensures Outstanding(Fresh().turns) == [Scope, Principals, Roles, Thresholds, Escalation, Expiry, Exceptions]
    ensures Pending(Fresh()) == Some(Scope) && Fresh().proposals == []
    ensures forall i :: 0 <= i < |Fresh().turns| ==> Fresh().turns[i].History() == []
  {
    AllOpen(Fresh().turns);
  }

  lemma {:induction false} AllOpen(turns: seq<Turn>)
    requires forall i :: 0 <= i < |turns| ==> turns[i].answer.None?
    ensures |Outstanding(turns)| == |turns|
    ensures forall i :: 0 <= i < |turns| ==> Outstanding(turns)[i] == turns[i].topic
  {
    if turns != [] {
      AllOpen(turns[..|turns| - 1]);
    }
  }

  function Run(s: State, steps: seq<Step>): State {
    if steps == [] then s else Apply(Run(s, steps[..|steps| - 1]), steps[|steps| - 1]).0
  }

  /** How many steps of a run recorded an answer. */
  function Recorded(s: State, steps: seq<Step>): nat {
    if steps == [] then 0
    else
      var n := |steps| - 1;
      Recorded(s, steps[..n])
      + (if !steps[n].ProposeStep? && Apply(Run(s, steps[..n]), steps[n]).1.Ok? then 1 else 0)
  }

  // ---- what one step does -----------------------------------------------

  /** The last answer of turn `k` is new; nothing else of any turn moved. */
  predicate Extends(s: State, t: State, k: nat, a: Answer) {
    && k < |s.turns| && |t.turns| == |s.turns| && t.proposals == s.proposals
    && t.turns[k].topic == s.turns[k].topic && t.turns[k].answer == Some(a)
    && t.turns[k].History() == s.turns[k].History() + [a]
    && forall i :: 0 <= i < |s.turns| && i != k ==> t.turns[i] == s.turns[i]
  }

  /** Who may have written what: a named person, not blank, in their own words or in the
      words of a proposal on that very topic. */
  predicate Attributed(s: State, topic: Topic, a: Answer) {
    && !Blank(a.by_) && !Blank(a.text)
    && (a.source.ConfirmedProposal? ==>
          exists p | p in s.proposals :: p.topic == topic && a.text == Trim(p.text) && a.source.from == p.from)
  }

  lemma {:induction false} TrimStartStays(s: string)
    ensures TrimStart(TrimStart(s)) == TrimStart(s)
    ensures TrimStart(s) != [] ==> !IsSpace(TrimStart(s)[0])
    decreases |s|
  {
    if s != [] && IsSpace(s[0]) {
      TrimStartStays(s[1..]);
    }
  }

  lemma {:induction false} TrimEndKeepsStart(s: string)
    requires s != [] && !IsSpace(s[0])
    ensures TrimEnd(s) != [] && !IsSpace(TrimEnd(s)[0]) && !IsSpace(TrimEnd(s)[|TrimEnd(s)| - 1])
    decreases |s|
  {
    if IsSpace(s[|s| - 1]) {
      TrimEndKeepsStart(s[..|s| - 1]);
    }
  }

  /** Trimming twice is trimming once. */
  lemma {:induction false} TrimIsDone(s: string)
    ensures Trim(Trim(s)) == Trim(s)
  {
    TrimStartStays(s);
    if TrimStart(s) != [] {
      TrimEndKeepsStart(TrimStart(s));
    }
  }

  /** The answer a step gives when it is recorded on this topic. */
  predicate GivenBy(s: State, step: Step, topic: Topic, a: Answer) {
    match step
    case ProposeStep(_, _, _) => false
    case AnswerStep(text, who, atMs) => a == Answer(Trim(text), who, atMs, Human)
    case ReviseStep(t, text, who, atMs) => t == topic && a == Answer(Trim(text), who, atMs, Human)
    case ConfirmStep(who, atMs) =>
      ProposalFor(s.proposals, topic).Some?
      && var p := ProposalFor(s.proposals, topic).value;
         a == Answer(Trim(p.text), who, atMs, ConfirmedProposal(p.from))
  }

  /** A step that records an answer adds it, attributed, at the end of one topic's
      history; any other step, failed ones included, leaves every turn as it was. */
  lemma {:induction false} StepExtends(s: State, step: Step) returns (k: nat, a: Answer)
    ensures var (t, r) := Apply(s, step);
            if r.Ok? && !step.ProposeStep? then
              Extends(s, t, k, a) && GivenBy(s, step, s.turns[k].topic, a) && Attributed(s, s.turns[k].topic, a)
              && (!step.ReviseStep? ==> FirstOpen(s.turns).Some?
                                        && FindTurn(s.turns, s.turns[FirstOpen(s.turns).value].topic) == Some(k))
            else t.turns == s.turns && (r.Err? ==> t == s)
  {
    var (t, r) := Apply(s, step);
    k, a := 0, Answer("", "", 0, Human);
    if r.Ok? && !step.ProposeStep? {
      var topic := if step.ReviseStep? then step.topic else Pending(s).value;
      k := FindTurn(s.turns, topic).value;
      a := t.turns[k].answer.value;
      var text := if step.ConfirmStep? then ProposalFor(s.proposals, topic).value.text else step.text;
      TrimIsDone(text);
    }
  }

  /** Why a step is refused: nothing is pending, nothing was proposed for what is, nobody is
      named, or nothing is said; and only then. */
  lemma {:induction false} RefusedExactlyWhen(s: State, step: Step)
    requires forall topic :: FindTurn(s.turns, topic).Some?
    ensures var r, pending := Apply(s, step).1, Pending(s);
            match step
            case ProposeStep(_, _, _) => r.Ok?
            case AnswerStep(text, who, _) => r == Refusal(if pending.None? then Some(AlreadyAnswered(Scope)) else None, text, who)
            case ReviseStep(_, text, who, _) => r == Refusal(None, text, who)
            case ConfirmStep(who, _) =>
              if pending.None? then r == Err(AlreadyAnswered(Scope))
              else if ProposalFor(s.proposals, pending.value).None? then r == Err(NoSuchProposal(pending.value))
              else r == Refusal(None, ProposalFor(s.proposals, pending.value).value.text, who)
  {
  }

  /** An answer with a name and words is taken, unless something is wrong before them. */
  function Refusal(first: Option<InterviewError>, text: string, who: string): Result<(), InterviewError> {
    if first.Some? then Err(first.value)
    else if Trim(who) == "" then Err(Unattributed)
    else if Trim(text) == "" then Err(EmptyAnswer)
    else Ok(())
  }

  // ---- whole runs -------------------------------------------------------

  predicate IsPrefix(a: seq<Answer>, b: seq<Answer>) {
    |a| <= |b| && b[..|a|] == a
  }

  /** Histories of the same topics, each only longer. */
  predicate Grown(s: State, t: State) {
    && |t.turns| == |s.turns|
    && forall i :: 0 <= i < |s.turns| ==>
         t.turns[i].topic == s.turns[i].topic && IsPrefix(s.turns[i].History(), t.turns[i].History())
         && (s.turns[i].answer.Some? ==> t.turns[i].answer.Some?)
  }

  /** Along any run every topic's history only grows at its end, and what is answered
      stays answered. */
  lemma {:induction false} HistoriesGrow(s: State, steps: seq<Step>)
    ensures Grown(s, Run(s, steps))
  {
    if steps != [] {
      var n := |steps| - 1;
      HistoriesGrow(s, steps[..n]);
      var m := Run(s, steps[..n]);
      var k, a := StepExtends(m, steps[n]);
      StepGrows(s, m, Run(s, steps), k, a);
    }
  }

  lemma {:induction false} StepGrows(s: State, m: State, t: State, k: nat, a: Answer)
    requires Grown(s, m) && (t.turns == m.turns || Extends(m, t, k, a))
    ensures Grown(s, t)
  {
  }

  function TotalAnswers(turns: seq<Turn>): nat {
    if turns == [] then 0 else TotalAnswers(turns[..|turns| - 1]) + |turns[|turns| - 1].History()|
  }

  lemma {:induction false} TotalOfUpdate(turns: seq<Turn>, k: nat, turn: Turn)
    requires k < |turns|
    ensures TotalAnswers(turns[k := turn]) + |turns[k].History()| == TotalAnswers(turns) + |turn.History()|
  {
    var n := |turns| - 1;
    if k < n {
      TotalOfUpdate(turns[..n], k, turn);
      assert turns[k := turn][..n] == turns[..n][k := turn];
    } else {
      assert turns[k := turn][..n] == turns[..n];
    }
  }

  /** Nothing is lost and nothing is made up: the answers on file, superseded ones
      included, number the steps that succeeded in recording one. */
  lemma {:induction false} AnswersAreCounted(s: State, steps: seq<Step>)
    ensures TotalAnswers(Run(s, steps).turns) == TotalAnswers(s.turns) + Recorded(s, steps)
  {
    if steps != [] {
      var n := |steps| - 1;
      AnswersAreCounted(s, steps[..n]);
      var m, t := Run(s, steps[..n]), Run(s, steps);
      var k, a := StepExtends(m, steps[n]);
      if !steps[n].ProposeStep? && Apply(m, steps[n]).1.Ok? {
        TotalOfUpdate(m.turns, k, t.turns[k]);
        assert t.turns == m.turns[k := t.turns[k]];
      }
    }
  }

  /** Every answer ever on file names its author and says something. */
  predicate AllAttributed(s: State) {
    forall i, j :: 0 <= i < |s.turns| && 0 <= j < |s.turns[i].History()| ==>
      !Blank(s.turns[i].History()[j].by_) && !Blank(s.turns[i].History()[j].text)
  }

  lemma {:induction false} EveryAnswerIsAttributed(s: State, steps: seq<Step>)
    requires AllAttributed(s)
    ensures AllAttributed(Run(s, steps))
  {
    if steps != [] {
      var n := |steps| - 1;
      EveryAnswerIsAttributed(s, steps[..n]);
      var m, t := Run(s, steps[..n]), Run(s, steps);
      var k, a := StepExtends(m, steps[n]);
      if t.turns != m.turns {
        forall i, j | 0 <= i < |t.turns| && 0 <= j < |t.turns[i].History()|
          ensures !Blank(t.turns[i].History()[j].by_) && !Blank(t.turns[i].History()[j].text)
        {
          if i == k && j == |m.turns[k].History()| {
            assert t.turns[i].History()[j] == a;
          } else {
            assert t.turns[i].History()[j] == m.turns[i].History()[j];
          }
        }
      }
    }
  }

  /** Some step of the run proposed this text for the topic, from this place. */
  predicate Proposed(steps: seq<Step>, topic: Topic, text: string, from: string) {
    exists j | 0 <= j < |steps| :: steps[j].ProposeStep? && steps[j].topic == topic && steps[j].from == from
                                   && Trim(steps[j].text) == text
  }

  lemma {:induction false} ProposedStays(steps: seq<Step>, step: Step, topic: Topic, text: string, from: string)
    requires Proposed(steps, topic, text, from)
    ensures Proposed(steps + [step], topic, text, from)
  {
    var j :| 0 <= j < |steps| && steps[j].ProposeStep? && steps[j].topic == topic && steps[j].from == from
             && Trim(steps[j].text) == text;
    assert (steps + [step])[j] == steps[j];
  }

  predicate ProposalsWereMade(s: State, steps: seq<Step>) {
    forall p :: p in s.proposals ==> Proposed(steps, p.topic, Trim(p.text), p.from)
  }

  predicate ConfirmationsWereProposed(s: State, steps: seq<Step>) {
    forall i, j :: 0 <= i < |s.turns| && 0 <= j < |s.turns[i].History()| ==>
      s.turns[i].History()[j].source.ConfirmedProposal? ==>
        Proposed(steps, s.turns[i].topic, s.turns[i].History()[j].text, s.turns[i].History()[j].source.from)
  }

  lemma {:induction false} StepKeepsOrigins(m: State, steps: seq<Step>, step: Step)
    requires ProposalsWereMade(m, steps) && ConfirmationsWereProposed(m, steps)
    ensures var t := Apply(m, step).0;
            ProposalsWereMade(t, steps + [step]) && ConfirmationsWereProposed(t, steps + [step])
  {
    var t := Apply(m, step).0;
    var k, a := StepExtends(m, step);
    forall p | p in t.proposals ensures Proposed(steps + [step], p.topic, Trim(p.text), p.from) {
      if p in m.proposals {
        ProposedStays(steps, step, p.topic, Trim(p.text), p.from);
      } else {
        assert (steps + [step])[|steps|] == step;
      }
    }
    forall i, j | 0 <= i < |t.turns| && 0 <= j < |t.turns[i].History()|
                  && t.turns[i].History()[j].source.ConfirmedProposal?
      ensures Proposed(steps + [step], t.turns[i].topic, t.turns[i].History()[j].text,
                       t.turns[i].History()[j].source.from)
    {
      AnswerOrigin(m, t, steps, step, k, a, i, j);
    }
  }

  lemma {:induction false} AnswerOrigin(m: State, t: State, steps: seq<Step>, step: Step, k: nat, a: Answer, i: nat, j: nat)
    requires ProposalsWereMade(m, steps) && ConfirmationsWereProposed(m, steps)
    requires t.turns == m.turns || (Extends(m, t, k, a) && Attributed(m, m.turns[k].topic, a))
    requires i < |t.turns| && j < |t.turns[i].History()| && t.turns[i].History()[j].source.ConfirmedProposal?
    ensures Proposed(steps + [step], t.turns[i].topic, t.turns[i].History()[j].text, t.turns[i].History()[j].source.from)
  {
    var b := t.turns[i].History()[j];
    if t.turns != m.turns && i == k && j == |m.turns[k].History()| {
      var p :| p in m.proposals && p.topic == m.turns[k].topic && a.text == Trim(p.text) && a.source.from == p.from;
      assert Proposed(steps, p.topic, Trim(p.text), p.from);
    } else {
      assert m.turns[i].History()[j] == b;
    }
    ProposedStays(steps, step, t.turns[i].topic, b.text, b.source.from);
  }

  /** A value filed as confirmed was proposed: some earlier step of the run offered that
      very text for that very topic, from the place the answer names. */
  lemma {:induction false} ConfirmedWasProposed(s: State, steps: seq<Step>)
    requires s.proposals == [] && ConfirmationsWereProposed(s, [])
    ensures ProposalsWereMade(Run(s, steps), steps) && ConfirmationsWereProposed(Run(s, steps), steps)
  {
    if steps == [] {
      assert Run(s, steps) == s;
    } else {
      var before, last := steps[..|steps| - 1], steps[|steps| - 1];
      ConfirmedWasProposed(s, before);
      StepKeepsOrigins(Run(s, before), before, last);
      assert before + [last] == steps;
      assert Run(s, steps) == Apply(Run(s, before), last).0;
    }
  }

  /** Proposals never answer: a step that is not an answer leaves what is outstanding. */
  lemma {:induction false} ProposalsAnswerNothing(s: State, topic: Topic, text: string, from: string)
    ensures var t := Apply(s, ProposeStep(topic, text, from)).0;
            && Outstanding(t.turns) == Outstanding(s.turns)
            && ProposalFor(t.proposals, topic) == Some(Proposal(topic, text, from))
            && (forall u :: u != topic ==> ProposalFor(t.proposals, u) == ProposalFor(s.proposals, u))
  {
    var rest := OnOtherTopics(s.proposals, topic);
    var p := Proposal(topic, text, from);
    LastProposal(rest, p, topic);
    forall u | u != topic ensures ProposalFor(rest + [p], u) == ProposalFor(s.proposals, u) {
      OtherTopicsKept(s.proposals, topic, u);
      LastProposal(rest, p, u);
    }
  }

  lemma {:induction false} LastProposal(ps: seq<Proposal>, p: Proposal, u: Topic)
    ensures ProposalFor(ps + [p], u) == if ProposalFor(ps, u).Some? then ProposalFor(ps, u)
                                        else if p.topic == u then Some(p) else None
  {
    if ps != [] {
      assert (ps + [p])[1..] == ps[1..] + [p];
      if ps[0].topic != u {
        LastProposal(ps[1..], p, u);
      }
    }
  }

  lemma {:induction false} OneMoreProposal(ps: seq<Proposal>, p: Proposal, topic: Topic, u: Topic)
    requires u != topic && ProposalFor(OnOtherTopics(ps, topic), u) == ProposalFor(ps, u)
    ensures ProposalFor(OnOtherTopics(ps + [p], topic), u) == ProposalFor(ps + [p], u)
  {
    var more, rest := ps + [p], OnOtherTopics(ps, topic);
    assert more[..|ps|] == ps && more[|ps|] == p;
    LastProposal(ps, p, u);
    if p.topic != topic {
      LastProposal(rest, p, u);
      assert OnOtherTopics(more, topic) == rest + [p];
    } else {
      assert OnOtherTopics(more, topic) == rest + [] == rest;
    }
  }

  lemma {:induction false} OtherTopicsKept(ps: seq<Proposal>, topic: Topic, u: Topic)
    requires u != topic
    ensures ProposalFor(OnOtherTopics(ps, topic), u) == ProposalFor(ps, u)
  {
    if ps == [] {
    } else {
      var before, p := ps[..|ps| - 1], ps[|ps| - 1];
      assert before + [p] == ps;
      OtherTopicsKept(before, topic, u);
      OneMoreProposal(before, p, topic, u);
    }
  }

  predicate DistinctTopics(turns: seq<Turn>) {
    forall i, j :: 0 <= i < j < |turns| ==> turns[i].topic != turns[j].topic
  }

  /** An answer closes exactly the question that was pending: the rest stay outstanding,
      in order. */
  lemma {:induction false} AnswersCloseTheFirst(s: State, step: Step)
    requires DistinctTopics(s.turns) && (step.AnswerStep? || step.ConfirmStep?)
    requires Apply(s, step).1.Ok?
    ensures Outstanding(s.turns) == [Pending(s).value] + Outstanding(Apply(s, step).0.turns)
  {
    var k, a := StepExtends(s, step);
    var t := Apply(s, step).0;
    var open := FirstOpen(s.turns).value;
    assert k == open;
    ClosesFirst(s.turns, t.turns, k, |s.turns|);
    assert s.turns[..|s.turns|] == s.turns && t.turns[..|t.turns|] == t.turns;
  }

  lemma {:induction false} ClosesFirst(a: seq<Turn>, b: seq<Turn>, k: nat, n: nat)
    requires |a| == |b| && k < |a| && n <= |a|
    requires a[k].answer.None? && b[k].answer.Some? && forall i :: 0 <= i < |a| && i != k ==> a[i] == b[i]
    requires forall i :: 0 <= i < k ==> a[i].answer.Some?
    ensures n <= k ==> Outstanding(a[..n]) == [] && Outstanding(b[..n]) == []
    ensures n > k ==> Outstanding(a[..n]) == [a[k].topic] + Outstanding(b[..n])
  {
    if n > 0 {
      ClosesFirst(a, b, k, n - 1);
      assert a[..n][..n - 1] == a[..n - 1] && b[..n][..n - 1] == b[..n - 1];
    }
  }
}
