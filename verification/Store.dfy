/** The durable evidence store: the string codecs of the at-rest format, the
    append-only log that re-proves itself on load, the committed-record count
    that catches truncation, and the files a tenant has on disk. */
module Store {
  import opened Basics
  import opened Audit
  import opened Policy
  import Hex

  // ---- the string codecs ------------------------------------------------

  function VerdictStr(v: Verdict): string {
    match v
    case Allow => "allow"
    case RequireApproval => "require-approval"
    case Deny => "deny"
    case Ungoverned => "ungoverned"
    case Rejected => "rejected"
    case Approved => "approved"
  }

  function VerdictFromStr(s: string): Option<Verdict> {
    match s
    case "allow" => Some(Allow)
    case "require-approval" => Some(RequireApproval)
    case "deny" => Some(Deny)
    case "ungoverned" => Some(Verdict.Ungoverned)
    case "rejected" => Some(Rejected)
    case "approved" => Some(Approved)
    case _ => None
  }

  function HicStr(h: HicLevel): string {
    match h
    case Observed => "0"
    case ApproveEach => "1"
    case Budgeted => "2"
    case PostHoc => "3"
    case Ungoverned => "X"
  }

  function HicFromStr(s: string): Option<HicLevel> {
    match s
    case "0" => Some(Observed)
    case "1" => Some(HicLevel.ApproveEach)
    case "2" => Some(HicLevel.Budgeted)
    case "3" => Some(HicLevel.PostHoc)
    case "X" => Some(HicLevel.Ungoverned)
    case _ => None
  }

  function ClassificationStr(c: Classification): string {
    match c
    case Public => "Public"
    case Proprietary => "Proprietary"
    case Cui => "CUI"
    case Itar => "ITAR"
  }

  function ClassificationFromStr(s: string): Option<Classification> {
    var l := Lower(Trim(s));
    if l == "public" then Some(Public)
    else if l == "proprietary" then Some(Proprietary)
    else if l == "cui" then Some(Cui)
    else if l == "itar" then Some(Itar)
    else None
  }

  function GrantHicStr(h: GrantHic): string {
    match h
    case ApproveEach => "1"
    case Budgeted => "2"
    case PostHoc => "3"
  }

  /** Anything unrecognised is budgeted autonomy. */
  function GrantHicFromStr(s: string): GrantHic {
    if s == "1" || s == "approve-each" then GrantHic.ApproveEach
    else if s == "3" || s == "post-hoc" then GrantHic.PostHoc
    else GrantHic.Budgeted
  }

  lemma {:induction false} VerdictRoundTrip(v: Verdict)
    ensures VerdictFromStr(VerdictStr(v)) == Some(v)
  {
    match v {
      case Allow =>
      case RequireApproval =>
      case Deny =>
      case Ungoverned =>
      case Rejected =>
      case Approved =>
    }
  }

  lemma {:induction false} HicRoundTrip(h: HicLevel)
    ensures HicFromStr(HicStr(h)) == Some(h)
  {
    match h {
      case Observed =>
      case ApproveEach =>
      case Budgeted =>
      case PostHoc =>
      case Ungoverned =>
    }
  }

  lemma {:induction false} ClassificationRoundTrip(c: Classification)
    ensures ClassificationFromStr(ClassificationStr(c)) == Some(c)
  {
    var s := ClassificationStr(c);
    assert TrimStart(s) == s && TrimEnd(s) == s;
    match c {
      case Public => assert Lower(s) == "public";
      case Proprietary => assert Lower(s) == "proprietary";
      case Cui => assert Lower(s) == "cui";
      case Itar => assert Lower(s) == "itar";
    }
  }

  lemma {:induction false} GrantHicRoundTrip(g: GrantHic)
    ensures GrantHicFromStr(GrantHicStr(g)) == g
  {
    match g {
      case ApproveEach =>
      case Budgeted =>
      case PostHoc =>
    }
  }

  /** The texts themselves; a text that is none of them reads as nothing. */
  lemma {:induction false} VerdictTexts(s: string, v: Verdict)
    ensures VerdictFromStr(s) == Some(v)
            <==> (s, v) in {("allow", Allow), ("require-approval", RequireApproval), ("deny", Deny),
                            ("ungoverned", Verdict.Ungoverned), ("rejected", Rejected), ("approved", Approved)}
  {
  }

  lemma {:induction false} HicTexts(s: string, h: HicLevel)
    ensures HicFromStr(s) == Some(h)
            <==> (s, h) in {("0", Observed), ("1", HicLevel.ApproveEach), ("2", HicLevel.Budgeted),
                            ("3", HicLevel.PostHoc), ("X", HicLevel.Ungoverned)}
  {
  }

  // ---- the log ----------------------------------------------------------

  datatype StoredRecord = StoredRecord(
    agent: string,
    principal: Option<string>,
    grantId: Option<string>,
    actionClass: string,
    paramsHash: string,
    verdict: string,
    hic: string,
    modelId: string,
    correlationId: string,
    timestampMs: I64,
    chainHash: string)

  /** One line of the log file, as the JSON reader sees it. */
  datatype Line = BlankLine | GarbledLine | RecordLine(stored: StoredRecord)

  datatype Fault = DoesNotParse | UnknownVerdict | UnknownHic | RecordRejected | HashMismatch

  datatype StoreError =
    | Corrupt(line: nat, fault: Fault)
    | Truncated(recorded: nat, found: nat)
    | BadGrant(id: string)

  function Stored(e: Entry): StoredRecord {
    var r := e.record;
    StoredRecord(r.agent, r.principal, r.grantId, r.actionClass, Hex.Encode(r.paramsHash),
                 VerdictStr(r.verdict), HicStr(r.hic), r.modelId, r.correlationId,
                 r.timestampMs, Hex.Encode(e.hash))
  }

  function LineOf(e: Entry): Line {
    RecordLine(Stored(e))
  }

  function LinesOf(es: seq<Entry>): (ls: seq<Line>)
    ensures |ls| == |es|
  {
    seq(|es|, i requires 0 <= i < |es| => LineOf(es[i]))
  }

  function Restored(s: StoredRecord): Result<DecisionRecord, Fault> {
    match VerdictFromStr(s.verdict)
    case None => Err(UnknownVerdict)
    case Some(verdict) =>
      match HicFromStr(s.hic)
      case None => Err(UnknownHic)
      case Some(hic) =>
        Ok(DecisionRecord(s.agent, s.principal, s.grantId, s.actionClass, Hex.Decode32(s.paramsHash),
                          verdict, hic, s.modelId, s.correlationId, s.timestampMs))
  }

  /** One line replayed onto a chain, or what is wrong with it. */
  function ReplayLine(H: Hash, c: HashChain, line: Line): Result<HashChain, Fault> {
    match line
    case BlankLine => Ok(c)
    case GarbledLine => Err(DoesNotParse)
    case RecordLine(s) =>
      match Restored(s)
      case Err(f) => Err(f)
      case Ok(r) =>
        match Append(H, c, r)
        case None => Err(RecordRejected)
        case Some(d) => if Hex.Encode(d.head) != s.chainHash then Err(HashMismatch) else Ok(d)
  }

  /** The first `n` lines replayed from an empty chain. */
  function Replay(H: Hash, tenant: string, lines: seq<Line>, n: nat): Result<HashChain, StoreError>
    requires n <= |lines|
  {
    if n == 0 then Ok(Fresh(H, tenant))
    else match Replay(H, tenant, lines, n - 1)
      case Err(e) => Err(e)
      case Ok(c) =>
        match ReplayLine(H, c, lines[n - 1])
        case Err(f) => Err(Corrupt(n, f))
        case Ok(d) => Ok(d)
  }

  /** What `load_chain` returns for a log file (`None` when there is none) and a count. */
  function Load(H: Hash, tenant: string, log: Option<seq<Line>>, count: nat): Result<HashChain, StoreError> {
    match log
    case None => if count > 0 then Err(Truncated(count, 0)) else Ok(Fresh(H, tenant))
    case Some(lines) =>
      match Replay(H, tenant, lines, |lines|)
      case Err(e) => Err(e)
      case Ok(c) => if count > |c.entries| then Err(Truncated(count, |c.entries|)) else Ok(c)
  }

  lemma {:induction false} FreshIsLinked(H: Hash, tenant: string)
    ensures Linked(H, Fresh(H, tenant))
  {
  }

  lemma {:induction false} PrefixReplays(H: Hash, tenant: string, a: seq<Line>, b: seq<Line>, n: nat)
    requires n <= |a| && n <= |b| && a[..n] == b[..n]
    ensures Replay(H, tenant, a, n) == Replay(H, tenant, b, n)
  {
    if n > 0 {
      assert a[..n - 1] == a[..n][..n - 1] && b[..n - 1] == b[..n][..n - 1];
      assert a[n - 1] == a[..n][n - 1] && b[n - 1] == b[..n][n - 1];
      PrefixReplays(H, tenant, a, b, n - 1);
    }
  }

  /** The chain made of the first `n` entries. */
  function ChainPrefix(H: Hash, c: HashChain, n: nat): HashChain
    requires n <= |c.entries|
  {
    HashChain(c.tenant, c.entries[..n], HashBefore(H, c.tenant, c.entries, n))
  }

  lemma {:induction false} PrefixIsLinked(H: Hash, c: HashChain, n: nat)
    requires Linked(H, c) && n <= |c.entries|
    ensures Linked(H, ChainPrefix(H, c, n))
  {
    var p := ChainPrefix(H, c, n);
    forall i: nat | i < n ensures LinkedAt(H, p.tenant, p.entries, i) {
      assert LinkedAt(H, c.tenant, c.entries, i);
    }
  }

  lemma {:induction false} StoredRestores(e: Entry)
    ensures Restored(Stored(e)) == Ok(e.record)
  {
    VerdictRoundTrip(e.record.verdict);
    HicRoundTrip(e.record.hic);
    Hex.Hex32RoundTrip(e.record.paramsHash);
  }

  lemma {:induction false} OwnLineReplays(H: Hash, c: HashChain, n: nat)
    requires Linked(H, c) && n < |c.entries|
    ensures ReplayLine(H, ChainPrefix(H, c, n), LineOf(c.entries[n])) == Ok(ChainPrefix(H, c, n + 1))
  {
    var e := c.entries[n];
    StoredRestores(e);
    assert LinkedAt(H, c.tenant, c.entries, n);
    assert c.entries[..n + 1] == c.entries[..n] + [e];
  }

  /** Loading the log of a chain rebuilds the chain: every prefix replays to the
      matching prefix, through the string and hex codecs. */
  lemma {:induction false} OwnLogReplays(H: Hash, c: HashChain, n: nat)
    requires Linked(H, c) && n <= |c.entries|
    ensures Replay(H, c.tenant, LinesOf(c.entries), n) == Ok(ChainPrefix(H, c, n))
  {
    if n > 0 {
      var k := n - 1;
      OwnLogReplays(H, c, k);
      OwnLineReplays(H, c, k);
      assert LinesOf(c.entries)[k] == LineOf(c.entries[k]);
    }
  }

  lemma {:induction false} OwnLogLoads(H: Hash, c: HashChain, n: nat, count: nat)
    requires Linked(H, c) && n <= |c.entries|
    ensures Load(H, c.tenant, Some(LinesOf(c.entries)[..n]), count)
            == if count > n then Err(Truncated(count, n)) else Ok(ChainPrefix(H, c, n))
  {
    OwnLogReplays(H, c, n);
    PrefixReplays(H, c.tenant, LinesOf(c.entries)[..n], LinesOf(c.entries), n);
  }

  // ---- what a log says, line by line -------------------------------------

  /** The lines of a log that are records, in order. */
  function RecordLines(lines: seq<Line>): seq<StoredRecord> {
    if lines == [] then []
    else
      var n := |lines| - 1;
      RecordLines(lines[..n]) + (if lines[n].RecordLine? then [lines[n].stored] else [])
  }

  /** The stored record is this entry, field by field. */
  predicate Says(s: StoredRecord, e: Entry) {
    var r := e.record;
    && s.agent == r.agent && s.principal == r.principal && s.grantId == r.grantId && s.actionClass == r.actionClass
    && Hex.Decode32(s.paramsHash) == r.paramsHash
    && VerdictFromStr(s.verdict) == Some(r.verdict) && HicFromStr(s.hic) == Some(r.hic)
    && s.modelId == r.modelId && s.correlationId == r.correlationId && s.timestampMs == r.timestampMs
    && s.chainHash == Hex.Encode(e.hash)
  }

  /** No line is garbled, and the records among them are the entries of the chain, one for
      one; blank lines say nothing. */
  predicate Tells(lines: seq<Line>, es: seq<Entry>) {
    && (forall i :: 0 <= i < |lines| ==> !lines[i].GarbledLine?)
    && |RecordLines(lines)| == |es|
    && forall i :: 0 <= i < |es| ==> Says(RecordLines(lines)[i], es[i])
  }

  lemma {:induction false} TellsOneMore(lines: seq<Line>, line: Line, es: seq<Entry>)
    ensures line.BlankLine? ==> (Tells(lines + [line], es) <==> Tells(lines, es))
    ensures line.GarbledLine? ==> !Tells(lines + [line], es)
    ensures line.RecordLine? ==>
              (Tells(lines + [line], es)
               <==> es != [] && Tells(lines, es[..|es| - 1]) && Says(line.stored, es[|es| - 1]))
  {
    var all := lines + [line];
    assert all[..|lines|] == lines && all[|lines|] == line;
    if line.RecordLine? && es != [] {
      var before := es[..|es| - 1];
      assert RecordLines(all) == RecordLines(lines) + [line.stored];
      if Tells(all, es) {
        forall i | 0 <= i < |lines| ensures !lines[i].GarbledLine? { assert lines[i] == all[i]; }
        forall i | 0 <= i < |before| ensures Says(RecordLines(lines)[i], before[i]) {
          assert RecordLines(all)[i] == RecordLines(lines)[i];
        }
      }
    } else if line.BlankLine? {
      assert RecordLines(all) == RecordLines(lines);
      if Tells(all, es) {
        forall i | 0 <= i < |lines| ensures !lines[i].GarbledLine? { assert lines[i] == all[i]; }
      }
    }
  }

  /** What replays is a chain whose entries the lines tell. */
  lemma {:induction false} ReplayedIsTold(H: Hash, tenant: string, lines: seq<Line>, n: nat)
    requires n <= |lines| && Replay(H, tenant, lines, n).Ok?
    ensures Tells(lines[..n], Replay(H, tenant, lines, n).value.entries)
  {
    if n > 0 {
      var k := n - 1;
      ReplayedIsTold(H, tenant, lines, k);
      assert lines[..n] == lines[..k] + [lines[k]];
      OneMoreIsTold(H, Replay(H, tenant, lines, k).value, lines[..k], lines[k]);
    }
  }

  lemma {:induction false} OneMoreIsTold(H: Hash, c: HashChain, lines: seq<Line>, line: Line)
    requires Tells(lines, c.entries) && ReplayLine(H, c, line).Ok?
    ensures Tells(lines + [line], ReplayLine(H, c, line).value.entries)
  {
    var d := ReplayLine(H, c, line).value;
    TellsOneMore(lines, line, d.entries);
    if line.RecordLine? {
      RecordIsSaid(H, c, line.stored);
    }
  }

  lemma {:induction false} RecordIsSaid(H: Hash, c: HashChain, s: StoredRecord)
    requires ReplayLine(H, c, RecordLine(s)).Ok?
    ensures var d := ReplayLine(H, c, RecordLine(s)).value;
            var n := |c.entries|;
            |d.entries| == n + 1 && d.entries[..n] == c.entries && Says(s, d.entries[n])
  {
  }

  lemma {:induction false} LastIsReplayed(H: Hash, c: HashChain, s: StoredRecord)
    requires Linked(H, c) && c.entries != [] && Says(s, c.entries[|c.entries| - 1])
    ensures ReplayLine(H, ChainPrefix(H, c, |c.entries| - 1), RecordLine(s)) == Ok(c)
  {
    var m := |c.entries| - 1;
    assert LinkedAt(H, c.tenant, c.entries, m);
    assert c.entries == c.entries[..m] + [c.entries[m]];
  }

  /** And every linked chain whose entries the lines tell is what they replay to. */
  lemma {:induction false} ToldIsReplayed(H: Hash, c: HashChain, lines: seq<Line>, n: nat)
    requires n <= |lines| && Linked(H, c) && Tells(lines[..n], c.entries)
    ensures Replay(H, c.tenant, lines, n) == Ok(c)
    decreases n
  {
    if n == 0 {
      assert RecordLines(lines[..0]) == [] && c.entries == [];
    } else {
      var k := n - 1;
      assert lines[..n] == lines[..k] + [lines[k]];
      TellsOneMore(lines[..k], lines[k], c.entries);
      if lines[k].RecordLine? {
        var m := |c.entries| - 1;
        var before := ChainPrefix(H, c, m);
        PrefixIsLinked(H, c, m);
        ToldIsReplayed(H, before, lines, k);
        LastIsReplayed(H, c, lines[k].stored);
      } else {
        ToldIsReplayed(H, c, lines, k);
      }
    }
  }

  /** A log loads as exactly this chain if and only if the chain is the tenant's and linked,
      the lines tell its entries, none is garbled, and the count is no more than there are;
      without a log, the count is zero and the chain is a fresh one. */
  lemma {:induction false} LoadMeans(H: Hash, tenant: string, log: Option<seq<Line>>, count: nat, c: HashChain)
    ensures Load(H, tenant, log, count) == Ok(c)
            <==> c.tenant == tenant && Linked(H, c) && count <= |c.entries|
                 && (if log.None? then c.entries == [] else Tells(log.value, c.entries))
  {
    if log.Some? {
      var lines := log.value;
      assert lines[..|lines|] == lines;
      if Replay(H, tenant, lines, |lines|).Ok? {
        ReplayedIsTold(H, tenant, lines, |lines|);
        AcceptedLogIsLinked(H, tenant, lines, |lines|);
      }
      if c.tenant == tenant && Linked(H, c) && Tells(lines, c.entries) {
        ToldIsReplayed(H, c, lines, |lines|);
      }
    } else {
      FreshIsLinked(H, tenant);
    }
  }

  /** Why a line is refused on a chain: it does not parse, its verdict or its oversight
      level is none there is, its authority is not what its verdict has to name, or it
      does not chain. */
  lemma {:induction false} FaultIs(H: Hash, c: HashChain, line: Line)
    ensures var r := ReplayLine(H, c, line);
            match line
            case BlankLine => r == Ok(c)
            case GarbledLine => r == Err(DoesNotParse)
            case RecordLine(s) =>
              if VerdictFromStr(s.verdict).None? then r == Err(UnknownVerdict)
              else if HicFromStr(s.hic).None? then r == Err(UnknownHic)
              else if !Restored(s).value.Consistent() then r == Err(RecordRejected)
              else if s.chainHash != Hex.Encode(H(c.head + Canonical(Restored(s).value))) then r == Err(HashMismatch)
              else r.Ok?
  {
  }

  /** A load that fails at a line names it, counted from 1, and the lines before it load. */
  lemma {:induction false} FirstFaultIsNamed(H: Hash, tenant: string, lines: seq<Line>, n: nat) returns (k: nat)
    requires n <= |lines| && Replay(H, tenant, lines, n).Err?
    ensures k < n && Replay(H, tenant, lines, k).Ok?
    ensures ReplayLine(H, Replay(H, tenant, lines, k).value, lines[k]).Err?
    ensures Replay(H, tenant, lines, n)
            == Err(Corrupt(k + 1, ReplayLine(H, Replay(H, tenant, lines, k).value, lines[k]).error))
  {
    k := n - 1;
    if Replay(H, tenant, lines, k).Err? {
      k := FirstFaultIsNamed(H, tenant, lines, k);
    }
  }

  // ---- tamper evidence of the stored log --------------------------------

  /** The chained hash of the last record in the file. */
  function FinalHash(lines: seq<Line>): Option<string> {
    if lines == [] then None
    else if lines[|lines| - 1].RecordLine? then Some(lines[|lines| - 1].stored.chainHash)
    else FinalHash(lines[..|lines| - 1])
  }

  lemma {:induction false} AcceptedLogIsLinked(H: Hash, tenant: string, lines: seq<Line>, n: nat)
    requires n <= |lines| && Replay(H, tenant, lines, n).Ok?
    ensures var c := Replay(H, tenant, lines, n).value;
            && c.tenant == tenant && Linked(H, c)
            && FinalHash(lines[..n]) == (if c.entries == [] then None else Some(Hex.Encode(c.head)))
  {
    if n == 0 {
      FreshIsLinked(H, tenant);
    } else {
      AcceptedLogIsLinked(H, tenant, lines, n - 1);
      var c := Replay(H, tenant, lines, n - 1).value;
      assert lines[..n][..n - 1] == lines[..n - 1];
      match lines[n - 1] {
        case BlankLine =>
        case RecordLine(s) => AppendLinks(H, c, Restored(s).value);
      }
    }
  }

  lemma {:induction false} LoadedIsLinked(H: Hash, tenant: string, lines: seq<Line>, count: nat, c: HashChain)
    requires Load(H, tenant, Some(lines), count) == Ok(c)
    ensures c.tenant == tenant && Linked(H, c)
    ensures FinalHash(lines) == (if c.entries == [] then None else Some(Hex.Encode(c.head)))
    ensures c.head == HeadAfter(H, tenant, Records(c.entries))
  {
    AcceptedLogIsLinked(H, tenant, lines, |lines|);
    assert lines[..|lines|] == lines;
    LinkedHead(H, c, |c.entries|);
    assert c.entries[..|c.entries|] == c.entries;
  }

  /** Two log files of one tenant that both load and end in the same stored hash
      hold the same records, up to an absent authority written as an empty one, or
      give a collision of the hash function or a planted genesis. */
  lemma {:induction false} StoredLogIsTamperEvident(H: Hash, tenant: string, a: seq<Line>, b: seq<Line>,
                                 countA: nat, countB: nat, c: HashChain, d: HashChain) returns (f: Finding)
    requires Load(H, tenant, Some(a), countA) == Ok(c) && Load(H, tenant, Some(b), countB) == Ok(d)
    requires FinalHash(a) == FinalHash(b)
    requires AllFramed(Records(c.entries)) && AllFramed(Records(d.entries))
    ensures Holds(H, tenant, Records(c.entries), Records(d.entries), f)
  {
    LoadedIsLinked(H, tenant, a, countA, c);
    LoadedIsLinked(H, tenant, b, countB, d);
    if c.entries == [] {
      f := SameHistory;
    } else {
      Hex.EncodeInjective(c.head, d.head);
      f := HeadCommits(H, tenant, Records(c.entries), Records(d.entries));
    }
  }

  // ---- the count and truncation -----------------------------------------

  /** How a durable append ended: nothing reached the log; the line did but the
      count did not; or both did and the call succeeded. */
  datatype LogOutcome = LogLost | LogTorn | LogDone

  datatype LogFile = LogFile(lines: Option<seq<Line>>, count: nat)
  {
    function Lines(): seq<Line> {
      if lines.Some? then lines.value else []
    }
  }

  function AppendLine(f: LogFile, line: Line, outcome: LogOutcome): LogFile {
    match outcome
    case LogLost => f
    case LogTorn => f.(lines := Some(f.Lines() + [line]))
    case LogDone => LogFile(Some(f.Lines() + [line]), f.count + 1)
  }

  /** A process loads the log, appends one record to the chain and to the file. */
  function AppendOnce(H: Hash, tenant: string, f: LogFile, r: DecisionRecord, outcome: LogOutcome): LogFile {
    match Load(H, tenant, f.lines, f.count)
    case Err(_) => f
    case Ok(c) =>
      match Append(H, c, r)
      case None => f
      case Some(d) => AppendLine(f, LineOf(d.entries[|d.entries| - 1]), outcome)
  }

  function AppendAll(H: Hash, tenant: string, events: seq<(DecisionRecord, LogOutcome)>): LogFile {
    if events == [] then LogFile(None, 0)
    else
      var (r, outcome) := events[|events| - 1];
      AppendOnce(H, tenant, AppendAll(H, tenant, events[..|events| - 1]), r, outcome)
  }

  /** The appends that stopped between the log sync and the count write. */
  function TornAppends(events: seq<(DecisionRecord, LogOutcome)>): nat {
    if events == [] then 0
    else
      var (r, outcome) := events[|events| - 1];
      TornAppends(events[..|events| - 1]) + (if outcome.LogTorn? && r.Consistent() then 1 else 0)
  }

  /** The file is the log of `c`, short by `torn` in the count. */
  ghost predicate LogOf(H: Hash, tenant: string, f: LogFile, c: HashChain, torn: nat) {
    && c.tenant == tenant && Linked(H, c)
    && f.Lines() == LinesOf(c.entries)
    && f.count + torn == |c.entries|
  }

  lemma {:induction false} LogLoads(H: Hash, tenant: string, f: LogFile, c: HashChain, torn: nat)
    requires LogOf(H, tenant, f, c, torn)
    ensures Load(H, tenant, f.lines, f.count) == Ok(c)
  {
    OwnLogLoads(H, c, |c.entries|, f.count);
    assert LinesOf(c.entries)[..|c.entries|] == LinesOf(c.entries);
    assert ChainPrefix(H, c, |c.entries|) == c;
    if f.lines.None? {
      assert c.entries == [];
    }
  }

  lemma {:induction false} LineAppended(es: seq<Entry>, e: Entry)
    ensures LinesOf(es + [e]) == LinesOf(es) + [LineOf(e)]
  {
  }

  lemma {:induction false} AppendsKeepTheLog(H: Hash, tenant: string, events: seq<(DecisionRecord, LogOutcome)>)
    returns (c: HashChain)
    ensures LogOf(H, tenant, AppendAll(H, tenant, events), c, TornAppends(events))
  {
    if events == [] {
      c := Fresh(H, tenant);
    } else {
      var before := events[..|events| - 1];
      var f := AppendAll(H, tenant, before);
      var (r, outcome) := events[|events| - 1];
      c := AppendsKeepTheLog(H, tenant, before);
      LogLoads(H, tenant, f, c, TornAppends(before));
      if r.Consistent() && !outcome.LogLost? {
        AppendLinks(H, c, r);
        var d := Append(H, c, r).value;
        LineAppended(c.entries, d.entries[|c.entries|]);
        c := d;
      }
    }
  }

  /** Under any interleaving of appends and crashes, the count trails the log by
      exactly the torn appends, the intact log loads, and a log cut to a prefix or
      deleted is accepted exactly when the cut is no shorter than the count. */
  lemma {:induction false} TruncationIsRefused(H: Hash, tenant: string, events: seq<(DecisionRecord, LogOutcome)>, k: nat)
    requires k <= |AppendAll(H, tenant, events).Lines()|
    ensures var f := AppendAll(H, tenant, events);
            && f.count + TornAppends(events) == |f.Lines()|
            && Load(H, tenant, f.lines, f.count).Ok?
            && (Load(H, tenant, Some(f.Lines()[..k]), f.count).Ok? <==> k >= f.count)
            && (k < f.count ==> Load(H, tenant, Some(f.Lines()[..k]), f.count) == Err(Truncated(f.count, k)))
            && (Load(H, tenant, None, f.count).Ok? <==> f.count == 0)
  {
    var f := AppendAll(H, tenant, events);
    var c := AppendsKeepTheLog(H, tenant, events);
    LogLoads(H, tenant, f, c, TornAppends(events));
    OwnLogLoads(H, c, k, f.count);
  }
}
