/** The durable store as the backend sees it: per-tenant files that are rewritten
    whole, an append-only log with its count, and the installation's own settings.
    Whether a write lands is an argument of the call. */
module EvidenceStore {
  import opened Basics
  import opened Audit
  import opened Policy
  import opened Store
  import opened Files
  import opened Ledger

  /** What is in one tenant's directory. */
  datatype TenantFiles = TenantFiles(
    log: LogFile,
    grants: seq<StoredGrant>,
    allowances: seq<VoteAllowance>,
    charges: seq<Charge>,
    pending: seq<PendingApproval>,
    resolved: seq<(nat, Answer)>)

  const NO_FILES: TenantFiles := TenantFiles(LogFile(None, 0), [], [], [], [], [])

  function ReadGrants(stored: seq<StoredGrant>): Result<map<string, seq<CapabilityGrant>>, StoreError> {
    match RestoreGrants(stored, |stored|)
    case Err(e) => Err(e)
    case Ok(gs) => Ok(GroupGrants(gs))
  }

  function DiskFrom(f: TenantFiles, operator: Option<string>, egress: EgressPolicy): Disk {
    Disk(f.log, ReadGrants(f.grants), Index(KeyedAllowances(f.allowances)), Index(KeyedCharges(f.charges)),
         Index(KeyedPending(f.pending)), Index(f.resolved), operator, egress)
  }

  lemma {:induction false} ReadsBackGrants(gs: seq<CapabilityGrant>)
    ensures ReadGrants(StoreGrants(gs)) == Ok(GroupGrants(gs))
  {
    GrantsRoundTrip(gs, |gs|);
    assert gs[..|gs|] == gs;
  }

  class EvidenceStore {
    const h: Hash
    var files: map<string, TenantFiles>
    var scope: Option<string>
    var operator: Option<string>
    var egress: EgressPolicy

    /** An empty store. */
    constructor (h: Hash)
      ensures this.h == h && scope == None && operator == None && egress == DEFAULT_EGRESS
      ensures forall t :: FilesOf(t) == NO_FILES
    {
      this.h := h;
      files := map[];
      scope, operator, egress := None, None, DEFAULT_EGRESS;
    }

    function FilesOf(t: string): TenantFiles
      reads this`files
    {
      if t in files then files[t] else NO_FILES
    }

    /** The tenant's files, as the loader reads them. */
    function DiskOf(t: string): Disk
      reads this`files, this`operator, this`egress
    {
      DiskFrom(FilesOf(t), operator, egress)
    }

    /** Append a line, sync, then raise the committed-record count. */
    method AppendRecord(t: string, e: Entry, outcome: LogOutcome) returns (ok: bool)
      modifies this`files
      ensures ok == outcome.LogDone?
      ensures FilesOf(t) == old(FilesOf(t)).(log := AppendLine(old(FilesOf(t)).log, LineOf(e), outcome))
      ensures forall u :: u != t ==> FilesOf(u) == old(FilesOf(u))
    {
      ok := outcome.LogDone?;
      var f := FilesOf(t);
      if !outcome.LogLost? {
        files := files[t := f.(log := LogFile(Some(f.log.Lines() + [LineOf(e)]), f.log.count))];
      }
      if ok {
        f := FilesOf(t);
        files := files[t := f.(log := f.log.(count := f.log.count + 1))];
      }
    }

    method SaveGrants(t: string, gs: seq<CapabilityGrant>, lands: bool) returns (ok: bool)
      modifies this`files
      ensures ok == lands
      ensures FilesOf(t) == if lands then old(FilesOf(t)).(grants := StoreGrants(gs)) else old(FilesOf(t))
      ensures forall u :: u != t ==> FilesOf(u) == old(FilesOf(u))
    {
      ok := lands;
      if lands { files := files[t := FilesOf(t).(grants := StoreGrants(gs))]; }
    }

    method SaveAllowances(t: string, xs: seq<VoteAllowance>, lands: bool) returns (ok: bool)
      modifies this`files
      ensures ok == lands
      ensures FilesOf(t) == if lands then old(FilesOf(t)).(allowances := xs) else old(FilesOf(t))
      ensures forall u :: u != t ==> FilesOf(u) == old(FilesOf(u))
    {
      ok := lands;
      if lands { files := files[t := FilesOf(t).(allowances := xs)]; }
    }

    method SaveCharges(t: string, xs: seq<Charge>, lands: bool) returns (ok: bool)
      modifies this`files
      ensures ok == lands
      ensures FilesOf(t) == if lands then old(FilesOf(t)).(charges := xs) else old(FilesOf(t))
      ensures forall u :: u != t ==> FilesOf(u) == old(FilesOf(u))
    {
      ok := lands;
      if lands { files := files[t := FilesOf(t).(charges := xs)]; }
    }

    method SavePending(t: string, xs: seq<PendingApproval>, lands: bool) returns (ok: bool)
      modifies this`files
      ensures ok == lands
      ensures FilesOf(t) == if lands then old(FilesOf(t)).(pending := xs) else old(FilesOf(t))
      ensures forall u :: u != t ==> FilesOf(u) == old(FilesOf(u))
    {
      ok := lands;
      if lands { files := files[t := FilesOf(t).(pending := xs)]; }
    }

    method SaveResolved(t: string, xs: seq<(nat, Answer)>, lands: bool) returns (ok: bool)
      modifies this`files
      ensures ok == lands
      ensures FilesOf(t) == if lands then old(FilesOf(t)).(resolved := xs) else old(FilesOf(t))
      ensures forall u :: u != t ==> FilesOf(u) == old(FilesOf(u))
    {
      ok := lands;
      if lands { files := files[t := FilesOf(t).(resolved := xs)]; }
    }

    /** The scope file holds the tenant and the operator; each writer keeps the other. */
    method SaveScope(t: Option<string>, lands: bool) returns (ok: bool)
      modifies this`scope
      ensures ok == lands && scope == if lands then t else old(scope)
    {
      ok := lands;
      if lands { scope := t; }
    }

    method SaveOperator(name: Option<string>, lands: bool) returns (ok: bool)
      modifies this`operator
      ensures ok == lands && operator == if lands then name else old(operator)
    {
      ok := lands;
      if lands { operator := name; }
    }

    /** Rebuild a tenant's chain, proving every link again on the way. */
    method LoadChain(t: string) returns (r: Result<HashChain, StoreError>)
      ensures r == Load(h, t, FilesOf(t).log.lines, FilesOf(t).log.count)
    {
      var log := FilesOf(t).log;
      if log.lines.None? {
        if log.count > 0 { return Err(Truncated(log.count, 0)); }
        return Ok(Fresh(h, t));
      }
      var lines := log.lines.value;
      var chain := Fresh(h, t);
      for i := 0 to |lines|
        invariant Replay(h, t, lines, i) == Ok(chain)
      {
        var step := ReplayLine(h, chain, lines[i]);
        if step.Err? {
          ReplayFails(h, t, lines, i + 1);
          return Err(Corrupt(i + 1, step.error));
        }
        chain := step.value;
      }
      if log.count > |chain.entries| { return Err(Truncated(log.count, |chain.entries|)); }
      r := Ok(chain);
    }

    /** Read the grants back, stopping at the first that cannot be read. */
    method LoadGrants(t: string) returns (r: Result<seq<CapabilityGrant>, StoreError>)
      ensures r == RestoreGrants(FilesOf(t).grants, |FilesOf(t).grants|)
    {
      var stored := FilesOf(t).grants;
      var gs: seq<CapabilityGrant> := [];
      for i := 0 to |stored|
        invariant RestoreGrants(stored, i) == Ok(gs)
      {
        var g := RestoreGrant(stored[i]);
        if g.Err? {
          RestoreFails(stored, i + 1);
          return Err(g.error);
        }
        gs := gs + [g.value];
      }
      r := Ok(gs);
    }
  }

  /** What the loaders read back, put together, is the tenant's slice. */
  lemma {:induction false} LoadedSlice(h: Hash, t: string, f: TenantFiles, operator: Option<string>, egress: EgressPolicy,
                    chain: HashChain, gs: seq<CapabilityGrant>)
    requires Load(h, t, f.log.lines, f.log.count) == Ok(chain)
    requires RestoreGrants(f.grants, |f.grants|) == Ok(gs)
    ensures LoadSlice(h, t, DiskFrom(f, operator, egress))
            == Ok(Slice(chain, GroupGrants(gs), Index(KeyedAllowances(f.allowances)),
                        Index(KeyedCharges(f.charges)), Index(KeyedPending(f.pending)), Index(f.resolved)))
  {
  }

  /** The first line that fails decides the whole load. */
  lemma {:induction false} ReplayFails(H: Hash, tenant: string, lines: seq<Line>, n: nat)
    requires n <= |lines| && Replay(H, tenant, lines, n).Err?
    ensures Replay(H, tenant, lines, |lines|) == Replay(H, tenant, lines, n)
    decreases |lines| - n
  {
    if n < |lines| {
      ReplayFails(H, tenant, lines, n + 1);
    }
  }

  lemma {:induction false} RestoreFails(stored: seq<StoredGrant>, n: nat)
    requires n <= |stored| && RestoreGrants(stored, n).Err?
    ensures RestoreGrants(stored, |stored|) == RestoreGrants(stored, n)
    decreases |stored| - n
  {
    if n < |stored| {
      RestoreFails(stored, n + 1);
    }
  }
}
