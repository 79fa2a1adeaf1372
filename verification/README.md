# Quorum: a verified model

Quorum keeps agents on a leash: every action an agent wants to take is checked against
grants a human signed, charged to a budget, written to a hash chain, and, when the policy
says so, parked until a human answers. A second half turns documents and an interview into
a governance contract, and a third reads and writes the bytes of that contract. This
project models the three and proves what they promise: over every input and every pattern
of failing writes, and over whole runs. What a crash or a read-back after a failed write
breaks is listed below, with its exact condition where one is proved.

The parts, in the order they build on each other:

- **Text and bytes.** `Basics`, `Text`, `Utf8`, `Hex`.
- **The evidence.** `Audit` (records, the canonical encoding, the hash chain), `Merkle`
  (the day's root and its inclusion proofs), `MerkleLists` (which lists share a root), `Store` (the log file, its codecs, its count),
  `Files` (the small files beside it), `Policy` (grants, the policy check, allowances).
- **The governed-action ledger.** `Ledger` is one tenant's state machine: its memory, its
  files, and a step for each operation, with an argument that says which durable writes of
  the step land. `LedgerSound`, `LedgerSteps`, `LedgerRuns`: what every step and every run
  keeps. `LedgerBudget`: conservation. `LedgerBooks`: the two budget files over whole runs,
  and exactly when conservation holds. `LedgerAnswers`: how a decision's status can move.
  `LedgerRecords`: what an operation that succeeds leaves, and that one that fails leaves
  nothing or a degraded backend. `LedgerRevocation`: revocation is final. `LedgerCrash`:
  what a crash between two writes does. `LedgerQuestions`: what a waiting question is about.
  `LedgerRefusal` and `LedgerApproval`: exactly when a refusal holds, which step filed the
  answer that stands, and exactly what an approval approves, over every run. `LedgerEgress`:
  when a level's egress policy is enforced. `LedgerExample`: the failing inputs, as runs from
  a first start. `LedgerFields` and `LedgerCalls` say what each call does on the fields
  alone, in words of their own, so that the state machine is held against a second account
  of it; `LedgerStanding` carries two of them over runs: whose approvals are on file, and
  that a revoked allowance casts nothing.
- **The program's own form.** `EvidenceStore` and `Backend` are the source's two objects,
  classes over maps keyed by tenant and updated in place. Every method of `QuorumBackend`
  is proved to take the tenant's ledger through the matching step of `Ledger`, result
  included, and to leave every other tenant's slice and files alone. A theorem about runs
  of `Ledger` therefore speaks of one tenant's calls, one after the other, with a failed
  write elsewhere as a step of its own; after a restart in another tenant's scope the slice
  is empty over full files, and the theorem resumes when the scope is established again.
  `Keyed` holds the slices of such maps, `Bridge` the agent's view of it.
- **The contract's bytes.** `Abi` and `AbiDecode` (encoder and decoders), `TenantNode`,
  `Calldata` and `Encoders` (the five hand-written encoders), `Ctor` (constructor
  arguments).
- **Dates and money.** `Calendar`, `Units`.
- **Authoring.** `Marking` and `Chunks` (ingest), `Interview`, `Spec` (drafting),
  `Compile`, `Pipeline` (from a human's words to the contract's bytes).

A crash is a step whose later writes all fail, followed by a restart. Hash functions are
parameters: nothing is assumed of them, and every statement about them gives the colliding
inputs, which are among the inputs that were hashed. Every lemma is stated with automatic
induction off, so each proof rests on the steps it shows.

## Where the code and what is said of it part

Each of these is proved, with the exact condition where there is one.

- Two different records can share a canonical encoding, because an absent authority is
  framed as an empty one (`Audit.AbsentAuthorityIsAliased`, `Audit.CanonicalCommits`).
- Conservation can be broken in two ways, and over every run in no other
  (`LedgerBooks.BudgetHolds`). The files are read back with a charge or a refund in the
  grants file alone: because the process stopped between the grants write and the charges
  write, or because the step's grants write failed and then, on the degraded backend, an
  issue or a revocation, which do not ask whether it is degraded, wrote the grants
  (`LedgerBooks.ReadBackBalances`, `IssueTearsTheBudget`, `RevocationTearsTheRefund`). Or an
  action lost its record in a crash, and the next governed action takes its id and files its
  charge over the first (`LedgerBooks.NextChargeOverwrites`,
  `LedgerExample.OverchargedExample`).
- A crash before an escalation's record leaves a question about a decision that does not
  exist. One such crash is enough: approve the question, and the next action takes the id
  and is reported approved, even one the policy denied or left ungoverned
  (`LedgerExample.ActionTakesTheApproval`); or let another action take the id first, and
  approving the old question approves that action (`LedgerExample.ApprovalTakesTheAction`).
  The bridge then tells the agent to proceed (`Bridge.GoForAnUngovernedAction`). A go is for
  the escalation a human was shown exactly when the step that filed the approval it rests on
  found an escalation on record under the id (`Bridge.PolledGoIsAsAsked`), which is always
  so while files are read back only when no write has failed (`Bridge.CleanGoIsAsAsked`). An
  approval of the escalation that returned an error and filed nothing does not count: a go
  can rest on the older approval even then, and even after a refusal
  (`LedgerExample.UnfiledExample`, `Bridge.GoOnAnOldApproval`).
- A refusal of a waiting decision can be lost in three ways: the question is about a decision
  not on record, and the rejection returns an error; its queue write fails, and the question
  waits again; or an approval was already on file under the id and the crash falls between
  the queue write and the answer write (`LedgerExample.RefusalLostExample`). In every other
  case it holds over every later run (`LedgerRefusal.RefusalHolds`).
- `issue_grant` can return an error and leave the grant live: the grant is saved before the
  record that refuses a blank issuer (`LedgerSteps.FailedIssueStands`).
- The egress check compares the classification text as given, so a level spelled in any
  other way than its name is under no control at all (`LedgerExample.LowerCaseSlipsThrough`,
  with the exact condition in `LedgerEgress.ControlIsByName` and `DenialIsByName`).
- `cast_vote` can return an error and leave the weight spent, in memory and on disk: it is
  spent before it is saved and recorded, so a degraded backend spends and records nothing
  (`LedgerSteps.FailedCastSpends`).
- Re-issuing an allowance id sets its spent weight back to zero
  (`LedgerSteps.ReissueForgetsSpending`).
- The Merkle root does not fix the number of records (`Merkle.RepeatedLastIsInvisible`); it
  fixes the list completed level by level (`MerkleLists.RootFixesTheCompletedList`).
- A threshold of zero is accepted by the threshold constructor
  (`Ctor.ThresholdIsMeetable`), though the compiler never produces one; a roles clause of
  zero is produced by the compiler and refused by the constructor
  (`Pipeline.RolesReachTheContract`).
- `parse_count` reaches for the first number of any text about approving, which its own
  comment says it does not (`Compile.DaysBecomeAThreshold`).

## Model

| member | source | states |
|---|---|---|
| `Backend.QuorumBackend.EvaluateAndRecord` | src-tauri/src/backend.rs:827-985 | takes the tenant's ledger through exactly one `Ledger.EvaluateAndRecord` step, result included, with a valid object after it and every other tenant's slice and files untouched |
| `Backend.QuorumBackend.ChargeGrant` | src-tauri/src/backend.rs:917-946 | spends the grant the decision names and saves grants, then charges; stops at the first failed write |
| `Backend.QuorumBackend.Park` | src-tauri/src/backend.rs:950-970 | an escalation joins the queue and the queue is saved |
| `Backend.QuorumBackend.RejectDecision` | src-tauri/src/backend.rs:993-1070 | one `Ledger.Reject` step: off the queue, answer filed, charge refunded, refusal recorded, stopping where a write fails |
| `Backend.QuorumBackend.RefundCharge` | src-tauri/src/backend.rs:1019-1036 | the charge leaves the books and its units return to the grant, in memory and in the two files |
| `Backend.QuorumBackend.ApproveDecision` | src-tauri/src/backend.rs:1077-1140 | one `Ledger.Approve` step: a named human who matches the operator, on a decision that waits |
| `Backend.QuorumBackend.Status` | src-tauri/src/backend.rs:1144-1163 | reports exactly `DecisionStatus` of the tenant's slice |
| `Backend.QuorumBackend.RecordPrincipalAction` | src-tauri/src/backend.rs:1870-1923 | records a human's own act and makes it durable, or refuses a blank name or a degraded backend |
| `Backend.QuorumBackend.RecordDelegatedAction` | src-tauri/src/backend.rs:1928-1973 | the same for an agent acting under an allowance |
| `Backend.QuorumBackend.IssueGrant` | src-tauri/src/backend.rs:2073-2122 | a fresh id is filed under its agent, saved and recorded; an id in use anywhere in the tenant is refused |
| `LedgerSteps.FailedIssueStands` | src-tauri/src/backend.rs:2094-2121 | an issue that returns an error leaves the grant live if and only if its ceiling was readable and its id free |
| `LedgerSteps.FailedCastSpends` | src-tauri/src/backend.rs:2224-2260 | a cast that returns an error has spent its weight, in memory and where the write lands on disk, if and only if the allowance accepted it; a degraded backend records nothing of it |
| `LedgerSteps.DegradedCastFails` | src-tauri/src/backend.rs:1928-1973 | on a degraded backend every cast returns an error, accepted or not |
| `LedgerSteps.ReissueForgetsSpending` | src-tauri/src/backend.rs:2195-2221 | re-issuing an allowance id replaces it and forgets what it had spent |
| `Backend.QuorumBackend.RevokeIn` | src-tauri/src/backend.rs:2138-2152 | every grant of the list with the id is revoked, and whether there was one is reported |
| `Backend.QuorumBackend.RevokeGrant` | src-tauri/src/backend.rs:2127-2176 | one `Ledger.RevokeGrant` step |
| `Backend.QuorumBackend.IssueAllowance` | src-tauri/src/backend.rs:2179-2221 | one `Ledger.IssueAllowance` step; an id in use is overwritten, spent weight included |
| `Backend.QuorumBackend.CastVote` | src-tauri/src/backend.rs:2224-2260 | one `Ledger.CastVote` step: an accepted weight is spent in memory, then saved, then recorded, and stays spent where a later part fails; a cast that is not accepted changes nothing |
| `Backend.QuorumBackend.RevokeAllowance` | src-tauri/src/backend.rs:2263-2285 | one `Ledger.RevokeAllowance` step |
| `Backend.QuorumBackend.SetOperator` | src-tauri/src/backend.rs:742-756 | sets and saves the operator for every tenant's ledger at once and changes no slice |
| `Backend.QuorumBackend.SetActiveTenant` | src-tauri/src/backend.rs:572-625 | the tenant's files replace its slice, or nothing changes; the scope is set only when everything succeeded |
| `Backend.QuorumBackend.RefillGrants` | src-tauri/src/backend.rs:585-600 | the tenant's grants become the loaded list grouped by agent, in order, and no other tenant's move |
| `Backend.QuorumBackend.Reload` | src-tauri/src/backend.rs:574-610 | the slice becomes what `LoadSlice` reads from the files, or the first failing file is reported and nothing moves |
| `Backend.QuorumBackend.WithStore` | src-tauri/src/backend.rs:545-567 | a new process holds exactly a restart of the scope's tenant and an empty slice for every other |
| `Backend.QuorumBackend.TenantGrants` | src-tauri/src/backend.rs:628-634 | the flattened list groups back to the tenant's grants, whatever order the map yields agents in |
| `Backend.QuorumBackend.PersistGrants` | src-tauri/src/backend.rs:663-671 | the whole grants file is replaced by memory, or the write fails and the backend is degraded |
| `Backend.QuorumBackend.PersistEntry` | src-tauri/src/backend.rs:647-661 | the line and the count reach the log as the outcome says, and a failure degrades the backend |
| `Backend.QuorumBackend.CommitRecord` | src-tauri/src/backend.rs:1046-1070 | appends a consistent record to the chain in memory and then to the log |
| `Keyed.Entries` | src-tauri/src/backend.rs:636-645 | the list holds exactly the tenant's entries, each once under its key |
| `Keyed.Refill` | src-tauri/src/backend.rs:587-610 | retain-then-insert leaves the tenant exactly the loaded entries and every other tenant its own |
| `EvidenceStore.EvidenceStore.AppendRecord` | src-tauri/src/store.rs:521-570 | a line that lands is appended, the count follows only after it, and no other tenant's files change |
| `EvidenceStore.EvidenceStore.LoadChain` | src-tauri/src/store.rs:592-660 | line-by-line replay equals `Store.Load`: every link proved again, the first bad line or a short log refused |
| `EvidenceStore.EvidenceStore.LoadGrants` | src-tauri/src/store.rs:685-718 | grants are read in order up to the first that cannot be |
| `EvidenceStore.EvidenceStore.SaveGrants` | src-tauri/src/store.rs:663-683 | the file holds the new content or the old, never a mixture |
| `EvidenceStore.ReplayFails` | src-tauri/src/store.rs:592-660 | the first line that fails decides the whole load |
| `Files.GrantsRoundTrip` | src-tauri/src/store.rs:663-718 | grants written and read back are the same grants, consumed units and revocation included |
| `Files.GroupAppend` | src-tauri/src/backend.rs:628-634 | flattening an agent's grants into the file and grouping them again keeps their order |
| `Policy.FindCovering` | src-tauri/crates/quorum-policy/src/lib.rs:82-94 | the first grant that covers the action, or the fact that none does |
| `Policy.FindGrant` | src-tauri/src/backend.rs:919-930 | the first grant with the id, or the fact that there is none |
| `LedgerSteps.DecisionNamesPayingGrant` | src-tauri/crates/quorum-policy/src/lib.rs:156-200 | a decision names a grant exactly when it is governed, and that grant can pay the charge |
| `LedgerSteps.EvaluateAppends` | src-tauri/src/backend.rs:880-912 | an evaluation always has a principal when governed and a consistent record: those two errors cannot occur |
| `LedgerFields.EvaluateOnFields` | src-tauri/src/backend.rs:827-985 | an evaluation that returns a decision appends one record with the agent, class, model, correlation id, time and parameter hash it was given; where no grant of the agent may pay, it is ungoverned, names nobody, and nothing else changes; else the first grant that may pays its units, its principal answers, the charge is filed, an escalation waits with its fields, and verdict, oversight level and reason are those of one table over the egress policy, the threshold, the class and the grant's level |
| `LedgerFields.EvaluateRefuses` | src-tauri/src/backend.rs:827-855 | a degraded backend and a level that does not read are refused, and nothing changes |
| `LedgerFields.EvaluateSucceeds` | src-tauri/src/backend.rs:827-985 | with a level that reads and its writes landing, a running backend always decides |
| `LedgerFields.AllowedExactlyWhen` | src-tauri/crates/quorum-policy/src/lib.rs:156-200 | the verdict is allow if and only if some grant may pay and the first that may asks for no signature, the model may see the material, the class is not always signed and the cost is within the threshold |
| `LedgerFields.PrincipalOnFields` | src-tauri/src/backend.rs:1870-1923 | a human's act is refused on a degraded backend or without a name; otherwise its record holds each field as it was made, and the call succeeds if and only if its write lands |
| `LedgerFields.DelegatedOnFields` | src-tauri/src/backend.rs:1928-1973 | the same for an agent's act, with its human and its allowance on record |
| `LedgerFields.IssueOnFields` | src-tauri/src/backend.rs:2073-2122 | an issue is refused for a ceiling that does not read or an id in use; otherwise the grant is filed field by field as it was signed, and the call succeeds if and only if the writes land, the issuer has a name and the backend is not degraded |
| `LedgerCalls.RevokeOnFields` | src-tauri/src/backend.rs:2127-2176 | a revocation marks every grant of that agent and id and moves no other field; refused without a name, reported false where there is none |
| `LedgerCalls.AllowOnFields` | src-tauri/src/backend.rs:2179-2221 | an allowance stands under its id with every field as given and nothing spent |
| `LedgerCalls.CastOnFields` | src-tauri/src/backend.rs:2224-2260 | a cast is accepted if and only if the allowance is neither revoked nor expired, the class is one of its own, and the weight fits the cap; then the weight is spent and the vote is on record, field by field, else nothing changes and the error says why |
| `LedgerCalls.DisallowOnFields` | src-tauri/src/backend.rs:2263-2285 | revoking an allowance marks it and nothing else |
| `LedgerCalls.ApproveOnFields` | src-tauri/src/backend.rs:1077-1140 | an approval is refused, and nothing changes, on a degraded backend, without a name, by anyone whose trimmed name is not the operator's where one is set, and where nothing waits; on a recorded decision with its writes landing it succeeds, and records the decision again as approved by that person |
| `LedgerCalls.RejectOnFields` | src-tauri/src/backend.rs:993-1070 | a rejection is refused on a degraded backend and for an id not on record; with its writes landing it succeeds, takes the question away, files the refusal, gives the units back to the grant the charge names, and records the decision again as rejected |
| `LedgerCalls.StatusOnFields` | src-tauri/src/backend.rs:1144-1163 | granted, refused, waiting and unknown, each exactly, by the queue, the answers and the record |
| `LedgerCalls.OperatorOnFields` | src-tauri/src/backend.rs:742-756 | the operator is the trimmed name given, in memory at once and on disk if it lands |
| `LedgerCalls.ScopeOnFields` | src-tauri/src/backend.rs:572-625 | on a sound ledger memory becomes what the files hold, each of them, and only the scope file can fail the call |
| `LedgerCalls.RestartOnFields` | src-tauri/src/backend.rs:545-567 | a new process runs undegraded over the same files, with the settings and the slice they hold |
| `LedgerStanding.ApprovedByTheOperator` | src-tauri/src/backend.rs:777-789 | over any run, an approval on file was given by a person with a name who was, trimmed, the operator set at that step, where one was; and that operator is one some call appointed, or the start had |
| `LedgerStanding.OperatorsAreAppointed` | src-tauri/src/backend.rs:742-756 | over any run the operator is one some call appointed, or the start had; and once one is set in memory and on disk there always is one |
| `LedgerStanding.RevokedCastsNothing` | src-tauri/src/backend.rs:2263-2285 | after a reported revocation of an allowance, through any failures, reloads and crashes, every cast under its id is refused and changes nothing until an issue of that id |
| `LedgerRecords.VerdictMeans` | src-tauri/src/backend.rs:856-879 | each verdict exactly: ungoverned when nothing covers; else the first covering grant is named, and it is deny, approval or allow by the egress policy and the need of a signature |
| `LedgerRecords.EvaluateAllOrNothing` | src-tauri/src/backend.rs:827-985 | an evaluation that returns an error changed nothing or degraded the backend; one that returns a decision appended that very record, took the charge and asked the question |
| `LedgerRecords.RejectAllOrNothing` | src-tauri/src/backend.rs:993-1070 | the same for a rejection, whose record is the original as rejected |
| `LedgerRecords.ApproveAllOrNothing` | src-tauri/src/backend.rs:1077-1140 | the same for an approval, whose record names the human, whenever questions belong to recorded decisions |
| `LedgerRevocation.StepMoves` | src-tauri/src/backend.rs:2073-2176 | no step un-revokes a grant, moves it or reuses its id, and the file follows memory |
| `LedgerRevocation.RevocationIsFinal` | src-tauri/src/backend.rs:2127-2176 | after a reported revocation, through any failures, reloads and crashes, no decision names the grant again |
| `LedgerSteps.EvaluateIsSound` | src-tauri/src/backend.rs:827-985 | soundness survives an evaluation under any pattern of failed writes |
| `LedgerSteps.RejectIsSound` | src-tauri/src/backend.rs:993-1070 | and a rejection |
| `LedgerSteps.ApproveIsSound` | src-tauri/src/backend.rs:1077-1140 | and an approval |
| `LedgerSteps.IssueGrantIsSound` | src-tauri/src/backend.rs:2073-2122 | and an issue, so an id names one grant of the tenant |
| `LedgerSteps.CastVoteIsSound` | src-tauri/src/backend.rs:2224-2260 | and a vote, so no allowance is overspent |
| `LedgerSteps.FilesLoad` | src-tauri/src/backend.rs:574-583 | the files of a sound ledger always load: the durable prefix of the chain and the other files as they are |
| `LedgerSteps.CleanRestartIsIdentity` | src-tauri/src/backend.rs:545-610 | unless a write failed, the files load back to exactly the working set and a restart changes nothing at all |
| `LedgerRuns.RunIsSound` | src-tauri/src/backend.rs:572-739 | write-through refinement over every run: undegraded, every file is the slice; degraded, the log is the chain or the chain less one record |
| `LedgerRuns.FirstStart` | src-tauri/src/backend.rs:545-567 | an empty store starts sound and conserved |
| `LedgerAnswers.DegradedAppendsNothing` | src-tauri/src/backend.rs:647-661 | after a failed write no step but a restart appends to memory or disk |
| `LedgerBudget.ChargedConserves` | src-tauri/src/backend.rs:917-946 | a charge keeps consumed equal to outstanding charges |
| `LedgerBudget.RefundedConserves` | src-tauri/src/backend.rs:1022-1035 | a refund keeps it too |
| `LedgerBudget.RefundIsExact` | src-tauri/crates/quorum-policy/src/lib.rs:115-118 | a refund never saturates: it subtracts exactly what the charge took |
| `LedgerBudget.EvaluateIsClean` | src-tauri/src/backend.rs:827-985 | an evaluation keeps conservation and puts charges and questions only on recorded decisions |
| `LedgerBudget.RejectIsClean` | src-tauri/src/backend.rs:993-1070 | so does a rejection, failed writes included |
| `LedgerRuns.RunIsClean` | src-tauri/src/backend.rs:827-1163 | over every run that reads its files back only while no write has failed, failed writes included: consumed equals the outstanding charges of that agent and grant, within budget, every charge and question belongs to a recorded decision, and no decision is both waiting and answered |
| `LedgerBooks.BudgetHolds` | src-tauri/src/backend.rs:545-1163 | over every run from a running backend, with failed writes, reloads and crashes anywhere: consumed equals outstanding charges at every point if and only if no torn budget files (a charge or refund in the grants file alone) are read back and no governed action takes an id that still has a charge |
| `LedgerBooks.ReadBackBalances` | src-tauri/src/backend.rs:917-1036 | a step fails and the backend runs on degraded, through any steps up to the read-back: the budget read back balances if and only if the step moved no charge, or its charges write landed, or no grants write landed after the move, neither its own nor an issue's or a revocation's |
| `LedgerBooks.IssueTearsTheBudget` | src-tauri/src/backend.rs:2107-2110 | an action's grants write fails and a restart would find the budget in order; issue any grant with a free id first, and the restart finds it out of balance |
| `LedgerBooks.RevocationTearsTheRefund` | src-tauri/src/backend.rs:2138-2152 | the same for a rejection whose grants write fails, and a revocation after it |
| `LedgerBooks.NextChargeOverwrites` | src-tauri/src/backend.rs:934-945 | an action crashes just before its record; the next governed action takes the id, its charge replaces the first, and the grant is out of balance |
| `LedgerExample.OverchargedExample` | src-tauri/src/backend.rs:934-985 | a run from a first start, step by step, in which that happens |
| `LedgerAnswers.RejectRefunds` | src-tauri/src/backend.rs:1019-1036 | a rejection gives back this decision's charge, or nothing when there is none |
| `LedgerAnswers.ChargeStaysGone` | src-tauri/src/backend.rs:1022-1030 | over any run, failed writes, reloads and crashes included, a decision on record with no charge in memory or on disk never has one again |
| `LedgerAnswers.RefundedOnce` | src-tauri/src/backend.rs:1022-1035 | after a rejection that succeeded, over any later run, crashes and lossy reloads included, a second rejection of the decision leaves every grant as it is |
| `LedgerAnswers.StepEffect` | src-tauri/src/backend.rs:827-1163 | all that any step can do to the record, the questions and the answers, in memory and on disk |
| `LedgerAnswers.StatusIsOneWay` | src-tauri/src/backend.rs:1144-1163 | over any run that reads its files back only while no write has failed, a decision moves only from pending to approved to rejected |
| `LedgerAnswers.ApprovedOnlyByCall` | src-tauri/src/backend.rs:1077-1140 | a decision on file as approved was approved by a call on that id, by a named human who matched the operator then set, whatever failed or crashed |
| `LedgerAnswers.RejectIsFinal` | src-tauri/src/backend.rs:993-1070 | a rejection that succeeds is on file, in memory and on disk |
| `LedgerAnswers.RefusalIsFinal` | src-tauri/src/backend.rs:993-1163 | after it, through any failures and crashes, the decision is reported refused for ever |
| `LedgerCrash.RestartReads` | src-tauri/src/backend.rs:545-610 | what a new process finds after the old one stopped anywhere |
| `LedgerCrash.EvaluateConservesAcrossCrash` | src-tauri/src/backend.rs:944-945 | with a restart right after the action, its budget survives if and only if the crash is not between the grants write and the charges write |
| `LedgerCrash.RejectConservesAcrossCrash` | src-tauri/src/backend.rs:1033-1034 | with a restart right after the rejection, the same for its refund |
| `LedgerCrash.OnRecordAcrossCrash` | src-tauri/src/backend.rs:917-985 | after a crash every charge and question belongs to a recorded decision if and only if the charge did not land without the record |
| `LedgerCrash.LostRecordHaunts` | src-tauri/src/backend.rs:950-985 | a crash just before the record of an escalation leaves its question behind |
| `LedgerCrash.ApprovingANonDecision` | src-tauri/src/backend.rs:1100-1125 | approving such a question fails and files the approval all the same |
| `LedgerCrash.NextDecisionInherits` | src-tauri/src/backend.rs:912-915 | the next escalation takes the id, and the filed approval with it |
| `LedgerCrash.RefusalAcrossCrash` | src-tauri/src/backend.rs:993-1020 | just after the restart, a decision refused while it waits reads as approved if and only if an approval was already on file under its id and only the queue write landed |
| `LedgerRefusal.RefusalHolds` | src-tauri/src/backend.rs:993-1163 | over every later run, crashes anywhere included, a decision refused while it waits is never reported approved if and only if it is on record and, with a store, the queue write landed and either the answer write did or no approval was on file under its id |
| `LedgerRefusal.UnqueuedWaitsAgain` | src-tauri/src/backend.rs:1008-1016 | when the queue write fails, the question waits again after a restart, as if never answered |
| `LedgerRefusal.QueuedRefusalHolds` | src-tauri/src/backend.rs:993-1163 | so where no decision is both waiting and answered, a refusal whose queue write lands holds for ever, wherever it stops |
| `LedgerQuestions.WaitingAsksItsRecord` | src-tauri/src/backend.rs:950-970 | after any run, whatever crashed on the way: in a running backend a question that waits under an escalation on record carries that record's agent, class, correlation id and time |
| `LedgerApproval.ApprovalWasAccepted` | src-tauri/src/backend.rs:1077-1104 | every approval on file goes back to a call a running backend accepted on a question waiting under that id |
| `LedgerApproval.OriginsAreRight` | src-tauri/src/backend.rs:993-1163 | over every run the answer in memory, and the one on disk, is what the step named as its origin filed; a reload takes the one on disk, a call that stops at the queue files none |
| `LedgerApproval.GrantedStands` | src-tauri/src/backend.rs:1144-1163 | a decision reported approved rests on the one step that filed the answer a poll reads, and that step is an accepted approval of a question waiting under the id |
| `LedgerApproval.ApprovedAsAskedIff` | src-tauri/src/backend.rs:1077-1140 | a decision reported approved is an escalation whose own question, agent, class, correlation id and time, a human approved with that record in place, if and only if the step that filed the approval found an escalation on record under the id |
| `LedgerApproval.CleanApprovalsAreAsAsked` | src-tauri/src/backend.rs:827-1163 | while files are read back only when no write has failed, every decision reported approved is of that kind |
| `LedgerApproval.FirstStartAsksNothing` | src-tauri/src/backend.rs:545-567 | a first start meets the conditions of these |
| `LedgerCrash.RefusalLostToCrashes` | src-tauri/src/backend.rs:993-1163 | how a run gets there: two crashes and an approval in between |
| `LedgerExample.ActionTakesTheApproval` | src-tauri/src/backend.rs:912-985 | approve a question a crash left behind, and the next action takes the id: one the policy denied or left ungoverned is reported approved at once |
| `LedgerExample.ApprovalTakesTheAction` | src-tauri/src/backend.rs:1077-1140 | let another action take the id first, and approving the old question succeeds and approves that action |
| `LedgerExample.MistakenExample` | src-tauri/src/backend.rs:1077-1140 | a run from a first start in which that happens while every question and charge belongs to a recorded decision |
| `LedgerExample.RefusalLostExample` | src-tauri/src/backend.rs:993-1163 | a run from a first start, step by step: an escalation is waiting, is refused, and after the crash reads as approved |
| `LedgerExample.UnfiledApprovalIsUndone` | src-tauri/src/backend.rs:1095-1104 | an approval whose queue write fails returns an error, and after a restart the backend is what it was before the call |
| `LedgerExample.UnfiledExample` | src-tauri/src/backend.rs:993-1163 | a run from a first start: the only call that tried to approve an escalation returned an error and filed nothing, a refusal followed, and it reads as approved on the approval given before it was asked for |
| `LedgerEgress.ControlIsByName` | src-tauri/src/store.rs:406-417 | under a policy that names levels, the control of a level reaches an input if and only if the input spells the level by its name, or the level is not controlled, or the model is permitted there |
| `LedgerEgress.DenialIsByName` | src-tauri/src/backend.rs:866-879 | a governed action is denied exactly when its level forbids the model, if and only if the level is spelled by its name or the model is permitted there |
| `LedgerEgress.DefaultDenial` | src-tauri/src/store.rs:390-417 | under the default policy, whatever model is named, a governed action is denied if and only if its level is CUI or ITAR and is spelled by its name |
| `LedgerExample.LowerCaseSlipsThrough` | src-tauri/src/backend.rs:866-879 | an agent without a named model is denied work at "CUI" and allowed the same work at "cui" |
| `Bridge.Handle` | src-tauri/src/agent_bridge.rs:223-345 | one request: refused, answered from the status, or one evaluation in the active tenant; nothing of any other tenant moves |
| `Bridge.OnlyIntentsAct` | src-tauri/src/agent_bridge.rs:262-345 | only an admitted caller's intent changes anything |
| `Bridge.ReplyOnFields` | src-tauri/src/agent_bridge.rs:223-345 | every reply on the request alone: who is turned away and with which status, what a poll is told by the queue and the answers, and that a decided intent may proceed if and only if the verdict is allow |
| `Bridge.UnscopedOnFields` | src-tauri/src/agent_bridge.rs:223-345 | without an active tenant the same callers are turned away, and the rest learn that there is none |
| `Bridge.ProceedsExactlyWhen` | src-tauri/src/agent_bridge.rs:304-345 | an admitted intent that is decided may proceed if and only if some grant may pay and the first that may asks for no signature, the model may see the material, the class is not always signed and the cost is within the threshold |
| `Bridge.PollsItsDecision` | src-tauri/src/agent_bridge.rs:262-270 | an agent that polls the id it was given asks about that decision |
| `Bridge.PolledGoNeedsHuman` | src-tauri/src/agent_bridge.rs:276-287 | along any run, a poll that says proceed rests on the step that filed the answer it reads: an accepted approval of a question waiting under that id, by a named human who matched the operator |
| `Bridge.PolledGoIsAsAsked` | src-tauri/src/agent_bridge.rs:276-287 | the go is for the very escalation the human was shown, record and question, if and only if the step that filed the approval found an escalation on record under the id |
| `Bridge.CleanGoIsAsAsked` | src-tauri/src/agent_bridge.rs:276-287 | in a run that reads files back only while no write has failed, every go is |
| `Bridge.GoForAnUngovernedAction` | src-tauri/src/agent_bridge.rs:276-287 | after one crash a go can be for an ungoverned action: two runs from a first start |
| `Bridge.GoOnAnOldApproval` | src-tauri/src/agent_bridge.rs:276-287 | a go can be for an escalation nobody approved: a run from a first start in which the one approval tried filed nothing and the last word was a refusal |
| `Bridge.AllowNeedsAuthority` | src-tauri/src/backend.rs:2848-2897 | an allow names a live grant of the agent that covers class, level and cost and asks for no signature, and the egress policy permits the model at the classification text as given |
| `Bridge.GoAheadIsBacked` | src-tauri/src/agent_bridge.rs:304-345 | an intent told to proceed is backed by such a grant, with the egress policy asked about the text as given, and its record, charge and grant are on disk before the agent hears |
| `Bridge.VerdictIsReported` | src-tauri/src/agent_bridge.rs:330-340 | the reply carries the verdict that was decided and recorded |
| `Audit.CanonicalCommits` | src-tauri/crates/quorum-audit/src/lib.rs:152-171 | two framed records share an encoding if and only if they agree once an absent authority is read as an empty one |
| `Audit.AbsentAuthorityIsAliased` | src-tauri/crates/quorum-audit/src/lib.rs:152-171 | so two different consistent records do share one: the claim that no two do is false |
| `Audit.CanonicalReads` | src-tauri/crates/quorum-audit/src/lib.rs:152-171 | read back by length and tag, a record's bytes give every field in its place: five framed fields, two tag bytes, two framed fields, and the time in two's complement |
| `Audit.AppendOnFields` | src-tauri/crates/quorum-audit/src/lib.rs:203-216 | a record enters the chain if and only if it names what its verdict has to, and its hash is that of the head before it and its own bytes |
| `Audit.AppendLinks` | src-tauri/crates/quorum-audit/src/lib.rs:203-216 | an append keeps the chain linked and its head right |
| `Audit.Verify` | src-tauri/crates/quorum-audit/src/lib.rs:231-245 | `verify` accepts exactly the linked chains |
| `Audit.HeadCommits` | src-tauri/crates/quorum-audit/src/lib.rs:180-216 | one head, one history: the same records, or two inputs hashed on the way that collide, or a record that spells the tenant's own name |
| `Store.VerdictRoundTrip` | src-tauri/src/store.rs:90-109 | every verdict reads back from its text |
| `Store.HicRoundTrip` | src-tauri/src/store.rs:111-128 | every oversight level does |
| `Store.ClassificationRoundTrip` | src-tauri/src/store.rs:130-145 | every classification does |
| `Store.GrantHicRoundTrip` | src-tauri/src/store.rs:147-160 | every grant level does |
| `Hex.Hex32` | src-tauri/src/store.rs:169-184 | the loop reads the longest good prefix and fills up with zeros |
| `Hex.Hex32RoundTrip` | src-tauri/src/store.rs:162-184 | a hash printed and read back is the hash |
| `Store.OwnLogReplays` | src-tauri/src/store.rs:592-649 | the log of a chain replays to that chain, and each prefix to the matching prefix |
| `Store.LoadedIsLinked` | src-tauri/src/store.rs:592-649 | whatever loads is linked and ends in the last stored hash |
| `Store.LoadMeans` | src-tauri/src/store.rs:592-660 | a log loads as exactly this chain if and only if the chain is the tenant's and linked, the record lines say its entries one for one and field by field, no line is garbled, blank lines aside, and the count is no more than there are |
| `Store.FaultIs` | src-tauri/src/store.rs:592-649 | why a line is refused: it does not parse, its verdict or level is none there is, its authority is wrong, or it does not chain |
| `Store.FirstFaultIsNamed` | src-tauri/src/store.rs:592-649 | a load that fails at a line names the first such line, counted from 1 |
| `Store.VerdictTexts` | src-tauri/src/store.rs:90-109 | the six texts of the verdicts, and no other text reads |
| `Store.HicTexts` | src-tauri/src/store.rs:111-128 | the five texts of the oversight levels, and no other text reads |
| `Files.RefusedGrant` | src-tauri/src/store.rs:685-718 | a stored grant is refused, by its id, if and only if its ceiling reads as no level |
| `Store.StoredLogIsTamperEvident` | src-tauri/src/store.rs:592-649 | two logs of a tenant that load and end in one stored hash hold the same records, or yield a collision among the inputs hashed for them, or a planted genesis |
| `Store.AppendsKeepTheLog` | src-tauri/src/store.rs:521-590 | any sequence of appends, failed ones included, leaves the log of a chain with the count behind by the torn appends |
| `Store.TruncationIsRefused` | src-tauri/src/store.rs:559-658 | count plus torn appends is the log length, the intact log loads, and a prefix loads if and only if it is no shorter than the count |
| `Merkle.MerkleRoot` | src-tauri/crates/quorum-audit/src/lib.rs:348-363 | the level-by-level loop computes the root of the tree |
| `Merkle.SmallRoots` | src-tauri/crates/quorum-audit/src/lib.rs:326-363 | what is hashed, to the byte, for none, one, two and three records |
| `Merkle.MerkleProof` | src-tauri/crates/quorum-audit/src/lib.rs:281-312 | the loop computes the path of the record, or none past the end |
| `Merkle.VerifyInclusion` | src-tauri/crates/quorum-audit/src/lib.rs:370-380 | the fold accepts exactly the proofs whose climb ends at the root |
| `Merkle.InclusionIsComplete` | src-tauri/crates/quorum-audit/src/lib.rs:281-312 | every record's proof verifies, odd levels included |
| `Merkle.InclusionIsSound` | src-tauri/crates/quorum-audit/src/lib.rs:370-380 | a proof of any shape that verifies proves a record of the list, unless an input of the check collides with an input of the tree |
| `Merkle.RootCommits` | src-tauri/crates/quorum-audit/src/lib.rs:348-363 | given how many records there are, the root fixes every one of them, unless inputs of the two trees collide |
| `Merkle.RepeatedLastIsInvisible` | src-tauri/crates/quorum-audit/src/lib.rs:343-359 | it does not fix how many: repeating the last of an odd number of records gives the same root |
| `MerkleLists.RootFixesTheCompletedList` | src-tauri/crates/quorum-audit/src/lib.rs:343-363 | two non-empty lists share a root if and only if they are one list once each odd level is completed by repeating its last block, unless inputs hashed for the two roots collide |
| `MerkleLists.CompletingAppends` | src-tauri/crates/quorum-audit/src/lib.rs:343-363 | completing a list only adds records at its end |
| `MerkleLists.SixAndEight` | src-tauri/crates/quorum-audit/src/lib.rs:343-363 | six records and eight can share a root: the odd level need not be the lowest |
| `Abi.TailOf` | src-tauri/src/ctor.rs:297-316 | length and payload, padded with zeros to the next word boundary |
| `Abi.StringTailBytes` | src-tauri/src/ctor.rs:297-316 | a string's tail to the byte: 32-byte length, payload, zeros to the next boundary and no further |
| `Abi.AbiEncode` | src-tauri/src/ctor.rs:345-360 | one pass builds the head/tail encoding of the Solidity contract ABI, section "Formal Specification of the Encoding" |
| `AbiDecode.WordU64IsExact` | src-tauri/src/chain.rs:612-620 | a word reads as a number exactly when it is that number's encoding |
| `AbiDecode.DecodeWordArrayAt` | src-tauri/src/chain.rs:683-697 | the loop returns all the words, or names the first that is missing |
| `AbiDecode.DecodeAddressArrayAt` | src-tauri/src/chain.rs:665-680 | the same for addresses, as text |
| `AbiDecode.Layout` | src-tauri/src/ctor.rs:345-360 | every head word and every tail stands where the layout says, after any whole number of words |
| `AbiDecode.RoundTrip` | src-tauri/src/ctor.rs:345-360 | every argument of every list whose encoding is below 2^64 bytes reads back: static ones from their head, dynamic ones at an aligned offset in range |
| `AbiDecode.Injective` | src-tauri/src/ctor.rs:341-360 | lists of one shape with one encoding are one list |
| `AbiDecode.StringRoundTrip` | src-tauri/src/chain.rs:639-663 | a top-level string return reads back |
| `AbiDecode.DecodedWordsStand` | src-tauri/src/chain.rs:683-697 | an array that decodes stands there, count first, from the word its offset falls in, aligned or not |
| `AbiDecode.ArrayReadsWhatStands` | src-tauri/src/chain.rs:683-697 | an array in bytes a 64-bit offset can address decodes to these words if and only if it stands, count first, from the word its offset falls in |
| `AbiDecode.ArrayRefusals` | src-tauri/src/chain.rs:683-697 | else it is cut off before its count, its count is no number, or the first missing word is named |
| `AbiDecode.DecodedPayloadStands` | src-tauri/src/chain.rs:645-663 | a string takes its length from that word and its bytes from 32 past the offset as given |
| `TenantNode.DecodesTheStandardEncoding` | src-tauri/src/chain.rs:765-799 | the standard encoding of any node decodes to it, three numbers cut to a byte, both inner offsets from the struct start |
| `TenantNode.SmallFieldsSurvive` | src-tauri/src/chain.rs:775-786 | the three numbers come back whole if and only if each is below 256 |
| `TenantNode.NothingElseIsLost` | src-tauri/src/chain.rs:765-799 | nodes that decode alike differ only in what the reader drops |
| `Calldata.NumberIsWord` | src-tauri/src/deploy.rs:205-218 | a number in 64 hex digits is the hex of its word |
| `Calldata.WordHexIsAWord` | src-tauri/src/deploy.rs:229-232 | padded text is the hex of some word if and only if it is at most 64 lower-case hex digits after the prefix |
| `Calldata.PadBytes` | src-tauri/src/deploy.rs:235-244 | the hex of the payload padded to a whole word |
| `Encoders.EncodeWords` | src-tauri/src/anchor.rs:110-117 | selector and standard encoding of N words |
| `Encoders.EncodeRegister` | src-tauri/src/anchor.rs:126-164 | selector and standard encoding of the six arguments, the empty id included |
| `Encoders.EncodeDeployProtocol` | src-tauri/src/deploy.rs:184-226 | the text is nine head texts and three padded tails |
| `Encoders.DeployIsAbi` | src-tauri/src/deploy.rs:184-226 | that text is the standard encoding of the nine arguments if and only if the five identifiers are the texts of the five words |
| `Encoders.EncodePredict` | src-tauri/src/deploy.rs:873-888 | the text is three head texts and two padded tails |
| `Encoders.PredictIsAbi` | src-tauri/src/deploy.rs:873-888 | that text is the standard encoding if and only if the salt is the text of its word |
| `Encoders.EncodeTemplateId` | src-tauri/src/compile.rs:461-473 | the text is two head texts and one padded tail |
| `Encoders.TemplateIdIsAbi` | src-tauri/src/compile.rs:461-473 | that text is the standard encoding of name and version |
| `Ctor.EnvelopeIdentities` | src-tauri/src/ctor.rs:221-240 | the loop returns every identity in order, or the first principal that is no address or a repeat |
| `Ctor.IdentitiesBind` | src-tauri/src/ctor.rs:210-240 | principals bind if and only if there are at most 64, each is an address, and no two are one identity |
| `Ctor.CaseDoesNotMatter` | src-tauri/src/ctor.rs:204-216 | two spellings of one address are one identity, so no list that holds both binds |
| `Ctor.Encode` | src-tauri/src/ctor.rs:383-463 | constructor bytes come out if and only if the template is one of the two, its number is given, the people named can be bound and can meet it, and the contract address is known; they read back as that number and those identities |
| `Ctor.EncodedOpens` | src-tauri/src/ctor.rs:364-374 | for both templates the first six arguments read back from their own fields: tenant id, template id, version, spec hash, spec id at its offset, and the envelope contract |
| `Ctor.Refusals` | src-tauri/src/ctor.rs:383-466 | what a context lacks, in the order it is asked for; any other template is refused |
| `Ctor.RefusalNamesTheFirstBad` | src-tauri/src/ctor.rs:221-240 | a refused list names its first principal that is no address or repeats one, and over 64 its length |
| `Ctor.IdentityIs` | src-tauri/src/ctor.rs:204-216 | an identity is the hash of the lower-case address, whatever space stands around it and however its prefix is written; forty hex digits make an address |
| `Ctor.ParamIs` | src-tauri/src/ctor.rs:466-479 | a parameter is read if and only if it is there and is a number |
| `Basics.ParsedIsPrinted` | src-tauri/src/ctor.rs:466-479 | a number that parses is digits after at most one plus sign: without leading zeros, the number as printed |
| `Basics.PrintedIsParsed` | src-tauri/src/ctor.rs:466-479 | and every such text that fits parses as that number |
| `Basics.TrimMeans` | src-tauri/src/backend.rs:777-789 | trimming takes all the space off both ends and nothing else |
| `Basics.SpaceIs` | src-tauri/src/backend.rs:777-789 | the 25 characters taken for space |
| `Basics.LowerIs` | src-tauri/src/ctor.rs:204-216 | the 26 capitals become small, each its own, and any other character stays |
| `Ctor.ThresholdIsMeetable` | src-tauri/src/ctor.rs:386-404 | a threshold protocol encodes if and only if its people bind and can meet the threshold; the bytes read back as their identities and the threshold |
| `Ctor.RosterIsMeetable` | src-tauri/src/ctor.rs:411-436 | a roster protocol encodes if and only if at least one must approve and enough are left beside a proposer |
| `Calendar.CivilIs` | src-tauri/src/backend.rs:140-151 | the date found is valid and its day number is the one given |
| `Calendar.DaysIsInverse` | src-tauri/src/backend.rs:140-151 | every valid date is found from its day number: a one-to-one correspondence |
| `Calendar.DayByDay` | src-tauri/src/backend.rs:140-151 | one day later is the next calendar day, month lengths as in section 5.7 and leap years as in Appendix C of RFC 3339 |
| `Calendar.EpochDay` | src-tauri/src/backend.rs:140-151 | day 0 is 1970-01-01 |
| `Calendar.NextDaySecs` | src-tauri/src/protocols.rs:73-84 | 86400 seconds later is exactly the next day |
| `Calendar.NextDayMillis` | src-tauri/src/backend.rs:135-158 | and the same time of day |
| `Calendar.InstantReadsBack` | src-tauri/src/backend.rs:135-158 | date and clock give back the instant to the second |
| `Calendar.NothingOverflows` | src-tauri/src/protocols.rs:73-84 | for every 64-bit input no intermediate leaves 64 bits |
| `Calendar.TextOrderIsTimeOrder` | src-tauri/src/protocols.rs:84 | in the years -1 to 9999 text order is time order, and text determines the date |
| `Calendar.StampOrderIsTimeOrder` | src-tauri/src/backend.rs:135-158 | in those years two stamps with the time of day order as their instants do, to the second |
| `Calendar.SortedIsNewestFirst` | src-tauri/src/protocols.rs:211 | with every time in those years, a list is sorted descending by text if and only if it is sorted by day, newest first, rows without a time last |
| `Calendar.FifthDigitSortsFirst` | src-tauri/src/protocols.rs:84 | the second after the range sorts before its last |
| `Calendar.SecondNegativeYearSortsLast` | src-tauri/src/protocols.rs:84 | the second before the range sorts after its first, so no wider range would do |
| `Units.FormatIsExact` | src-tauri/src/chain.rs:291-306 | the text is canonical and stands for exactly the amount |
| `Units.FormatIsInjective` | src-tauri/src/chain.rs:291-306 | no two amounts are printed alike |
| `Units.EveryCanonicalTextIsPrinted` | src-tauri/src/chain.rs:291-306 | every canonical text is the text of the amount it stands for |
| `Marking.ContainsWord` | src-tauri/src/ingest.rs:181-201 | true if and only if a delimited occurrence exists |
| `Marking.BoundaryIs` | src-tauri/src/ingest.rs:185 | a word is made of ASCII letters, digits and underscores, and any other byte bounds it |
| `Marking.UpperIs` | src-tauri/src/ingest.rs:156 | the small ASCII letters become capital, each its own, and any other byte stays |
| `Marking.DetectMarking` | src-tauri/src/ingest.rs:155-175 | nothing if and only if nothing matches; else an entry of the highest level that matches, the earliest at that level |
| `Marking.OrderDoesNotMatter` | src-tauri/src/ingest.rs:118-140 | the level depends on the set of entries, not on their order |
| `Marking.WordInJoined` | src-tauri/src/ingest.rs:181-201 | a one-line phrase stands in two texts joined by a newline if and only if it stands in one of them |
| `Marking.JoinedLevel` | src-tauri/src/ingest.rs:155-175 | the level of joined texts is the higher of theirs, so adding lines never lowers it |
| `Marking.MarkingsAreOneLiners` | src-tauri/src/ingest.rs:128-140 | this applies to the table: no phrase holds a newline |
| `Marking.ReportsTheLongest` | src-tauri/src/ingest.rs:124-127 | with the table longest first, the phrase reported is a longest that matches at its level |
| `Marking.ScanMeans` | src-tauri/src/ingest.rs:118-175 | with the source's table: the level reported is the one level the text has, and the phrase reported is a longest of those it carries at that level |
| `Marking.JoinedScan` | src-tauri/src/ingest.rs:118-175 | with the source's table, two documents joined by a newline scan to the higher of their two levels, none counting lowest |
| `Marking.LevelsAreReadFrom` | src-tauri/src/ingest.rs:128-175 | which phrases each level is read from: export control first, then CUI, then company markings, then public release, and nothing from any other text |
| `Chunks.CutAtBlankLines` | src-tauri/src/ingest.rs:210 | paragraphs are cut after every blank line and nowhere else |
| `Chunks.ChunkText` | src-tauri/src/ingest.rs:204-233 | the loop returns the chunks of the slices, offsets carried along |
| `Chunks.NothingIsLost` | src-tauri/src/ingest.rs:204-233 | the slices are the whole text but for a blank tail, and every closed one is the shortest run of paragraphs reaching the target |
| `Chunks.ChunksCiteTheText` | src-tauri/src/ingest.rs:204-233 | each chunk is the trim of the slice at its recorded offset, numbered from 0 |
| `Chunks.OffsetsIncrease` | src-tauri/src/ingest.rs:204-233 | offsets strictly increase |
| `Interview.Interview.constructor` | src-tauri/src/interview.rs:196-209 | every topic once, in order, nothing answered or proposed |
| `Interview.FreshAsks` | src-tauri/src/interview.rs:196-209 | the seven questions in the order they are asked, with no history and no proposal |
| `Interview.Interview.Propose` | src-tauri/src/interview.rs:217-224 | replaces the topic's proposal and touches no answer |
| `Interview.Interview.RecordAnswer` | src-tauri/src/interview.rs:256-287 | supersedes the standing answer, or changes nothing |
| `Interview.Interview.AnswerNext` | src-tauri/src/interview.rs:290-293 | answers the first open topic |
| `Interview.Interview.Revise` | src-tauri/src/interview.rs:301-309 | answers the topic named |
| `Interview.Interview.ConfirmProposal` | src-tauri/src/interview.rs:316-331 | answers the first open topic with its proposal's words and place |
| `Interview.StepExtends` | src-tauri/src/interview.rs:256-331 | a recording step adds one attributed answer at the end of one history; any other step leaves every turn |
| `Interview.RefusedExactlyWhen` | src-tauri/src/interview.rs:256-331 | why a step is refused: nothing pending, nothing proposed, nobody named or nothing said; and only then |
| `Interview.HistoriesGrow` | src-tauri/src/interview.rs:256-331 | over any run histories only grow at their end and what is answered stays answered |
| `Interview.AnswersAreCounted` | src-tauri/src/interview.rs:256-331 | the answers on file number the steps that succeeded in recording one |
| `Interview.EveryAnswerIsAttributed` | src-tauri/src/interview.rs:264-270 | every answer ever on file names its author and says something |
| `Interview.ConfirmedWasProposed` | src-tauri/src/interview.rs:316-331 | an answer filed as confirmed was proposed earlier, for that topic, in those words, from that place |
| `Interview.ProposalsAnswerNothing` | src-tauri/src/interview.rs:217-245 | a proposal leaves what is outstanding and every other topic's proposal |
| `Interview.AnswersCloseTheFirst` | src-tauri/src/interview.rs:230-245 | an answer closes exactly the pending topic; the rest stay outstanding in order |
| `Spec.Draft` | src-tauri/src/spec.rs:111-144 | one clause per answered topic, numbered from 1, with that answer's text and author |
| `Spec.DraftOnFields` | src-tauri/src/spec.rs:111-144 | each clause field by field: its number, its topic's lead and key, the answer's words, its author, and where they were confirmed from |
| `Spec.CompleteMeansSeven` | src-tauri/src/spec.rs:111-144 | after any run the draft has seven clauses if and only if the interview is complete, and no topic twice |
| `Spec.Candidates` | src-tauri/src/spec.rs:198-220 | the sentences of a chunk that state a governed value, in order |
| `Spec.CandidateMeans` | src-tauri/src/spec.rs:198-220 | a candidate is a sentence, trimmed, not empty, at most 240 bytes, on the first of four topics it speaks of, each by its words |
| `Spec.SentencesMeans` | src-tauri/src/spec.rs:198-202 | sentences are what stands between full stops and newlines: none holds one, and with them they make up the text |
| `Text.ContainsIs` | src-tauri/src/spec.rs:205-215 | to contain a pattern is to be made of something, the pattern, and something |
| `Spec.ProposeFromDocuments` | src-tauri/src/spec.rs:176-192 | every candidate of every chunk in reading order is offered, and taken up only for a topic without a proposal |
| `Spec.OfferOnFields` | src-tauri/src/spec.rs:176-192 | each offer has its candidate's topic and words and names the document and the chunk |
| `Spec.FirstOfferWins` | src-tauri/src/spec.rs:176-192 | a topic keeps the proposal it had, or takes the first offer |
| `Spec.TakenIsIdempotent` | src-tauri/src/spec.rs:176-192 | reading the documents again changes nothing |
| `Compile.CompileSpec` | src-tauri/src/compile.rs:174-249 | the loop files every clause's outcome in its list |
| `Compile.EveryClauseOnce` | src-tauri/src/compile.rs:174-249 | every clause has exactly one entry, in spec order, and the lists hold nothing else |
| `Compile.NotADumpingGround` | src-tauri/src/compile.rs:140-249 | structural if and only if the topic says so, waived if and only if the words say so, mapped if and only if registered and typed |
| `Compile.MappedOnFields` | src-tauri/src/compile.rs:162-276 | a mapped clause names its topic's template and the first row of that name, and carries the one parameter of its topic: a threshold above zero, a number of approvers, a ceiling, or seconds under the right name |
| `Compile.KeptOnFields` | src-tauri/src/compile.rs:174-200 | a structural clause keeps its first value, and a waived one its words, trimmed |
| `Compile.UnmappedOnFields` | src-tauri/src/compile.rs:209-290 | why a clause is unmapped: an empty catalog, a missing template, or words without a count, a duration or a level |
| `Compile.MoreTemplatesOnlyMap` | src-tauri/src/compile.rs:209-249 | more templates keep every outcome but unmapped ones, and map one of those exactly when its template was missing and its words type |
| `Compile.DeployableStays` | src-tauri/src/compile.rs:135-137 | deployable if and only if nothing is unmapped and something mapped, and registering templates never takes that away |
| `Compile.TargetIsFirstMapped` | src-tauri/src/deploy.rs:271-279 | a deployment's target is the first clause in spec order that mapped, once nothing is unmapped |
| `Compile.ThresholdIsSane` | src-tauri/src/compile.rs:259-272 | a mapped threshold is the number read, from 1 to 64 |
| `Compile.RolesFallBack` | src-tauri/src/compile.rs:273-276 | a roles clause always maps once its template is there; what is no count becomes 1 |
| `Compile.ParseDurationSecs` | src-tauri/src/compile.rs:341-362 | the loop computes the first number followed by a unit |
| `Compile.UnitsOfTime` | src-tauri/src/compile.rs:341-362 | sixty seconds to the minute, sixty minutes to the hour, twenty-four hours to the day, seven days to the week, in every spelling |
| `Compile.NumberWords` | src-tauri/src/compile.rs:325-339 | the counting words to six and the digits to 64 read as what they stand for |
| `Text.AlphanumericCoreMeans` | src-tauri/src/compile.rs:325-326 | a token is read without what is no letter or digit at its ends, and nothing else is dropped |
| `Text.AlphabeticCoreMeans` | src-tauri/src/compile.rs:345 | a unit likewise, letters alone |
| `Compile.DurationIsFirstPair` | src-tauri/src/compile.rs:341-362 | none if and only if no number stands before a unit; else the first such pair |
| `Compile.StricterWins` | src-tauri/src/compile.rs:364-381 | the stricter level named wins wherever it stands |
| `Text.PartsMeans` | src-tauri/src/compile.rs:364-381 | the words a level is looked for among are what stands between characters that are no letter or digit |
| `Text.TrimDotsMeans` | src-tauri/src/compile.rs:156-160 | full stops at the end of a waiver go, all of them and nothing else |
| `Compile.CountIsTheFirstNumber` | src-tauri/src/compile.rs:308-323 | without "N of M", a text about approving gives a count if and only if any token is a number |
| `Compile.NOfMIsN` | src-tauri/src/compile.rs:308-316 | "N of M" gives N, for any N up to 64 |
| `Text.FindIsFirst` | src-tauri/src/compile.rs:311 | the first place is found, and none if and only if there is none |
| `Text.WordBefore` | src-tauri/src/compile.rs:322 | words end at any space, and space between them is skipped |
| `Compile.DaysBecomeAThreshold` | src-tauri/src/compile.rs:302-323 | so "approval within N business days" gives the threshold N, which the comment above the function rules out |
| `Pipeline.ThresholdReachesTheContract` | src-tauri/src/ctor.rs:386-404 | an answer that maps reaches the contract as the number its words say, and encodes if and only if that many people bind |
| `Pipeline.RolesReachTheContract` | src-tauri/src/ctor.rs:411-436 | a roles answer encodes if and only if its number, or 1, is not zero and leaves a proposer |

## Left out

- Meetings and workspaces: scheduling, closing, ratifying and restoring them, and their
  files. `close_meeting` changes its record before a step that can fail.
- JSON text: the stored structs are values, and a log line is a record line, a blank or an
  unreadable one. Reading errors of the operating system are not modelled, only what the
  files hold.
- The hash functions (BLAKE3, Keccak) are parameters, and so the three selectors written as
  constants in the deploy and compile encoders are taken as they stand.
- The tenant's directory is named by a hash of its id; the model keys files by the id.
- A log line and its newline are one write, and a whole-file replacement is atomic.
- `HashChain` and the grant lists are values inside the classes: the source owns them, so no
  two names for one of them exist.
- `Backend.QuorumBackend.SetActiveTenant`: does not model meetings and the workspace, which
  it also loads.
- `Bridge.Handle`: the mutex, the socket and the JSON text are left out; a body that does
  not parse is `None`, and token comparison is equality of strings.
- `Audit.CanonicalCommits`: texts of 4 GiB and more are excluded, because the length a text
  is framed with is 32 bits wide.
- `Store.StoredLogIsTamperEvident`: the same texts are excluded.
- `Audit.HeadCommits`: texts of 4 GiB and more are excluded, because the frame length is 32
  bits wide and two such texts could be told apart no longer.
- `AbiDecode.DecodeWordArrayAt`: an offset within 32 bytes of 2^64 gives `Overflow`, where
  the source panics or wraps with the build.
- `AbiDecode.DecodeAddressArrayAt`: the same.
- `TenantNode.DecodesTheStandardEncoding`: the sum of the struct offset and an inner offset
  is checked the same way.
- `Ctor.Encode`: the address book is one looked-up address or none, and the reasons given
  for unsupported templates are their names.
- `Spec.ProposeFromDocuments`: stated for any extractor of candidates, of which the source's
  is `Spec.CandidatesOf` after `Spec.Sentences`.
- `Compile.CompileSpec`: reasons for unmapped clauses are values, not sentences.
- Rooms, simulation, binding, address books, journals and the ledger's read-only views:
  filtering, counting and rendering.
- Wallets, ceremonies, the chain's RPC, the relay, the user interface: foreign code and I/O.
- The list of drafts is a directory listing; only its order is modelled
  (`Calendar.SortedIsNewestFirst`).
- File modes and locking, and the evidence directory's path.
