# A verified model of paper-radar's stores, registries, backups and verification runs

This project models the stateful core of paper-radar and proves what its services rely on. `dafny verify
dfyconfig.toml` checks all of it.

**Body store and extraction protocol** (`Prelude`, `Ledger`, `BodyModel`, `BodyQueries`, `BodyTransactions`,
`BodyInvariant`, `BodyPreservation`, `ExtractionPreservation`, `BodyValidation`, `BodyProtocol`, `BodySafety`,
`BodyTheorems`, `BodyVersions`, `BodySettlement`, `BodyRequests`, `BodyAnswers`, `BodyRows`, `BodyClaims`,
`BodyAcceptance`, `BodyEligibility`, `BodyReasons`, `BodyReadBasis`, `BodyBasisRows`, `BodyCompleteness`, `BodyDatabase`).
An append-only store records the root, PDF attachments, decisions, samples, extraction attempts with their outcomes,
and layout reviews. `BodyProtocol.Step` is the state machine: any number of processes prepare, take the root lock,
claim in one transaction, convert outside any transaction, settle in another one, and may crash anywhere; all other
services interleave. Transactions are functions from tables to tables and an answer; the class
`BodyDatabase.Database` runs them the way the services do, row by row with rollback, and is proved to compute them.
`BodyValidation.BodyValid` is the closure checker of backup and restore, written independently of the invariant.
`BodyRows`, `BodyClaims`, `BodyAcceptance`, `BodyReasons` and `BodyBasisRows` state what queries and transactions answer
as rows of the tables, without naming the functions that compute it.

**Registry of constants** (`ConstantEvaluator`, `RegistrationFile`, `RegistrationConstants`). A small interpreter with
name lookup, splicing, dictionary merging and cycle detection by a set of active names, compared with derivation
trees that know nothing of active names.

**Scope graph** (`ScopeGraph`, `ScopeAudit`, `ScopeImpact`). Kahn's sort in layers, a worklist, and the closure of
affected groups, compared with walks in the reference graph.

**Backup and restore** (`TextOrder`, `FileTree`, `BackupManifest`, `BackupVerification`, `BackupDisk`, `BackupCopy`,
`BackupFill`, `BackupService`, `BackupCrashes`, `BackupRuns`, `BackupWitness`). The file system is a map from paths to nodes; before every operation
of a run others may change anything outside of the trees that are its own. The ghost trace of atomic steps is what
the crash-point lemmas are about.

**Baseline confirmations** (`Confirmations`, `BaselineChanges`) and **verification runs** (`TestReceipt`,
`FailureSidecar`, `OfflineEvidence`, `RunDocuments`, `VerificationRun`, `StatusReader`, `RunStatus`). Writers that
persist intermediate states, and the independent readers of what they leave.

## Assumptions

- SHA-256 and request digests are injective: in the Body store a digest is represented by what it digests, in backups
  the digest function is injective, and in `RunStatus` no two different contents of the files at hand collide. Artifacts are immutable
  and addressed by their content; a stored artifact stays readable.
- A fingerprint stands for one PDF and one set of extraction semantics. All extractors of one database share one data
  root, hence one root lock, and the kernel drops a lock when its holder exits or crashes.
- Clocks never go back. The peak memory a parser measures is not negative; publishing a negative one is an
  executor error.
- Paper versions, discoveries and screening successes are only ever added. The root purpose is
  one of the three declared members.
- A database transaction is one atomic step: it commits as a whole or leaves everything as it was.
- Canonical manifest bytes are decoded to the manifest they encode. `BackupWitness`
  shows an encoding and a digest function that meet this. A staging tree of a fresh name, and the batch being
  restored, are touched by nobody else.
- `RunStatus`: no bound file changes while the terminal record is being built from it.

## Where the code differs from what one might expect

- An attachment requested under an empty version name is accepted and bound to the current version, but the closure
  checker of backup and restore refuses the stored row (`BodyVersions.EmptyVersionFails`). This is the only way in which
  a reachable store fails the checker (`BodyTheorems.ReachableStorePasses`), and the request shows it beforehand
  (`BodyVersions.NamedVersionsPass`).
- The checker does not look at the order of review verdicts (`BodyCompleteness.PassAfterFailIsAccepted`). What else it
  overlooks is `BodyCompleteness.Unchecked`, by `BodyCompleteness.CheckerIsExact`.
- An unknown outcome does not always mean a departed claimer: a parser failure may carry it, and `extract` records
  the failure it is given (`BodySettlement.UnknownOutcomeOfALiveClaimer`). The exact condition is
  `BodySettlement.UnknownOutcomes`.
- A backup or restore that fails may nevertheless have published: the directory is synced after the rename, and a
  fault or an interrupt there is answered with a failure. This is the only such case (`BackupRuns.CreateBackup`,
  `BackupRuns.RestoreBackup`).
- A restored batch does not always have the modes of the backed-up one: the check accepts a database of mode 0644,
  and a copy gives it 0600 (`BackupWitness.OpenBatchIsAccepted`). `BackupVerification.CopiesKeepModes` is the exact
  condition, and a batch published by `BackupRuns.CreateBackup` meets it.
- On a cyclic scope graph the affected groups are those of the flagged scopes only, because without an order every
  downstream list is empty (`ScopeImpact.Audit`).
- A duplicate node id inflates the collected count of a module but not its outcomes, so such a module never passes
  (`TestReceipt.TotalsAreBounded`).
- The row limit of the failure sidecar never matters for a sidecar its writer produced
  (`FailureSidecar.BoundIsAcceptable`).

## Model

| member | source | states |
|---|---|---|
| BodyTheorems.ReachableStorePasses | src/paper_radar/body/validation.py:37-277 | every store reached from the empty one, by any interleaving of the services with a crash between any two transactions, passes the Body part of the closure checker, unless it holds a PDF that was requested under an empty version name and bound to a named one; then it is refused |
| BodyVersions.NamedVersionsPass | src/paper_radar/body/validation.py:105-124 | a run in which no attachment is requested under an empty version name leaves a store that passes the checker |
| BodyVersions.EmptyVersionFails | src/paper_radar/body/service.py:129-168 | a concrete run: the request with an empty version name is accepted for the current version, and the checker refuses the store it leaves |
| BodyCompleteness.CheckerIsExact | src/paper_radar/body/validation.py:37-277 | coherence of the papers, the constraints of the schema and the checker together accept exactly the coherent stores, up to two things that neither looks at: the order of review verdicts and an automatic report of a layout flaw |
| BodyCompleteness.PassAfterFailIsAccepted | src/paper_radar/body/validation.py:249-272 | a passing review after a failing one of the same extraction, which no service writes, is accepted by schema and checker in any coherent store |
| BodyTheorems.RunKeeps | src/paper_radar/body/extraction.py:208-379 | along every run the system invariant holds and no recorded row is ever lost or rewritten |
| BodySafety.StepKeeps | src/paper_radar/body/extraction.py:208-439 | each single event, by any process, keeps the invariant that ties tables, root lock, process phases and conversion starts together, and the store only grows |
| BodyTheorems.ConversionBudget | src/paper_radar/body/extraction.py:244-304 | over all processes, retries and crashes one extraction input is converted at most twice |
| BodyTheorems.StartsAreExclusive | src/paper_radar/body/extraction.py:51-76 | a conversion starts only while no artifact and no permanent failure exists, for an unsettled attempt, and while no other process works under the root lock |
| BodyTheorems.DecidedNeverConverts | src/paper_radar/body/extraction.py:253-274 | once an artifact or a permanent failure is recorded, no later event of any process starts another conversion of that input |
| BodyTheorems.SettledOnce | src/paper_radar/body/extraction.py:190-205 | an outcome, once written, stays the same in every later state, and the number of attempts made never goes down |
| BodyTheorems.OutcomesAbsorb | src/paper_radar/body/extraction.py:91-187 | attempts, artifact and identity of a decided extraction are the same in every later state, and a permanent failure stays permanent |
| BodyTheorems.ViewNeverCorrupt | src/paper_radar/body/extraction.py:91-187 | on every reachable store the view answers without corruption, and is absent exactly for inputs that were never claimed |
| BodyTheorems.NoPassAfterFail | src/paper_radar/body/extraction.py:411-436 | no reachable store holds a passing review that was added after a failing one of the same extraction |
| BodySettlement.UnknownOutcomes | src/paper_radar/body/extraction.py:257-266 | an unknown outcome is recorded exactly when a claim finds an attempt whose claimer left the lock unsettled, or when the parser itself reports it to the live claimer |
| BodySettlement.UnknownOutcomeOfALiveClaimer | src/paper_radar/body/extraction.py:326-334 | a concrete run in which the outcome is unknown although the only process holds the lock throughout, so an unknown outcome alone does not prove a departed claimer |
| BodySettlement.ClaimSettlesTheDeparted | src/paper_radar/body/extraction.py:253-274 | a claim writes outcomes for the departed claimer of its own input and for nobody else |
| BodySettlement.AttemptsComeFromClaims | src/paper_radar/body/extraction.py:285-300 | the attempts table grows only by a claim under the lock, by one row that belongs to the claiming process |
| BodySafety.SettleSucceeds | src/paper_radar/body/extraction.py:317-375 | the settlement transaction of a live claimer is never refused: its attempt has no outcome yet |
| BodySettlement.SettlementRecords | src/paper_radar/body/extraction.py:317-375 | the whole outcome row that each ending of a conversion leaves: the failure of its exception clause, elapsed and peak, or the artifact with its first flaw and, without one, the success row |
| BodyInvariant.ViewIsSound | src/paper_radar/body/extraction.py:91-187 | on a coherent store the view is decided by the last attempt, the success row and the reviews, and agrees with each of them |
| BodyReasons.ViewIsRead | src/paper_radar/body/extraction.py:91-187 | the view of an input row by row: its attempts with their outcomes, the identity some attempt published, success, and quality as failed, passed or absent exactly by flaws and reviews |
| BodyInvariant.NotRetriableIsLast | src/paper_radar/body/validation.py:169-248 | only the last attempt of an input can be unsettled, successful, published or permanently failed |
| ExtractionPreservation.ClaimKeeps | src/paper_radar/body/extraction.py:244-300 | a claim keeps the store coherent and the store only grows, the departed claimer is settled, and a new attempt needs budget that is left; when it is due is stated by BodyClaims.ClaimsMean |
| BodyClaims.ClaimsMean | src/paper_radar/body/extraction.py:244-300 | said of the tables: a claim of a current job answers the decided extraction exactly when its two attempts are used up or one of them was conclusive, otherwise admits the next attempt, so a crashed conversion is retried; each refusal has its exact condition, a fresh id is never refused, and the rows written are given in full |
| BodyClaims.DecidedExactly | src/paper_radar/body/extraction.py:252-275 | a claim decides exactly when two attempts exist or the last one cannot be retried once departed claimers are settled |
| ExtractionPreservation.SettlingTheDeparted | src/paper_radar/body/extraction.py:257-267 | settling every unsettled attempt of the view, one by one, changes exactly the outcome of the last one |
| ExtractionPreservation.SettleFailureKeeps | src/paper_radar/body/extraction.py:190-205 | recording a failure of an unsettled attempt is accepted and keeps the store coherent |
| ExtractionPreservation.SettlePublishedKeeps | src/paper_radar/body/extraction.py:344-375 | recording a publication writes outcome and, without a flaw, the success row, and keeps the store coherent |
| ExtractionPreservation.ReviewKeeps | src/paper_radar/body/extraction.py:411-439 | a layout review adds at most one row, keeps the store coherent, and meets a database constraint only for a reused id |
| BodyPreservation.AttachWriteKeeps | src/paper_radar/body/service.py:136-168 | attaching a PDF keeps the store coherent |
| BodyPreservation.DecideKeeps | src/paper_radar/body/service.py:190-259 | a decision keeps the store coherent, and its answer is a stored row of that request |
| BodyPreservation.FreezeKeeps | src/paper_radar/body/service.py:265-308 | freezing a sample keeps the store coherent, and its answer is a stored row of that request |
| BodyPreservation.RegisterRootKeeps | src/paper_radar/body/service.py:87-114 | registering the root keeps the store coherent |
| BodyAcceptance.RegistersMean | src/paper_radar/body/service.py:87-114 | the root is written exactly for the first request with a known purpose; every other answer and refusal has its exact condition |
| BodyAcceptance.AttachReadsMean | src/paper_radar/body/service.py:124-135 | what the first transaction of an attachment answers in every case: the stored row, a conflict, an unknown paper or version, or the version selected, which is the requested one or else the current one |
| BodyAcceptance.AttachesMean | src/paper_radar/body/service.py:139-168 | a new attachment is written exactly for an unused id and when its version was requested or the paper has not moved on since the read; otherwise it is refused as changed facts; the row is bound to that version and given in full |
| BodyAcceptance.DecidesMean | src/paper_radar/body/service.py:199-259 | a new decision is written exactly for a direct valid record on a known paper with screenings of that paper; each refusal has its exact condition and the row is given in full |
| BodyAcceptance.FreezesMean | src/paper_radar/body/service.py:265-308 | a sample is frozen exactly in an experiment, for the newest PDF of the current version, with that content and a discovery by that feed; each refusal has its exact condition and the row is given in full |
| BodyAcceptance.ReviewsMean | src/paper_radar/body/extraction.py:382-439 | a new review is written exactly for the published identity of a successful extraction that did not fail before if this one passes; a repeat answers the present view, and each refusal has its exact condition |
| BodyAcceptance.PreparesMean | src/paper_radar/body/extraction.py:219-243 | a job is prepared exactly for a known snapshot and paper, its newest PDF of the current version and a matching audit; on a coherent store it is never refused as corrupt |
| BodyValidation.CoherentStorePasses | src/paper_radar/body/validation.py:37-277 | the invariant of the store implies every requirement of the separately written checker but one, and then the checker accepts exactly the stores in which no PDF requested under an empty version name is bound to a named one |
| BodyRequests.RequestsAreUnique | src/paper_radar/body/repository.py:40-63 | in every reachable store each table has at most one row per request id and the sequences of a paper are 1..n |
| BodyRequests.RootPurposeIsFrozen | src/paper_radar/body/service.py:87-114 | the registered root fact never changes, and registering again answers it or a conflict without writing |
| BodyRequests.DecisionsAreIdempotent | src/paper_radar/body/service.py:190-259 | in every later state a repeated decision answers the stored row and adds nothing, and another decision under its request id is a conflict that changes nothing |
| BodyRequests.SamplesAreIdempotent | src/paper_radar/body/service.py:265-308 | the same for samples, even after version and PDF moved on |
| BodyRequests.AttachmentsAreIdempotent | src/paper_radar/body/service.py:116-168 | the same for attachments, in the read transaction as well as in a write transaction that was already under way |
| BodyRequests.ReviewsAreIdempotent | src/paper_radar/body/extraction.py:382-439 | a repeated review adds nothing and answers the present view; another review under its request id is a conflict |
| BodyRequests.RootIsKnown | src/paper_radar/body/queries.py:37-51 | in a reachable store the root is unknown exactly when none was registered |
| Ledger.AppendKeeps | src/paper_radar/body/repository.py:40-63 | a row with the next sequence number and new ids keeps sequences 1..n and request ids unique |
| Ledger.FindSurvives | src/paper_radar/body/repository.py:53-63 | a request found once is found again, as the same row, in every longer table |
| Ledger.OrderIsInsertionOrder | src/paper_radar/body/queries.py:72-114 | reading a paper in sequence order is reading it in insertion order |
| Ledger.Latest | src/paper_radar/body/queries.py:54-69 | the row found has the greatest sequence number of the paper and version, and one is found whenever there is any |
| BodyEligibility.EligibleFacts | src/paper_radar/body/facts.py:50-161 | in every reachable state facts are eligible exactly when rows say so: an experiment root, consumption that is not ordinary, a decision of greatest sequence that accepts the paper on production screenings, a newest sample frozen for the newest PDF of the current version, the sole success of that PDF, its published identity, and reviews of which none failed |
| BodyEligibility.EligibleIsCleared | src/paper_radar/body/facts.py:103-160 | the same on any coherent store, both directions, in terms of rows alone |
| BodyReasons.FactsAreMeant | src/paper_radar/body/facts.py:50-161 | every fact is the row it should be, and each of the twelve reasons is among the collected ones exactly when its own condition holds of the rows; the facts of a known paper never fail to assemble |
| BodyRows.EffectiveDecisionIs | src/paper_radar/body/facts.py:75-88 | the decision in force is the row of the paper with the greatest sequence, and there is none exactly for a paper or decision without a name or a paper without a decision |
| BodyRows.LatestIsNewest | src/paper_radar/body/queries.py:54-69 | the latest row of a paper, or of one of its versions, is the one with the greatest sequence, and is missing exactly when there is none |
| BodyEligibility.NoReason | src/paper_radar/body/facts.py:103-160 | no reason is collected exactly when none of the listed obstacles exists; production and ordinary consumption always leave one |
| BodyEligibility.ConsumableMeans | src/paper_radar/body/facts.py:114-139 | what the extraction branch accepts, as rows: the newest PDF, the sole success, the publication and the reviews |
| BodyEligibility.ViewHasNoFormalGate | src/paper_radar/body/extraction.py:104-177 | the view never reports the formal gate |
| BodyEligibility.FactsAssemble | src/paper_radar/body/facts.py:50-102 | on a coherent store the facts assemble for exactly the known papers |
| BodyEligibility.CurrentBodyIs | src/paper_radar/body/queries.py:117-146 | the current body is the published identity of the one successful extraction of the newest PDF of the current version, and nothing else |
| BodyReadBasis.RecordedBasisHolds | src/paper_radar/body/service.py:421-566 | a basis recorded from eligible facts passes its check at once and in every later state, whatever was added meanwhile; what passing means is BodyBasisRows.AcceptedBases |
| BodyReadBasis.BasisStays | src/paper_radar/body/service.py:462-566 | a basis that passes under a registered root passes in every coherent store grown from it; what passing means is BodyBasisRows.AcceptedBases |
| BodyBasisRows.AcceptedBases | src/paper_radar/body/service.py:462-566 | a document is accepted as a basis exactly when all fields are texts that name the registered root with its purpose, a decision that accepted the paper on production screenings, a PDF of the paper that the identity was published from, in an experiment a sample of that version and content, and a passing review of the identity not newer than the record |
| BodyBasisRows.RecordNames | src/paper_radar/body/service.py:421-460 | the recorded basis names the decision in force, the newest PDF and sample, the review found and the moment of recording |
| BodyBasisRows.RecordedForever | src/paper_radar/body/service.py:421-566 | recorded from eligible facts, a basis names the rows in force and these belong together at once and in every later state |
| BodyReadBasis.RecordPasses | src/paper_radar/body/service.py:446-460 | the record built from complete facts passes the very check that follows it |
| BodyReadBasis.SomeReviewPasses | src/paper_radar/body/service.py:436-445 | for a reviewed extraction without a failed review the query for the newest passing review finds one of that extraction |
| BodyReadBasis.RoundTrip | src/paper_radar/body/read_basis.py:10-32 | decoding inverts encoding in both directions, and fails exactly on what no record of texts encodes to |
| BodyDatabase.Database.Claim | src/paper_radar/body/extraction.py:244-300 | the row-by-row transaction, with its rollbacks, leaves exactly the tables and answer of the claim function, and on a coherent store they are the ones BodyClaims states of the rows: decided exactly for a final input, otherwise the next attempt |
| BodyDatabase.Database.SettleDeparted | src/paper_radar/body/extraction.py:257-266 | the settling loop records the same outcomes as its specification, row after row |
| BodyDatabase.Database.SettleFailure | src/paper_radar/body/extraction.py:190-205 | accepted exactly for a known attempt without an outcome; then that attempt alone gets the outcome given in full, every other row stays, and a coherent store stays coherent; refused, nothing changes |
| BodyDatabase.Database.SettlePublished | src/paper_radar/body/extraction.py:350-375 | for an unsettled attempt its outcome is the one given in full, with artifact and first flaw, and a success row is added together with it exactly when there is no flaw; nothing else changes and the store stays coherent; for a settled one nothing changes |
| BodyDatabase.Database.ReviewLayout | src/paper_radar/body/extraction.py:411-439 | replay, view and insertion leave the tables and answer of the review transaction; on a coherent store acceptance, refusals and the row are those BodyAcceptance states of the rows |
| BodyDatabase.Database.RegisterRoot | src/paper_radar/body/service.py:87-114 | on a coherent store: answered exactly for a known purpose that no other root contradicts, each refusal for its own reason, and then the answer is the root fact of the store left; a second call writes nothing and the store stays coherent |
| BodyDatabase.Database.AttachPdf | src/paper_radar/body/service.py:136-168 | on a coherent store: a new request is accepted exactly when its id is unused and its version was requested or is still the current one, and its row carries that version and the next number; a moved version is refused as changed facts; a request seen before or refused adds nothing, and everything stored stays |
| BodyDatabase.Database.Decide | src/paper_radar/body/service.py:190-259 | the same for decisions, with the reference loop and the rollback after the insertion: accepted exactly under the conditions BodyAcceptance states of the rows; a coherent store stays coherent |
| BodyDatabase.Database.FreezeSample | src/paper_radar/body/service.py:265-308 | the same for samples: accepted exactly under the conditions BodyAcceptance states of the rows; a coherent store stays coherent |
| BodyDatabase.Database.ExtractionView | src/paper_radar/body/extraction.py:91-187 | the loop that updates artifact, identity, quality and permanence computes the view, and on a coherent store the view is what the rows say |
| BodyDatabase.FoldAttempts | src/paper_radar/body/extraction.py:115-148 | the loop keeps the last publication, the last flaw and whether any failure was permanent |
| BodyDatabase.Database.ReadReviews | src/paper_radar/body/extraction.py:149-177 | the loop over the reviews tells agreement, presence and failure apart |
| BodyDatabase.Database.DecisionEvents | src/paper_radar/body/queries.py:72-114 | the loop yields the decisions in order and refuses malformed or equally numbered ones |
| BodyDatabase.Database.ExecutionSource | src/paper_radar/body/facts.py:24-47 | the loop over the screening references yields the common source, or corruption |
| BodyDatabase.Database.CurrentBody | src/paper_radar/body/queries.py:117-146 | on a coherent store the answer is never corruption, and is an identity exactly when the newest PDF of the current version has one successful extraction and that identity was published for it |
| BodyDatabase.Database.AssembleFacts | src/paper_radar/body/facts.py:50-161 | the assembled facts, with the reason set filled on the way; on a coherent store every fact is its row and every reason is there exactly when its condition holds of the rows |
| BodyDatabase.CollectReasons | src/paper_radar/body/facts.py:103-160 | the set filled branch by branch holds a reason exactly when that reason, stated on its own, holds |
| ConstantEvaluator.GetIsSoundAndComplete | scripts/verification_scope_registry.py:313-369 | a name evaluates to a value exactly when a finite derivation gives that value; the set of active names refuses nothing else |
| ConstantEvaluator.Soundness | scripts/verification_scope_registry.py:322-369 | whatever the evaluator answers, with any active set, has a derivation |
| ConstantEvaluator.Completeness | scripts/verification_scope_registry.py:322-369 | a derivation is always found by the evaluator, because no active name can occur in it again |
| ConstantEvaluator.Unique | scripts/verification_scope_registry.py:322-369 | an expression has at most one derivation and so at most one value |
| ConstantEvaluator.CyclesAndGapsFail | scripts/verification_scope_registry.py:313-320 | a name whose definitions lead back to it or to a missing name is always refused |
| ConstantEvaluator.RepeatedKeysFail | scripts/verification_scope_registry.py:349-369 | no value, at any depth, holds a dictionary with a repeated key |
| RegistrationConstants.Constants.Get | scripts/verification_scope_registry.py:313-320 | the active set is the same after a return and after a raise, and the answer is the one of the pure evaluator |
| RegistrationConstants.Constants.Evaluate | scripts/verification_scope_registry.py:322-369 | each branch of the interpreter, with the active set restored |
| RegistrationConstants.Constants.Display | scripts/verification_scope_registry.py:338-348 | the loop appends elements and splices starred ones in order |
| RegistrationConstants.Constants.Merge | scripts/verification_scope_registry.py:349-369 | the loop merges pairs and splats and refuses every repeated key |
| RegistrationConstants.Constants.Load | scripts/verification_scope_registry.py:270-311 | a file loads exactly when every statement is understood and no name is bound twice, and then it binds what it says |
| RegistrationConstants.Constants.BindTargets | scripts/verification_scope_registry.py:303-310 | target after target, each a new name, or the first error |
| RegistrationFile.CollectsAcceptable | scripts/verification_scope_registry.py:274-311 | statement-by-statement collection accepts exactly the files whose bindings are new names over the whole file |
| ScopeAudit.LayeredSort | scripts/verification_scope_audit.py:255-268 | an acyclic graph gets a full order sorted by longest upstream chain with ties in registration order; otherwise the order is empty and exactly the scopes on or downstream of a cycle are reported |
| ScopeGraph.LongChainIsStuck | scripts/verification_scope_audit.py:255-268 | a chain of as many edges as there are scopes runs through a cycle |
| ScopeGraph.StuckHasChains | scripts/verification_scope_audit.py:255-268 | behind a cycle chains of every length end, so the loop never frees such a scope |
| ScopeGraph.RoundMoves | scripts/verification_scope_audit.py:258-268 | round n frees exactly the scopes whose longest chain has n edges |
| ScopeGraph.LayersAreSorted | scripts/verification_scope_audit.py:258-268 | the rounds together are sorted by chain length and registration order |
| ScopeGraph.SortedIsTopological | scripts/verification_scope_audit.py:255-268 | in a sorted order every scope comes once, and after the scopes it binds |
| ScopeGraph.AcyclicMeansNobodyIsStuck | scripts/verification_scope_audit.py:260-265 | a graph is acyclic exactly when no scope is on or downstream of a cycle |
| ScopeAudit.Reach | scripts/verification_scope_audit.py:271-277 | the worklist holds in the end exactly the scopes that one or more edges lead to, also on cyclic graphs |
| ScopeAudit.Downstream | scripts/verification_scope_audit.py:269-278 | each list is the reachable scopes, in the order of the sort |
| ScopeAudit.AffectedGroups | scripts/verification_scope_audit.py:295-309 | the groups of the directly affected scopes and of everything downstream, in sorted order |
| ScopeImpact.Audit | scripts/verification_scope_audit.py:255-292 | on an acyclic graph the affected groups are those of the least downstream-closed set around the flagged scopes; on a cyclic one they are those of the flagged scopes alone, which is that least set exactly when it is closed already |
| ScopeImpact.WithoutOrderNothingSpreads | scripts/verification_scope_audit.py:264-278 | without an order every downstream list is empty, so drift outside of the cycles does not reach what depends on it |
| ScopeImpact.SpreadIsLeast | scripts/verification_scope_audit.py:301-303 | adding the downstream lists once already yields the least closed set |
| ScopeImpact.ClosingTwice | scripts/verification_scope_audit.py:357-368 | closing again after more was added is closing everything at once |
| ScopeImpact.MergeCollection | scripts/verification_scope_audit.py:342-369 | after a count mismatch the groups are those of the least closed set around old and new scopes; other outcomes leave them alone |
| ScopeImpact.CollectionTargets | scripts/verification_scope_audit.py:312-339 | targets exist only when nothing but count issues and drift stands in the way, and name the one agreed count of each module |
| ScopeImpact.FindMismatched | scripts/verification_scope_audit.py:353-356 | exactly the modules collected with another number of cases |
| ScopeImpact.DirectlyAffected | scripts/verification_scope_audit.py:279-280 | the groups of faulty files and of issues |
| BackupRuns.CreateBackup | src/paper_radar/backup/service.py:286-356 | whatever others do and wherever it fails, the own steps only make the output directory, stay inside the staging tree, or publish once, under a free name, a complete tree; a failing run has published exactly when syncing the directory failed after the rename; every crash point is safe |
| BackupRuns.RestoreBackup | src/paper_radar/backup/restore.py:32-75 | a successful run puts an exact, verified copy of the batch under a name that was absent or an empty directory at that moment; a failing one has done so exactly when the fault or interrupt came after the rename, and otherwise disturbed nobody; modes are kept exactly when the batch has those of a copy |
| BackupRuns.BackUpAndRestore | src/paper_radar/backup/restore.py:32-75 | backup followed by restore gives the published tree again, byte for byte and mode for mode |
| BackupCrashes.DestinationIsAbsentOrVerified | src/paper_radar/backup/service.py:286-356 | at every crash point the destination is as it was, so absent if it was, or a complete tree, and the latter only after the last step |
| BackupCrashes.ExistingBatchesStay | src/paper_radar/backup/service.py:286-356 | at every crash point a batch that nobody else touches is unchanged |
| BackupCrashes.RunsAreCrashSafe | src/paper_radar/backup/service.py:286-356 | both hold of every prefix of the steps of any run |
| BackupCrashes.PublishingLosesNothing | src/paper_radar/backup/files.py:128-150 | no own step takes away an entry of somebody else; only a restore replaces anything, and only an empty directory |
| BackupCrashes.HarmlessIsNotPublished | src/paper_radar/backup/files.py:141-150 | a run whose steps disturb nobody has not published, so the two outcomes of a run exclude each other |
| BackupRuns.FillStaging | src/paper_radar/backup/service.py:309-343 | snapshot, registered blobs and manifest make a complete tree with private modes, or the run stops inside the staging tree |
| BackupRuns.Publish | src/paper_radar/backup/files.py:128-150 | the staging tree is renamed as a whole to a free name, or stays; if the sync after the rename fails, the run fails although the batch is there |
| BackupRuns.RequireEmptyTarget | src/paper_radar/backup/restore.py:22-29 | accepted exactly when the target is absent or an empty directory |
| BackupService.FinishedIsACopy | src/paper_radar/backup/service.py:245-253 | entries and manifest together are exactly the expected entries with the bytes of the batch, and pass the check |
| BackupService.CopyVerifiedContents | src/paper_radar/backup/service.py:234-253 | a successful copy is exact, has the modes of a copy and is verified; copying a verified batch into an empty private directory can fail only by a fault of the file system |
| BackupService.VerifyBackup | src/paper_radar/backup/service.py:213-231 | a batch is accepted exactly when it is complete and named like its manifest |
| BackupVerification.VerifyContents | src/paper_radar/backup/service.py:157-210 | the sequence of checks accepts exactly the complete batches |
| BackupVerification.VerifyTree | src/paper_radar/backup/files.py:77-92 | accepted exactly when the entries are the expected ones, directories are private, and nothing is a link or special file |
| BackupVerification.CopiesAreVerified | src/paper_radar/backup/service.py:245-253 | an exact copy of a verified batch is verified |
| BackupVerification.CopiesKeepModes | src/paper_radar/backup/service.py:245-253 | a copy is the very batch, modes included, exactly when the batch has the modes a copy gives |
| BackupWitness.OpenBatchIsAccepted | src/paper_radar/backup/files.py:51-64 | a concrete batch whose database has mode 0644 passes the check, and its copy has 0600 |
| BackupWitness.FaithfulCodecsExist | src/paper_radar/backup/manifest.py:213-228 | canonical manifest bytes and digests as the other statements assume them exist |
| BackupManifest.ExpectedEntries | src/paper_radar/backup/files.py:67-74 | the manifest, the database and every blob with all directories on the way, and nothing else |
| BackupManifest.RegisteredContents | src/paper_radar/backup/service.py:123-154 | found exactly for a closed registration, and then the lists are what the database registers |
| BackupManifest.RegistersOneWay | src/paper_radar/backup/manifest.py:172-211 | sorted lists without repetition are determined by what the database registers, so a manifest cannot list the same contents in two ways |
| BackupManifest.CountKinds | src/paper_radar/backup/manifest.py:253-272 | the loops count artifacts per kind as the manifest records them |
| BackupDisk.Disk.MakePrivate | src/paper_radar/backup/files.py:95-106 | own steps only create absent directories on the way, and losing a race for one of them takes nothing from the winner |
| BackupDisk.Disk.Rename | src/paper_radar/backup/files.py:128-150 | one atomic move of a whole tree to a free name, or no change |
| BackupCopy.CopyFile | src/paper_radar/backup/files.py:109-125 | after a copy the tree has the file with the recorded digest and length, in its final mode, and otherwise only new directories; a stable source fails only by a fault |
| BackupFill.CopyEntries | src/paper_radar/backup/service.py:245-251 | after the loop exactly the listed entries are there, in the directories they need |
| TextOrder.SortsOneWay | src/paper_radar/backup/manifest.py:172-211 | a set of keys has one sorted list |
| Confirmations.NoIssueMeansPairing | scripts/verification_scope_baseline.py:570-650 | no issue is added exactly when confirmations and required pairs of change and group match one to one |
| Confirmations.OrderDoesNotMatter | scripts/verification_scope_baseline.py:615-650 | rearranging the confirmations never changes that verdict |
| Confirmations.ConfirmedGroupsAreAffected | scripts/verification_scope_baseline.py:638-641 | a group confirmed for a change is one of its affected groups, and the change is sensitive and current |
| Confirmations.Baseline.Confirm | scripts/verification_scope_baseline.py:570-650 | the two loops add exactly the invalid and the missing confirmations as issues and record every group confirmed, each once |
| Confirmations.RequiredIsDistinct | scripts/verification_scope_baseline.py:592-614 | no two required entries are the same document, so a confirmation can fit only one |
| BaselineChanges.Changes | scripts/verification_scope_baseline.py:490-567 | every drift and every change is listed once, path by path in sorted order, as the two trees say |
| BaselineChanges.ChangesAreDistinct | scripts/verification_scope_baseline.py:490-567 | the listed changes are distinct in the sense confirmations rely on |
| BaselineChanges.Affected | scripts/verification_scope_baseline.py:342-346 | exactly the groups named and those whose scope is touched or downstream of a touched one |
| RunStatus.ConfirmedMeansPassed | scripts/verification_status.py:163-281 | if the reader confirms the terminal record of a run, the run passed, all six checks exited 0, the receipt completed, and evidence, receipt and every conclusion have the very bytes the run left |
| RunStatus.ConfirmedAtOnce | scripts/verification_run.py:112-152 | read before anything changed, the record of a consistent run is confirmed exactly when the run passed, its conclusions are readable and linked, checks and receipt passed, and one complete identity is in all of them |
| RunStatus.ChangesPreventPassed | scripts/verification_status.py:179-191 | a changed byte of the evidence, the receipt or a conclusion, or a missing one, rules the answer out |
| StatusReader.QueryStatus | scripts/verification_status.py:284-369 | each status exactly when it is due: passed when everything a sound terminal record binds confirms it, incomplete when a sound record or its documents say the run stopped or a finished incomplete evidence has no record, unconfirmed when the record is missing otherwise, unavailable for a wrong run id or missing material, failed with its reason in all other cases |
| StatusReader.ReadTerminal | scripts/verification_status.py:163-281 | a record whose bindings do not all hold is refused for its first defect, a sound one is judged by what it binds; passed exactly when bindings, formats, links, verdicts, receipt and identity all hold |
| StatusReader.Judge | scripts/verification_status.py:247-281 | incomplete exactly when record, evidence or a required conclusion says the run stopped; each failure reason, the identity mismatch and passed exactly when everything before it holds and its own condition decides |
| StatusReader.ReadGroups | scripts/verification_status.py:198-223 | accepted exactly when each group is bound, supported and uses a suffix of its own; otherwise the first refused entry gives the reason |
| VerificationRun.CheckRegistration | scripts/verification_run.py:68-80 | groups are accepted exactly when names and suffixes are new and well formed and dependencies come earlier |
| VerificationRun.Run.RunGroups | scripts/verification_run.py:90-99 | every group gets its own or its recovered conclusion, interrupts are passed on exactly as registered, and only an unrecoverable one ends the run |
| TestReceipt.RecordsMeanPassing | scripts/verification_checks.py:129-159 | a module passes with n expected cases exactly when n items with distinct node ids were collected, none was deselected, and each ended with exactly setup, call and teardown passed |
| TestReceipt.TotalsAreBounded | scripts/a2_test_receipt.py:52-87 | the outcome totals never exceed what was collected, and reach it exactly for distinct node ids |
| TestReceipt.TotalsMean | scripts/a2_test_receipt.py:76-87 | failed counts the nodes with a phase whose last report failed, skipped those with a skipped and no failed one, passed those whose setup, call and teardown ended passed and nothing else, and the rest is incomplete |
| TestReceipt.Session | scripts/a2_test_receipt.py:49-87 | a session leaves, for each module, the tally of its deselections, items and reports |
| TestReceipt.Receipt.CollectionFinish | scripts/a2_test_receipt.py:52-58 | one more collected case per item of a known module, and its phase map starts empty |
| TestReceipt.Receipt.Deselected | scripts/a2_test_receipt.py:60-64 | one more deselection per item of a known module |
| TestReceipt.Receipt.LogReport | scripts/a2_test_receipt.py:70-74 | if the phase maps were those of some reports, they are those of the same reports and this one: the last report of a phase wins, for collected nodes only |
| TestReceipt.Receipt.SessionFinish | scripts/a2_test_receipt.py:76-88 | each node adds one to exactly one outcome of its module |
| OfflineEvidence.Evidence.Run | scripts/offline_evidence.py:418-502 | every persisted document is sound; an interrupted run never gives a verdict; a finished one passes exactly when every check was enabled and exited 0, and its items say for each check how it ended, that it was skipped, or why it did not run |
| OfflineEvidence.Evidence.RunChecks | scripts/offline_evidence.py:352-415 | check by check, with an interrupt possible between any two updates, the items stay a prefix of finished checks, at most one failure, and untouched rest; without one, the first enabled check that does not exit with 0 stops the run with its exit code and reason, and every later item carries the reason that follows from it |
| OfflineEvidence.Evidence.RecordEnding | scripts/offline_evidence.py:376-402 | the exact item each ending of a check records, unless an interrupt falls in between; then the item is good or a stopper |
| OfflineEvidence.PassedMeansAllExitedZero | scripts/offline_evidence.py:494-500 | a passed verdict means that every planned check ran with exit code 0 |
| OfflineEvidence.AtMostOneFailure | scripts/offline_evidence.py:358-414 | nothing runs after a failure |
| FailureSidecar.Diagnostics.ReadBack | scripts/pytest_failure_diagnostics.py:56-137 | reading back yields nothing but recorded failures, and all of them, sorted and without repetition, while the sidecar is bound to the present receipt |
| FailureSidecar.Diagnostics.RunHooks | scripts/a2_test_receipt.py:29-74 | after any sequence of hooks: whatever is read was recorded, and if no sidecar write failed since some hook replaced the receipt, all that was recorded is read, sorted and once |
| FailureSidecar.Diagnostics.WriteReceipt | scripts/a2_test_receipt.py:29-47 | after every hook that replaces the receipt, a sidecar that could be written is bound to the new one |
| FailureSidecar.Diagnostics.Record | scripts/pytest_failure_diagnostics.py:56-60 | a failure is recorded exactly for allowed modules and known phases, and binding is kept |
| FailureSidecar.ReadDiagnostics | scripts/pytest_failure_diagnostics.py:93-137 | the rows of an acceptable sidecar, and nothing from any other |
| FailureSidecar.BoundIsAcceptable | scripts/pytest_failure_diagnostics.py:117-120 | the reader never refuses a bound sidecar; its row limit cannot be exceeded |
| FailureSidecar.FourPerModule | scripts/pytest_failure_diagnostics.py:117-120 | recorded failures number at most four per allowed module |

## Left out

- BodyReadBasis.RecordedBasisHolds: a recorded or reviewed time that is not an ISO timestamp raises in the source; in the model such a document is refused as a corrupt reference, because times are numbers.
- BodyTheorems.ReachableStorePasses: the timestamp checks of the checker (UTC, second form) and the papers and screening checkers it calls first are not modelled; times are numbers and those stores are append-only facts.
- BodyDatabase.Database.Claim: the tables are one value of a field, so that rollback is an assignment; SQL statements, foreign-key order and the JSON text of the input payload and executor audit are not modelled.
- BodyDatabase.Database.Decide: visibility of the screening references to the actor is a parameter of the decision record, and the joined screening rows are kept as a set on the decision.
- BodyDatabase.Database.CurrentBody: why there is no current body (absent or ambiguous) is one answer.
- Blank and printable text: blankness and printability are decided for ASCII blanks only; Unicode categories are not modelled.
- TestReceipt.Session: only the counters and phase maps; the JSON file and its atomic replacement are the subject of FailureSidecar.
- BackupDisk.Disk.RemoveTree: cleaning up may stop anywhere; that a staging tree is really gone is not claimed.
- BackupCopy.CopyFile: the source is read as one snapshot; a source rewritten in place while it is being copied is caught by the digest of what was written, which the contract states.
- BackupVerification.VerifyContents: the code identity, format version and time-stamp fields of a manifest, and the fixture, feed and read-task checkers, which are one abstract test of database and blobs.
- BackupRuns.CreateBackup: the SQLite online backup is a given sequence of bytes; a sync may fail, but what a successful one makes durable is not modelled: a crash leaves the state after some step.
- ScopeImpact.Audit: building edges from references and bindings, and the file and count issues of single scopes, are inputs.
- StatusReader.QueryStatus: progress, elapsed time, test totals and applicability to the present worktree, and the second digest of the terminal record itself, are not modelled.
- BaselineChanges.Changes: the category by content and the entry identities of a tree are given functions of the path.
- OfflineEvidence.Evidence.Run: an interrupt during the very last write is a crash, and starting, stopping and killing process groups is an ending of a check.
- FailureSidecar.ReadDiagnostics: the byte limits of receipt and sidecar files; a receipt is represented by its content, which determines the bytes its writer produces.
- RegistrationConstants.Constants.Evaluate: Python's recursion limit; constants other than text, integers and truth values are one opaque kind.
- Progress of processes that wait for the root lock: only safety is proved.
- `valid_path`, `parse_file_bindings`, shared materials and writer discovery of the registry: finite case tables and syntax inspection that would only add easy members.
- Command-line modules, printing, git calls, the Docling parser, model snapshots, configuration schemas and quota probes: input and output around the modelled core.
- Internals of paper facts, screening tasks, paper evaluation and the artifact store: represented by the append-only facts the callers rely on.
