# Verification of the BIM review coordinator and the governance service

This project models the parts of the system whose correctness depends on more than one function: a
protocol that survives crashes, a ledger several transactions write and a separate reader checks, a
matching built in three passes, a response kept under a byte limit, and a few algorithms over graphs,
orders and text. Each model is proved to keep what the code promises, for every input and every run.

`dafny verify dfyconfig.toml` checks all of it.

## What is modelled

- **Closing a review session** (`CloseProtocol`, `ClosePlans`, `CloseRecovery`, `CloseRuns`,
  `CloseOutcomes`, `CloseCoordinator`). The session record and the event log are two durable stores. A close
  call is the list of durable writes it performs on the disk it finds; a crash keeps a prefix of that list.
  Close calls with any payload, idle reclaim, startup recovery, unrelated events and activations may follow
  each other in any order. An abstract protocol (`Allowed`) says when a write may happen; every write of
  every call is shown to obey it, and it keeps an invariant that ties status, checkpoint and log together.
  The class `Coordinator` performs the writes one by one, with a budget that stands for how long the process
  lives, and the startup loop also meets stores that throw and queues retries.
- **The governance ledger** (`LedgerTables`, `LedgerTransactions`, `LedgerRuns`, `LedgerTheorems`,
  `LedgerRaces`, `LedgerDecisions`, `LedgerScenario`, `LedgerStore`, `RuleEngine`, `RemediationHistory`).
  Issues, audit events, rule runs and their rows, confirmations and search evidence are tables. Each
  transaction is a function from a database to a database and an answer; the class `Store` writes the tables
  row by row, rolls back on late failures, and is proved against those functions. An invariant holds after
  every run from an empty database. The history reader, which trusts nothing, is shown never to find the
  writer's records unusable. `LedgerDecisions` says exactly when each transaction succeeds and what it
  writes, `LedgerRaces` compares competing writers and workers, and `LedgerScenario` is one run in full,
  from a failing component to a second confirmation, so that the theorem on two confirmations is about
  something.
- **The model diff** (`DiffMatching`, `DiffEngine`). The matching is stated without loops, by first holder
  of a GlobalId, by unambiguous (type, tag), and by rank within equal type, name and location. The loops
  over buckets, matched sets and zips are proved to build exactly that set of pairs.
- **Search filters** (`PropertyConstraints`, `SpanValidation`). Numeric predicates are compared with the
  assignments of real numbers that satisfy them. Spans are checked in one pass that mutates the candidate,
  and the outcome is shown to be an order-free property of the list.
- **The bounded search response** (`CanonicalJson`, `SearchScan`, `SearchResponse`). Candidates are
  collected and scanned under a filter budget, a candidate budget and a deadline met between two looks at
  the clock. A JSON value is weighed as its compact encoding. Trimming by binary search, and attaching
  proofs within a budget, are loops over the rows; the proof registry is an object whose ids are tracked.
- **The spatial tree** (`SpatialTree`). A recursive method with a shared set of seen elements over a graph
  that may have cycles.
- **Closed-session pages, lineage and purge** (`SessionPages`, `SessionLineage`). Keyset pages over a list
  sorted by one order and filtered by another; the walk up recreation links; the purge route's guard.
- **Template expressions** (`ExpressionResolver`, `ExpressionRoundTrip`). The resolver works on text with
  three scans; trees, their text and their values are defined apart from it.

`Options`, `Text` and `Order` hold what several modules share.

## Where the code promises less than one might read into it

These are properties that fail for some input. The code is kept as it is, and the condition under which
the property does hold is proved.

- Startup recovery does not repair every crash: a session that lacks its sessionClosing or a final event waits for
  a caller with the payload (`RecoverableExactly`, and `RecoverableAfterRun` for every reachable state). A recovery that throws is
  not queued when the session was active and its first write failed (`FailedRecoveryStatus`).
- Pairs of a diff depend on the order of the element lists when a GlobalId present in both models is
  repeated in one of them (`OrderIndependenceIsSharedUniqueness`).
- Following page cursors can skip a closed session: the list is sorted by instant and locale order, but
  the cursor filter compares text by code unit, and a cursor over 500 characters is refused
  (`ListingIsComplete`, `DisagreementSkips`). It takes ids or timestamps the service does not make itself, such as
  ids that differ in case (`MixedCaseIdIsSkipped`); with its own keys nothing is skipped (`MadeKeysAreListed`).
- An answer without proofs that is not limited either is one byte larger than the page that was measured against
  the wire limit, because the measured page has `proof_limited` true; the margin absorbs it
  (`MeasuredOneByteShort`, `Finish`).
- Quoted text is not always returned: the operator scan ignores quotes, so text in which it finds an operator is
  compared instead. Text in which it finds none is returned, such as one whose only sign pair follows a sign
  (`QuotedIsReturned`, `QuotedIsCompared`, `QuotedExamples`).
- A history grant that does not name the case of every confirmation on a page is denied the whole page
  (`WriterAndReaderAgree`), and one bad case in a claim refuses all of it (`ClaimReads`).

## Model

| member | source | states |
|---|---|---|
| CloseProtocol.AllowedKeepsInv | bim-review-coordinator/src/app.ts:837-964 | every write the exactly-once protocol allows keeps the invariant over status, checkpoint and log |
| ClosePlans.PlanIsLegal | bim-review-coordinator/src/app.ts:813-982 | each write a close call makes, on any disk it may find, is one the protocol allows; the call never stops for want of final events, and uncut it ends closed with a complete record |
| ClosePlans.CutKeepsInv | bim-review-coordinator/src/app.ts:813-982 | wherever a call dies between two writes, the invariant holds of what is on disk |
| CloseRuns.RunKeepsInv | bim-review-coordinator/src/app.ts:813-1078 | the invariant holds after every run of calls, crashes, recoveries, unrelated events and activations |
| CloseRuns.ExactlyOnce | bim-review-coordinator/src/app.ts:873-964 | in every reachable state a checkpoint's events are at most one sessionClosing, then at most the expected final events, then at most one sessionClosed with the same audit, then at most one kitInstanceReleased; a full set of final events is the whole payload of one call |
| CloseRuns.ClosingHoldsEverything | bim-review-coordinator/src/app.ts:891-926 | a closing or closed session has a checkpoint, its sessionClosing and all its final events, those of one call |
| CloseRuns.ClosedIsForever | bim-review-coordinator/src/app.ts:825-830 | closed is never left in any run, and a closing session never changes its checkpoint |
| CloseRuns.ClosedIsReleased | bim-review-coordinator/src/services/kitPool.ts:101-117 | after every run, whatever was cut, each kit of a closed session is released and each kit of a closing one is draining or released |
| CloseRuns.ReleasedOnlyWhenClosed | bim-review-coordinator/src/app.ts:927-941 | until the session is closed, no kit is released but those that were from the start |
| CloseRuns.RunMovesKitsOn | bim-review-coordinator/src/services/kitPool.ts:101-117 | over any run without a new activation the kits keep their ids and places, a released one stays released and a draining one is never ready again |
| CloseOutcomes.CallOutcome | bim-review-coordinator/src/app.ts:813-836 | a call is turned away, and then changes nothing, exactly when the session is closed and it may not resume that or there is no checkpoint, or closing and it may not resume that; any other uncut call leaves the session closed, its record complete and its kits released |
| CloseOutcomes.CheckpointExactlyWhen | bim-review-coordinator/src/app.ts:837-867 | the persisted checkpoint stays if and only if the session is closing or closed, or its final events are all recorded, or some are and the payload, of the same length, begins with them; else the call works under a fresh one |
| CloseOutcomes.RecordOfCall | bim-review-coordinator/src/app.ts:868-964 | the record of an uncut call, line by line: what it found, the sessionClosing with its trimmed and shortened audit unless one was found, the missing final events of its own payload, and the two closing lines |
| CloseOutcomes.RequestedSays | bim-review-coordinator/src/app.ts:834-836 | the audit a request asks for: its reason trimmed and cut at 500 characters, if anything is left, and its actor likewise only beside a reason |
| Text.TrimIs | bim-review-coordinator/src/app.ts:834-835 | trimming leaves the part between the white space at both ends |
| CloseOutcomes.RecoveryAsks | bim-review-coordinator/src/app.ts:1049-1060 | a recovery asks with no payload, may resume whatever it finds, and repeats the audit on record |
| CloseRecovery.RecoveryCompletes | bim-review-coordinator/src/app.ts:1025-1078 | one uncut recovery pass closes every session the loop deems recoverable, under the checkpoint it had, with a complete record; after it neither recovery nor any close call writes anything |
| CloseRecovery.RecoverySameAsUninterrupted | bim-review-coordinator/src/app.ts:888-964 | a call cut after any write and then recovered leaves the status, checkpoint and checkpoint record of the uncut call |
| CloseRecovery.RecoverableExactly | bim-review-coordinator/src/app.ts:1025-1048 | in every state the protocol allows, startup recovery picks a session up if and only if it has a checkpoint, is active, closing or closed, has its sessionClosing and all final events on disk, and is not closed with a complete record |
| CloseRuns.RecoverableAfterRun | bim-review-coordinator/src/app.ts:1025-1048 | so after any run of first calls, retries, resumed closings, recoveries and other steps, each cut anywhere |
| CloseRecovery.RecoverableCuts | bim-review-coordinator/src/app.ts:1025-1048 | the instance for a first close call: a crash is picked up exactly from the last final event on, until nothing is left to do |
| CloseRuns.RecordIsSettled | bim-review-coordinator/src/app.ts:1049-1078 | once a session is recoverable, whatever follows, recoveries that throw and are retried any number of times, other calls, crashes and unrelated events, the first call that is not cut leaves it closed with the record one unbroken recovery leaves |
| CloseRuns.RetryIsNotRefused | bim-review-coordinator/src/app.ts:1062-1070 | a queued retry is never refused, however long it waits |
| CloseRecovery.FailedRecoveryStatus | bim-review-coordinator/src/services/sessionIdleReclaimService.ts:357-366 | a recovery that throws leaves a session the idle service accepts for a retry, unless the session was active and the first write failed |
| CloseRecovery.RecoveryMatches | bim-review-coordinator/src/app.ts:1025-1078 | from a recoverable disk, recovery and any other way to completion leave the same checkpoint record |
| CloseRecovery.CompleteIsFinal | bim-review-coordinator/src/app.ts:825-830 | once a session's record is complete, no request and no recovery writes again |
| CloseRecovery.CheckpointIsSettled | bim-review-coordinator/src/app.ts:837-867 | a cut call that recovery will pick up left its own checkpoint in the session record |
| ClosePlans.ChoiceIsLegal | bim-review-coordinator/src/app.ts:837-867 | keeping or replacing the persisted checkpoint, by comparing the recorded prefix with the payload, is a legal first step whatever is on disk |
| CloseCoordinator.Coordinator.Close | bim-review-coordinator/src/app.ts:813-982 | in a process that lives for a number of writes, exactly that prefix of the writes of the call reaches the disk, no other session changes, the answer is the status reached, and a closed session has its kits released, a closing one draining or released |
| CloseCoordinator.SafeIdMeans | bim-review-coordinator/src/services/sessionStore.ts:18 | ids other than the prefix with letters, digits, low lines and hyphens are unknown to the coordinator |
| CloseCoordinator.Coordinator.RecordFinals | bim-review-coordinator/src/app.ts:911-918 | the index loop appends the final events still missing, in order, or a prefix when the process dies |
| CloseCoordinator.Coordinator.RecordOpening | bim-review-coordinator/src/app.ts:864-904 | the checkpoint and the sessionClosing event are each written unless already on disk, or a prefix of the two when the process dies |
| CloseCoordinator.Coordinator.RecordClosing | bim-review-coordinator/src/app.ts:837-926 | up to the final events the call writes exactly what is missing, or a prefix when the process dies |
| CloseCoordinator.Coordinator.RecordMarks | bim-review-coordinator/src/app.ts:927-945 | the session goes through closing to closed, from wherever it stood, or part of the way when the process dies; once there all its kits are released |
| CloseCoordinator.Coordinator.RecordClosed | bim-review-coordinator/src/app.ts:927-965 | status writes and the two closing events are written only where missing |
| CloseCoordinator.Coordinator.RecoverOne | bim-review-coordinator/src/app.ts:1025-1060 | the recovery of one session writes its recovery plan, what its store accepts of it, or a prefix when the process dies, and says which |
| CloseCoordinator.Coordinator.RecoverAll | bim-review-coordinator/src/app.ts:1025-1078 | the startup loop recovers every listed session independently and survives those whose store throws; when the process dies each has had a prefix of its own plan; when it lives the queue is that of the retries |
| CloseCoordinator.RetriesExactly | bim-review-coordinator/src/app.ts:1060-1076 | queued are exactly the sessions whose recovery threw and that are closing or closed by then, each with the request its recovery made |
| LedgerRuns.RunKeepsInv | governance-service/issues/store.py:312-600 | after every run of all ledger transactions from an empty database, issues, audit log, confirmations, rule tables and proofs agree |
| LedgerRuns.StepKeepsInv | governance-service/issues/remediation.py:162-328 | each transaction, whatever its arguments and outcome, keeps the invariant and undoes nothing |
| LedgerRuns.FutureGrows | governance-service/issues/remediation.py:162-328 | confirmations, audit rows, finished runs and spent proofs of a database are still there, unchanged, in all its futures |
| LedgerRuns.SubjectIsStable | governance-service/issues/remediation.py:162-214 | the issue, anchor and runs a confirm command is about stay the same in every later database |
| LedgerRuns.ConfirmAnswers | governance-service/issues/remediation.py:162-287 | a confirm transaction writes only its one confirmation, status change and audit row together, and otherwise leaves every table as it was |
| LedgerTheorems.AuditReplaysStatus | governance-service/issues/store.py:20-27 | replaying an issue's audit events from open along the allowed transitions gives its current status, and its revision is their number |
| LedgerTheorems.ResolvedIsConfirmed | governance-service/issues/remediation.py:227-280 | a resolved rule-result issue has a confirmation whose revision after it is the issue's revision, with an all-pass revised group |
| LedgerTheorems.ReplayReturnsSnapshot | governance-service/issues/remediation.py:208-225 | sending a stored command again, with any decision the authority still gives the same principal, returns the stored snapshot and writes nothing, in every later database |
| LedgerTheorems.ConfirmThenReplay | governance-service/issues/remediation.py:162-287 | the grant that confirmed keeps answering for that confirmation, in every future and also after a reopen, until it expires |
| LedgerTheorems.KeyIsSpent | governance-service/issues/remediation.py:208-225 | under a used idempotency key nothing is ever written, and only the original command gets an answer |
| LedgerTheorems.ReopenedBetween | governance-service/issues/store.py:74-87 | two confirmations of one issue have a reopen strictly between them and distinct runs, correspondences and keys |
| LedgerTheorems.ChangesChain | governance-service/issues/store.py:555-600 | neighbouring audit events meet: each starts where the one before ended and is an allowed step |
| LedgerTheorems.EvidenceIsImmutable | governance-service/db.py:100-144 | after a run succeeded, its record and its result rows never change |
| LedgerTheorems.GroupsAreTheStoredRows | governance-service/issues/remediation.py:120-147 | in every later database a confirmation's groups are all and only the stored rows of their run, component and rule; the original holds the failing anchor, the revised one passes throughout, over another model version by the same rules |
| LedgerTheorems.GroupsExactlyWhen | governance-service/issues/remediation.py:230-246 | the groups of a confirmation match if and only if both runs can be trusted, over distinct versions by the same rules, the issue's result failed, the named revised result is one of the component's, and the component has as many revised results as original ones, all passing |
| LedgerTheorems.KeyIsRemembered | governance-service/issues/remediation.py:216-218 | a new confirmation is found under its own idempotency key, and every other key finds what it found before |
| LedgerTheorems.BatchDisposesOfAll | governance-service/issues/store.py:455-508 | a batch that succeeds creates or skips every item, changes no standing issue, and leaves an issue for every sourced item |
| LedgerTheorems.BatchIsIdempotent | governance-service/issues/store.py:455-508 | sending a batch of sourced items again creates nothing |
| LedgerDecisions.UnsourcedIsCreated | governance-service/issues/store.py:455-480 | an item without a source type or a reference is never taken for one that stands |
| LedgerTheorems.ProofIsSpentOnce | governance-service/issues/store.py:259-421 | in every later database a spent search proof with the same evidence returns the issue it bought, with other evidence is an error, and neither writes |
| LedgerTheorems.FormalIsBound | governance-service/issues/store.py:90-109 | in every reachable database an issue is formal exactly when it names a component, and then it names a model version, neither blank |
| LedgerTheorems.CreatedIssueStands | governance-service/issues/store.py:423-453 | creating an issue fails exactly for a component without a model version or a taken id, and then writes nothing; otherwise the issue is there in every later database, bound as created |
| LedgerDecisions.CreateAnswers | governance-service/issues/store.py:423-453 | what creating an issue writes, its component and version trimmed, and what its two refusals mean |
| LedgerDecisions.ProofAnswers | governance-service/issues/store.py:312-421 | what a search proof buys the first time, when it is refused, and how a second use is answered: refused to others, a conflict with other evidence, else the issue |
| LedgerRaces.OneWinner | governance-service/issues/store.py:555-600 | of any two transitions, confirmations or reopens that rest on one revision of one issue at most one writes, whatever happens between them |
| LedgerRaces.WinnerMovesOn | governance-service/issues/remediation.py:227-280 | a command that writes rests on the issue's present revision, moves that issue alone one revision on, and adds exactly one audit row for it |
| LedgerRaces.StaleNeverWrites | governance-service/issues/remediation.py:227-229 | a command that rests on a revision the issue has left behind never writes |
| LedgerRaces.ErrorsWriteNothing | governance-service/issues/remediation.py:281-287 | a transaction that answers with an error, or replays, leaves every table as it was |
| LedgerRaces.UncheckedMove | governance-service/issues/store.py:555-600 | a transition that names no revision moves the issue exactly when the status machine allows it and remediation is not reserved |
| LedgerRaces.MovesExactlyWhen | governance-service/issues/store.py:555-600 | a transition succeeds if and only if the revision it names, if any, is the present one, the status machine allows it and remediation is not reserved; then the issue alone moves one revision on with one audit row, and otherwise nothing changes |
| LedgerDecisions.ReachedFrom | governance-service/issues/store.py:20-27 | the status machine read backwards: from which statuses each status is reached |
| LedgerDecisions.TransitionAnswers | governance-service/issues/store.py:555-600 | the audit row a transition adds, and what its refusals mean |
| LedgerDecisions.ReopensExactlyWhen | governance-service/issues/remediation.py:289-328 | a reopen succeeds if and only if the command is well formed and about a formal rule-result issue with its row and bound run, the issue is resolved or rejected at the revision named, and a reopen grant that holds to the commit names its component, rule, tenant, project and original source; then the issue takes one step to reopened, else nothing changes, and each error says what is wanting |
| LedgerDecisions.ConfirmsExactlyWhen | governance-service/issues/remediation.py:162-287 | a first confirmation succeeds if and only if the command is well formed and about such an issue and two bound runs, exactly one case of an unexpired confirm grant fits them, revision and status are right, the rows show the failure fixed, nothing is used twice and the grant holds to the commit; it then resolves the issue in one step and stores what was read, field by field |
| LedgerDecisions.ReplaysExactlyWhen | governance-service/issues/remediation.py:213-225 | under a used key the stored snapshot is answered if and only if the same principal sends the same command under a grant that would confirm it and holds to the end |
| LedgerDecisions.RefusedFor | governance-service/issues/remediation.py:162-287 | what each refusal of a confirmation means: a malformed command, no such subject or no fix; no authority; a conflict with what is stored; an id that is taken |
| Text.CanonicalExactlyWhen | governance-service/issues/remediation.py:70-73 | an identifier is 1 to 512 characters without control characters, and none of white space at either end |
| Text.RuleDigestExactlyWhen | governance-service/issues/remediation.py:124-126 | a rule content identity is one of two tags and 64 lower-case hexadecimal digits |
| LedgerRaces.LateWorkerNeverWrites | governance-service/db.py:85-144 | once a step of a rule run has written, no step meant for the same or an earlier phase writes again, whatever happens between: the first terminal write beats every later completion and failure, and nothing finished starts again |
| LedgerRaces.WorksExactlyWhen | governance-service/db.py:85-144 | a worker's step writes exactly in its phases: creation of an absent run, start of a queued one, the end of a queued or running one |
| LedgerDecisions.WorkWrites | governance-service/db.py:85-144 | what each step of a rule run writes: the run field by field, and for a completion one row for each finding, in order |
| LedgerDecisions.FinishesExactlyWhen | governance-service/db.py:107-136 | a run ends with its results if and only if it is queued or running and no id drawn for a row is used twice |
| LedgerRaces.FailedRunIsNoEvidence | governance-service/db.py:138-144 | a failed run keeps its record, has no result rows and backs no evidence in every later database |
| LedgerScenario.ConfirmedTwice | governance-service/issues/remediation.py:162-328 | the premises of the theorem on two confirmations can be met: a run in which one issue is confirmed, reopened and confirmed again |
| LedgerStore.Store.CreateBatch | governance-service/issues/store.py:455-508 | the loop of inserts, rolled back whole on the first error, has the effect of the batch transaction |
| LedgerStore.Store.CompleteRun | governance-service/db.py:107-136 | the first terminal write wins: summary and rows appear together or not at all |
| LedgerStore.Store.RunEvidence | governance-service/issues/remediation.py:120-147 | the counting loop accepts a run exactly when its summary covers every stored row and outcome, and gives the group of the component and rule |
| LedgerStore.Store.Confirm | governance-service/issues/remediation.py:162-287 | the confirm transaction, with its three writes undone when the grant runs out before the commit |
| LedgerStore.Store.Reopen | governance-service/issues/remediation.py:289-328 | the reopen transaction, authorised before and after its writes, with the writes undone when the second answer is no |
| RuleEngine.RunRules | governance-service/rule_engine/engine.py:87-149 | every element of every evaluated rule has its own finding, in its place, with its guid, the rule's code and the predicate's outcome, there are no others, and the reported counts are those of the findings |
| RuleEngine.EachIsJudged | governance-service/rule_engine/engine.py:94-124 | the findings are those verdicts and no more |
| RuleEngine.TargetElements | governance-service/rule_engine/engine.py:30-41 | the other name of a type is used only when the schema lacks the target |
| RuleEngine.TargetsAre | governance-service/rule_engine/engine.py:94-106 | a rule code's target count is that of its last rule with a known predicate |
| RuleEngine.NewRowsAreCovered | governance-service/rule_engine/engine.py:132-149 | the rows stored for an engine result pass the ledger's coverage check against its summary |
| RuleEngine.EngineRunsAreCovered | governance-service/db.py:107-136 | an engine result persisted by the first terminal write passes the coverage check then and in every later database |
| RemediationHistory.WriterAndReaderAgree | governance-service/issues/remediation_history.py:120-189 | for a claim whose cases were confirmed, the reader gives the page of confirmations in order with the stored groups if every one of them is named by the grant, else denies; it never reports a record unusable |
| RemediationHistory.ClaimReads | governance-service/issues/remediation_history.py:120-189 | the exact outcome of every history claim about a confirmed issue, whatever cases it names: the verdict on its first bad case, else the page or a denial; unavailable is only ever said of a run a case names |
| RemediationHistory.PageShows | governance-service/issues/remediation_history.py:84-189 | whatever is stored, a page shows from its offset on one item for each of the issue's confirmations in order, with every field, the two groups included, of its own snapshot, and the total and next offset |
| RemediationHistory.ReadsExactlyWhen | governance-service/issues/remediation_history.py:120-189 | whatever is stored, a page is read if and only if the paging is in bounds, the claim is an unexpired history claim that names the version, each of its cases is about the issue's own row and stored sources, and every record of the page agrees with its columns, the issue and the claim |
| RemediationHistory.ReadRefusals | governance-service/issues/remediation_history.py:120-139 | paging out of bounds is unavailable, a claim that is no unexpired history claim on the issue is denied, and an issue that is no formal rule-result issue is missing, in that order |
| RemediationHistory.RecordRefusals | governance-service/issues/remediation_history.py:86-117 | a record that disagrees with its columns or its issue is unavailable, and one that only the claim does not cover is denied |
| RemediationHistory.CaseRefusals | governance-service/issues/remediation_history.py:137-163 | a case about another source is denied, one about a run without a stored source is unavailable, and so is an issue without a bound source of its own |
| RemediationHistory.BadGrantIsDenied | governance-service/issues/remediation_history.py:44-63 | whoever granted it, a grant that is missing, for another issue, without versions, with a malformed one or expired is denied |
| RemediationHistory.ShowsOnlyChecked | governance-service/issues/remediation_history.py:86-117 | a stored record is projected exactly when it passes each check of the reader |
| RemediationHistory.StoredGroupIsGood | governance-service/issues/remediation_history.py:66-83 | a group that holds exactly the stored rows passes the reader's own validation |
| RemediationHistory.RecordProjects | governance-service/issues/remediation_history.py:86-117 | every stored confirmation is projected with its own groups when the grant names its case and is denied otherwise |
| RemediationHistory.RowsForMembers | governance-service/issues/remediation_history.py:150-172 | the rows the reader pages over are exactly the issue's confirmations |
| RemediationHistory.RowsForOrdered | governance-service/issues/remediation_history.py:150-172 | those rows are in order of creation time and, where that is equal, of id |
| RemediationHistory.SourcesCheck | governance-service/issues/remediation_history.py:120-148 | the reader's checks of the issue's source and runs pass for every case that was confirmed |
| DiffMatching.MatchingIsOneToOne | governance-service/diff_engine/engine.py:36-105 | no element is in two pairs, and pairs join the two models |
| DiffMatching.MatchingIsMaximal | governance-service/diff_engine/engine.py:82-105 | an element reported removed and one reported added never share type, name and location |
| DiffMatching.LowerLevelsKeepTypes | governance-service/diff_engine/engine.py:58-105 | pairs made by tag or location join elements of equal IFC type |
| DiffMatching.KeyIsInjective | governance-service/diff_engine/keys.py:56-58 | the joined key tells types, names and locations apart, whatever bars a name contains |
| DiffMatching.SwappingMirrors | governance-service/diff_engine/engine.py:36-105 | swapping base and target mirrors every pair and changes nothing else |
| DiffMatching.SelfMatchingIsIdentity | governance-service/diff_engine/engine.py:36-105 | against itself every element is paired with itself and nothing else, GlobalIds missing or repeated or not |
| DiffMatching.OrderDoesNotMatter | governance-service/diff_engine/engine.py:90-105 | with shared GlobalIds unique, reordering either list leaves the pairs as they are |
| DiffMatching.OrderIndependenceIsSharedUniqueness | governance-service/diff_engine/engine.py:27-33 | the pairs ignore the order of both lists if and only if no GlobalId common to both models is repeated |
| DiffMatching.RepeatedGuidDependsOnOrder | governance-service/diff_engine/engine.py:27-33 | moving another holder of a repeated shared GlobalId to the front changes the pairs |
| DiffEngine.Match | governance-service/diff_engine/engine.py:43-105 | the three loops list exactly the pairs of the loop-free matching, each once |
| DiffEngine.MatchByGuid | governance-service/diff_engine/engine.py:27-56 | the dictionary of first holders yields the GlobalId pairs |
| DiffEngine.MatchByTag | governance-service/diff_engine/engine.py:58-80 | the buckets of unmatched elements yield the pairs of unambiguous (type, tag) |
| DiffEngine.MatchByLocation | governance-service/diff_engine/engine.py:82-105 | the zips of sorted buckets yield the pairs of equal rank |
| DiffEngine.RunDiff | governance-service/diff_engine/engine.py:36-165 | an item is reported if and only if it tells of a matched pair that moved beyond the tolerance in some coordinate, or whose property hash or, when asked, geometry hash changed, or of an element of no pair; each count is the number of such pairs or elements; base = matched + removed, target = matched + added |
| DiffEngine.ReportTold | governance-service/diff_engine/engine.py:107-148 | each change of each matched pair is told once, with the target's type and name, and the GlobalId of the target or else the base |
| DiffEngine.ReportInParts | governance-service/diff_engine/engine.py:107-148 | changed pairs come first, then removed, then added elements |
| DiffEngine.LeftoversInOrder | governance-service/diff_engine/engine.py:133-148 | removed and added elements are told of in the order of their model |
| DiffEngine.NothingIsLost | governance-service/diff_engine/engine.py:133-148 | every element is matched or reported exactly once |
| DiffEngine.SelfDiffReportsNothing | governance-service/diff_engine/engine.py:107-165 | a model compared with itself pairs all its elements and reports no item |
| DiffEngine.CountsAddUp | governance-service/diff_engine/engine.py:149-151 | the counts by change type sum to the number of items |
| PropertyConstraints.Validate | governance-service/search/interpreter.py:177-209 | the verdict is the meaning of the predicates: invalid with a non-finite value, contradictory exactly when no assignment of real numbers to properties satisfies all of them |
| PropertyConstraints.CheckGroup | governance-service/search/interpreter.py:185-209 | the tests on equalities and bounds of one property fail exactly when no number satisfies its predicates |
| PropertyConstraints.Limits | governance-service/search/interpreter.py:190-199 | the loop keeps the tightest bounds: a number respects them exactly when it satisfies every inequality |
| PropertyConstraints.GroupByName | governance-service/search/interpreter.py:178-183 | the predicates are filed by property, all of them, unless one is not finite |
| PropertyConstraints.SatisfiableByName | governance-service/search/interpreter.py:177-209 | a set of predicates is satisfiable exactly when each property's predicates are |
| PropertyConstraints.MatchedFiltersAreSatisfiable | governance-service/search/engine.py:282-296 | filters that some scanned element matches get the verdict accepted |
| SpanValidation.PassesIsPartition | governance-service/search/interpreter.py:311-393 | the one-pass validation raises no code exactly when every item is a sound span, the spans share no position and no filter, and every filter is claimed |
| SpanValidation.SpansMatchFilters | governance-service/search/interpreter.py:334-393 | a list that passes has as many spans as filters, in range, pairwise disjoint, one for each filter |
| SpanValidation.AcceptedAreSound | governance-service/search/interpreter.py:324-389 | whatever is submitted, accepted spans are sound and pairwise compatible |
| SpanValidation.CodeExactlyWhen | governance-service/search/interpreter.py:322-389 | an item is refused with a code if and only if it is what the code says, given the spans accepted before it: no object, of another shape, out of range or of a claimed filter, over an accepted position, without words, over another field's anchor, without its own, or not saying its filter |
| SpanValidation.OrderDoesNotMatter | governance-service/search/interpreter.py:324-393 | reordering a list that passes changes neither the outcome nor the accepted spans |
| SpanValidation.BlankOut | governance-service/search/interpreter.py:395-398 | the nested loops blank exactly the positions inside accepted spans |
| SpanValidation.Candidate.ValidateConsumedSpans | governance-service/search/interpreter.py:311-407 | the new flags, codes, spans and unresolved terms of the candidate, for every submission |
| SpanValidation.Candidate.ScanItems | governance-service/search/interpreter.py:322-389 | the loop over the items accepts the spans and raises the codes of the scan, starting from what the candidate already had |
| SpanValidation.Candidate.MarkUnbound | governance-service/search/interpreter.py:391-393 | the candidate becomes invalid exactly when some field has a filter no span claims |
| SpanValidation.Candidate.RefreshValidation | governance-service/search/interpreter.py:117-122 | usable means schema-valid with at least one filter; complete means usable with nothing unresolved |
| SpanValidation.Candidate.Validate | governance-service/search/interpreter.py:499-501 | a candidate ends complete exactly when its spans partition its filters, the text outside them is only stop words and punctuation, and no unsupported term occurs |
| SearchResponse.Trim | governance-service/search/engine.py:957-978 | the binary search keeps the longest prefix of rows that fits, and fails exactly when a page without rows does not fit |
| SearchResponse.OneMoreRow | governance-service/search/engine.py:712-758 | a page with one row more is larger, although a complete page drops a long hint |
| SearchResponse.MeasuredOneByteShort | governance-service/search/engine.py:944-958 | the page measured for trimming is one byte smaller than the same page sent without proofs and not limited |
| SearchResponse.AttachmentIsOvercharged | governance-service/search/engine.py:1010-1031 | attaching a proof grows a row by at least three bytes less than the accounting charges |
| SearchResponse.AttachProofs | governance-service/search/engine.py:993-1031 | the loop over the rows, its two caps, its budget and the proof it gives back |
| SearchResponse.AttachAllAccounts | governance-service/search/engine.py:993-1031 | after any number of attachments the budget holds, counts match the rows, and the registry gained exactly the proofs the rows show |
| SearchResponse.Finish | governance-service/search/engine.py:939-1044 | an answer shows the longest prefix that fits and is within the maximum after any number of proofs; it is withheld exactly when an empty page is too large; truncated or partial answers carry no proof |
| SearchScan.Collect | governance-service/search/engine.py:820-845 | the nested loops over classes and instances give the first instance of each id, or stop where the deadline or the candidate budget is met |
| SearchScan.CandidatesAreFirsts | governance-service/search/engine.py:820-845 | each id among the instances has exactly one candidate |
| SearchScan.CandidatesAre | governance-service/search/engine.py:809-845 | an id has a candidate if and only if an instance of a named class, or of one of eight classes when none is named, has it |
| SearchScan.MatchingIsWanted | governance-service/search/engine.py:867-897 | an element matches if and only if its class, its storey, each fragment of its name and each property answer the query, each only if asked for, and every such candidate is counted |
| SearchScan.ScanElements | governance-service/search/engine.py:847-937 | every candidate is scanned and counted, and the first matches up to the page limit become rows, unless the deadline ends the scan, with the counts reached |
| SearchScan.FindRows | governance-service/search/engine.py:770-937 | the filter budget, both loops and their exits, in order, over one clock |
| SearchScan.StopsExactlyWhen | governance-service/search/engine.py:770-858 | the scan runs to its end if and only if no filter list is too long, the whole file is within the candidate budget, and the clock shows time left at each of the looks it takes |
| SearchResponse.WithheldCountsAreBounds | governance-service/search/engine.py:671-705 | the counts of a withheld answer are lower bounds for the whole file, whichever budget withheld it |
| SearchResponse.Search | governance-service/search/engine.py:761-1044 | which budget withholds an answer and what it then says; otherwise every row shown is of a candidate that answers the query, with its own data and the flags of its proof, all such candidates are counted as matched, the rows are the longest prefix of the first matches that fits, the size is within the maximum, and the registry gains the proofs shown |
| SearchResponse.ResponseSize | governance-service/search/engine.py:712-758 | what a response weighs, split into what rows and proofs change and what they do not |
| SearchResponse.ResponseSays | governance-service/search/engine.py:725-758 | what an answer says of its scope, its next step and its eligibility, for complete, truncated and partial tables |
| SearchResponse.StatsSay | governance-service/search/engine.py:723-744 | the numbers of an answer are those of the scan and of the rows shown |
| SearchResponse.RowSays | governance-service/search/engine.py:908-936 | a row says its data, its flags and its proof if it has one |
| SpatialTree.SeenIsReachable | governance-service/app.py:271-296 | the elements seen in the end are exactly those reachable from the root, cycles or not |
| SpatialTree.ExploreVisits | governance-service/app.py:271-296 | in the order nodes are made, the first node of an element carries its spatial parts in order and every later one is a leaf |
| SpatialTree.ExploreSize | governance-service/app.py:271-296 | a subtree has one node more than there are spatial edges out of the elements it newly sees |
| SpatialTree.TreeOfRoot | governance-service/app.py:271-308 | the tree names exactly the reachable elements, expands each once, and has one node more than there are spatial edges out of them |
| SpatialTree.Walk.Subtree | governance-service/app.py:271-296 | the recursive method with the shared set terminates and builds the specified tree and set |
| SpatialTree.Walk.Parts | governance-service/app.py:284-289 | the nested loops over relations explore the spatial parts in order |
| SpatialTree.CountTypes | governance-service/app.py:276-280 | the counts are those of the classes of contained elements |
| SpatialTree.EdgesAre | governance-service/app.py:284-289 | an element leads to the spatial elements its relations name, once for every time they are named |
| SpatialTree.FlatOccurrences | governance-service/app.py:275-279 | a class is counted as often as the containment relations name it |
| SpatialTree.TreeOfModel | governance-service/app.py:299-308 | no tree without a project; otherwise the tree of the first one, with its reachable elements, expansions and size |
| SessionPages.ListingIsComplete | bim-review-coordinator/src/app.ts:2058-2105 | for every limit, the pages show each closed session exactly once, newest first, and stop, if and only if the filter agrees with the sort on the closed sessions and the cursors fit |
| SessionPages.MadeKeysAreListed | bim-review-coordinator/src/services/sessionStore.ts:148-156 | sessions with the ids and timestamps the service makes itself are all listed, each once, newest first, for every limit |
| SessionPages.TraversalIsComplete | bim-review-coordinator/src/app.ts:2064-2105 | following the cursors visits a sorted list in full for every limit exactly when filter and sort agree and the cursors fit; one-item pages already need both |
| SessionPages.FollowIsPages | bim-review-coordinator/src/app.ts:2064-2105 | what a client sees that follows the cursors is page after page of the route |
| SessionPages.PageIs | bim-review-coordinator/src/app.ts:2072-2104 | a page holds the sessions after its cursor by text, in the order of the sort, up to the limit, and a next cursor exactly when more are left |
| SessionPages.CursorExactlyWhen | bim-review-coordinator/src/app.ts:5529-5545 | a cursor is refused unless it is short and decodes to a timestamp that denotes an instant and a safe id |
| SessionPages.ClosedKeysAre | bim-review-coordinator/src/app.ts:2069-2070 | the listing is of the closed sessions only, and of all of them |
| SessionPages.DisagreementSkips | bim-review-coordinator/src/app.ts:2066-2074 | a session the filter does not keep after its predecessor in the sort is never shown by one-item pages |
| SessionPages.MixedCaseIdIsSkipped | bim-review-coordinator/src/app.ts:2066-2074 | such a pair: two ids of the safe form, which the service does not make, that differ in case and were created at one instant |
| SessionPages.SortInOrder | bim-review-coordinator/src/app.ts:2068-2071 | the sort puts distinct sessions strictly in order |
| SessionPages.RestShrinks | bim-review-coordinator/src/app.ts:2072-2074 | every next cursor leaves strictly fewer sessions, so following them always ends |
| SessionLineage.LatestJobOfLineage | bim-review-coordinator/src/app.ts:1789-1819 | the walk with a visited set, on any links, cyclic or dangling, gives the job of the walk without one |
| SessionLineage.LookupIsNearest | bim-review-coordinator/src/app.ts:1789-1819 | a job is returned exactly when it is the latest of the nearest ancestor with any, within the bound, and every session up to it agrees on tenant, project and model |
| SessionLineage.LatestIsFirst | bim-review-coordinator/src/app.ts:1784-1787 | of jobs equally new, the one listed first is taken |
| SessionLineage.LeadsTo | bim-review-coordinator/src/services/sessionStore.ts:466-478 | the bounded, cycle-safe walk finds the target exactly when the chain passes through it within the bound |
| SessionLineage.RecreationDescendantIds | bim-review-coordinator/src/services/sessionStore.ts:461-480 | exactly the sessions whose chain passes through the target are listed, in listing order |
| SessionLineage.PurgeKeepsLookups | bim-review-coordinator/src/app.ts:2910-2933 | a permitted purge leaves the lookup of every remaining session as it was |
| SessionLineage.PurgeRunKeepsLookups | bim-review-coordinator/src/app.ts:2910-2933 | so does any run of purge requests |
| SessionLineage.UnguardedPurgeLosesJob | bim-review-coordinator/src/app.ts:2914-2920 | without the guard on descendants a purge can lose a remaining session's job |
| SessionLineage.SessionStore.Purge | bim-review-coordinator/src/app.ts:2891-2933 | the route removes the session exactly when it is closed or failed without descendants, answers why otherwise, and disturbs no lookup |
| ExpressionRoundTrip.RoundTrip | docs/plans/support.js:205-294 | evaluating the text of any tree of the grammar, with any white space around it, gives the value of the tree |
| ExpressionRoundTrip.FindsOperator | docs/plans/support.js:244-259 | the operator found is the printed one, however deep the left operand's brackets are |
| ExpressionRoundTrip.OperatorIsLongest | docs/plans/support.js:250-255 | the operator read is the longest that stands there, also at the end of the text |
| ExpressionRoundTrip.EqualityDoesNotWrap | docs/plans/support.js:233-243 | parentheses around the left operand only are not taken for parentheses around the whole |
| ExpressionRoundTrip.StepsRoundTrip | docs/plans/support.js:260-294 | the cursor reads exactly the printed steps, nested brackets included |
| ExpressionRoundTrip.QuotedIsReturned | docs/plans/support.js:205-259 | quoted text evaluates to its content if and only if the operator scan, which ignores quotes, finds nothing in it |
| ExpressionRoundTrip.QuotedIsCompared | docs/plans/support.js:213-228 | otherwise it is cut at the first operator found and the pieces are compared |
| ExpressionRoundTrip.QuotedExamples | docs/plans/support.js:244-259 | a text with a sign pair that is not returned, one that is because a sign precedes the pair, and one with an open bracket that is |
| ExpressionRoundTrip.BrokenPathIsUndefined | docs/plans/support.js:260-294 | a path that goes on with another character, a dot without a name or a bracket that is never closed is undefined |
| ExpressionRoundTrip.NoBeginningIsUndefined | docs/plans/support.js:260-263 | so is text that begins like no literal, negation, parenthesis or path |
| ExpressionRoundTrip.NullishPath | docs/plans/support.js:264-291 | a path that comes upon null or undefined is undefined, and else reads one property after the other |
| ExpressionRoundTrip.IdentifierExactlyWhen | docs/plans/support.js:203 | which texts are identifiers |
| ExpressionRoundTrip.NumberExactlyWhen | docs/plans/support.js:204 | which texts are numbers |
| ExpressionResolver.ParensWrapWhole | docs/plans/support.js:233-243 | true exactly when no closing parenthesis before the last character returns to depth zero |
| ExpressionResolver.FindTopLevelEquality | docs/plans/support.js:244-259 | the first position outside brackets that starts an operator, if any |
| ExpressionResolver.FindClose | docs/plans/support.js:274-284 | the bracket that closes the one before the start, if any |
| ExpressionResolver.ResolvePath | docs/plans/support.js:260-294 | the cursor loop reads the value the recursive reading of the steps gives |
| ExpressionResolver.Evaluate | docs/plans/support.js:205-232 | the loops and the recursion over shorter texts end, with the value of the recursive definition |

## Left out

- Routing, schema parsing, sockets, authentication tokens, rate limits, proxies and audit trace ids.
- Clocks, random ids and UUIDs are arguments; SHA-256 is taken to be injective, so a request hash is the request itself.
- The service between sessions and disk: reads and writes of one session record and appends of one event are atomic steps.
- Reading a session or its log does not fail at startup: an exception there, outside the loop's try, ends the whole loop. The timer that asks for queued retries is left out: a retry is one more close call, at any time.
- Viewer leases, idle tracking, trace logging and participants of a session: no close decision reads them.
- Two early returns of the close call, taken when fewer final events than expected are on disk right after they were appended, or when the status just written is not closing: appends and updates are atomic, so they are never taken.
- Sessions still in the created status are not picked up by startup recovery, as in the code, and an abandoned checkpoint may keep an orphan sessionClosing event; nothing is claimed about either.
- Authorities other than the request envelope's: the ledger's decisions are those of one class of signed claims.
- Titles, descriptions, severities, assignees and time stamps of issues, and the members' evidence columns beyond id, component, rule and outcome: no check of the ledger depends on them.
- Rows of one rule group are kept in insertion order instead of the order of their ids.
- Legacy rows and migrations: databases start empty.
- White space is ASCII white space wherever text is trimmed.
- The displayed score, which is rounded to one decimal and may read 100 with failures present.
- Element ids are unique within a model file, and IFC class names and rendered locations contain no bar: the diff's theorems take this of their inputs.
- The rule predicates pass, fail or raise; the engine's findings are stated for such a library.
- Geometry, placement and property hashing in the diff: an element carries the rendered location, the coordinates and opaque hashes.
- Regular expressions, alias tables and stop words of the interpreter are functions of the text that the proofs do not look into.
- The deterministic interpreter and the model client: only the validation of structured candidates is modelled.
- File sizes, mapping files and the evidence text of a row: the search is modelled from an open model on, and the matching of storeys, names and values is any function of the element.
- A resource-limited response carries no size guarantee, as in the code.
- The proof registry's expiry and per-principal quotas: minting is any function of the row and the ids the registry holds.
- An element whose id cannot be read is expanded on every visit by the spatial traversal; in the model every element has an id.
- The sort of the platform is an insertion sort with the same comparison; the text encoding of a cursor is any encoding its decoder undoes.
- Time stamps of intake jobs denote instants; one that does not parse is not part of this model.
- Purge failures between the deletions of one session's files; the model purges in one step.
- Getters that throw, symbols and arrays as values of template expressions: values and their operations are any functions.
- CloseCoordinator.Coordinator.Close: does not model the viewer-lease release and the lifecycle log line, because no later step of the protocol reads them.
- The order in which matched pairs are reported among themselves, and the warnings and the score of a rule run.
- DiffEngine.RunDiff: returns the list of pairs as a ghost result, because the source keeps that list local.
