# Verified models of the back-end services

This project models, in Dafny, the services of the repository that hold real algorithms and state machines, and
proves what they promise for every input, every run or every interleaving:

- **Confidence calibration** (`IsotonicRegression.dfy`, `ConfidenceCalibrator.dfy`): clustering of observations, Pool
  Adjacent Violators with its block stack, the calibration curve and the piecewise-linear lookup. The pooled values are
  proved to be the unique weighted least-squares best fit among all non-decreasing fits.
- **Account merge and undo** (`AccountTables.dfy`, `AccountMergeModel.dfy`, `AccountMergeRows.dfy`,
  `AccountMergeTheorems.dfy`, `AccountMergeUndo.dfy`, `AccountMergeService.dfy`, `AccountMergeExamples.dfy`): the merge with an undo ledger, the undo, the independent merge of the
  resolution queue, and the creation of accounts, as transactions over tables with the unique and foreign keys the schema
  declares.
- **Call sync** (`CallTables.dfy`, `CallSync.dfy`, `CallSyncEngine.dfy`) and **run ledger** (`IntegrationRuns.dfy`): the laws
  of persisting a call, the paged sync with a saved cursor as a machine that may stop between any two writes, the engine's
  own loop, and the idempotency-keyed ledger with capped replays.
- **PII masking** (`PiiMasker.dfy`), **circuit breaker** (`CircuitBreaker.dfy`), **token bucket**
  (`OutboundRateLimiter.dfy`), **fixed-window limiter** (`RateLimiter.dfy`), **response cache** (`ResponseCache.dfy`),
  **chunk worker pool and tag aggregation** (`TaggerPool.dfy`), **dead-letter replay** (`DeadLetterReplay.dfy`) and
  **usage limits** (`UsageLimits.dfy`).
- `StableSort.dfy` stands for the array sort the services call, and `Options.dfy` for nullable values.

Numbers are mathematical reals or integers, clocks and generated ids are inputs, and a database transaction is one atomic
step that commits everything or changes nothing. A dictionary is a map, a JavaScript `Map` whose order matters is a
sequence of entries, and a nullable column is an `Option`; where the code tests truthiness the empty string counts as
missing.

## Findings

- **A merge that would copy a Salesforce id never commits.** `executeMerge` gives the primary the secondary's Salesforce id
  before the secondary is deleted (src/services/account-merge.ts:385-414), while the schema makes (organization, Salesforce
  id) unique, so the database refuses the update. `SalesforceIdAlwaysTaken` proves it for every pair of accounts,
  `SalesforceIdBlocksMerge` gives a database in which nothing else stands in the way, and `ExecuteMergeTransaction` gives the
  exact condition under which a merge commits. The queue's merge is not affected.
- **Duplicate contacts lose their call links in one merge and not in the other.** A comment in `executeMerge` speaks of
  reassigning the links (src/services/account-merge.ts:266), the code clears them; `mergeAccounts` redirects them.
  `ExecuteMergeKeepsLinkedEmails` and `QueueMergeKeepsLinkedEmails` state both, and `LinkIsCleared` is a merge that loses a link.
- **A completed merge can be undone only while nobody takes the freed domain.** The merge deletes the secondary and keeps its
  domain as an alias at most; `createAccountFromCall` (src/services/entity-resolution-queue.ts:342-359), like the other places
  that create accounts, looks for a domain only among accounts. An account with that domain makes the database refuse to
  re-create the deleted one (src/services/account-merge.ts:498). `UndoFitsIffDomainFree` is the exact condition for one undo,
  `UndosStayOpenIff` proves over whole runs that undos stay possible exactly when no new account takes such a domain, and
  `UndoIsRefused` is a run that ends in a refused undo.
- **Both merges delete the secondary's library quotes** through a cascade (prisma/schema.prisma:740), and no undo brings them
  back: `QuotesGoWithTheirAccount` proves over every run that a quote is lost exactly when its account is merged away.
- **Merged domain coverage is the union of both accounts' domains, with one exception**: if the primary's own domain is the
  empty string and only the secondary has the empty string as an alias, that alias is dropped. `CoverageIsTheUnion` proves
  that this is the only exception, and `EmptyAliasIsDropped` is a merge that meets it.
- **A provider that returns a cursor with its last page makes an interrupted sync read on.** The provider interface promises
  a null cursor there (src/integrations/types.ts:181); src/integrations/grain-provider.ts:167-168 passes the remote cursor on
  whatever the remote says about more pages, and can do so again where the pages behind that cursor end. `ResumeIsExact`
  proves, by a condition on the tables before and the pages alone, when interruptions leave no trace, and
  `LeftoverCursorReadsOn` builds histories in which they do.
- **A new call that lists an email twice stops every sync that reaches it.** (callId, email) is unique for participants
  (prisma/schema.prisma:539) and they are written without skipping duplicates (src/integrations/sync-engine.ts:547), so the
  transaction is refused each time the call is read. `CompletesIffAccepted` proves that a sync can complete exactly when its
  pages hold no such new call, and `OneCallStopsSync` is such a call.
- **The cache is not least-recently-used under overlapping loads**, although its comment says so
  (src/lib/response-cache.ts:12-16). `OverlappingLoadsBreakUseOrder` is a history in which the key looked up later is thrown
  out first, and `UseOrderIsExact` proves for every history that the entries stay in order of use exactly when each load that
  finishes finds its key stored, or nothing kept beside it, or the newest entry used before its key.
- **A run whose caller died stays running for good**: its row is never restarted, so its idempotency key is spent
  (`SettledRowsAreFinal`). `SettledIffUnchangeable` proves that exactly the rows nobody holds and that have not failed are beyond
  change, and `AbandonedRunKeepsItsKey` is a run that leaves one running.
- **The token bucket keeps its bound only with room for a whole token**: for every trace with a call, grants stay within
  capacity plus rate times T exactly when the capacity is at least 1 (`BoundNeedsAWholeToken`); with the larger of capacity and
  1 in its place the bound holds for every capacity (`GrantsAreAlwaysBounded`).
- The window limiter lets fewer than twice the limit through in any window-long interval, one better than the obvious bound
  (`AdmissionsAreBounded`); a limit of 0 still lets the first request of each window through.

## Model

| member | source | states |
|---|---|---|
| StableSort.SortContract | src/services/confidence-calibrator.ts:120-123 | the sort orders by the comparator and keeps exactly the given elements |
| StableSort.SortIsStable | src/services/confidence-calibrator.ts:120-123 | elements the comparator does not tell apart keep their order |
| StableSort.StableOrderIsUnique | src/services/confidence-calibrator.ts:120-123 | any ordered sequence with the same ties in the same order is the sorted one, so every stable sort gives this result |
| StableSort.OrderIsUnique | src/middleware/pii-masker.ts:177-183 | where the comparator tells elements apart, order and elements decide the sequence |
| IsotonicRegression.PoolAdjacentViolators | src/services/confidence-calibrator.ts:263-292 | the block stack tiles all groups contiguously, each block carries the weight and weighted mean of its groups, every prefix of a block averages at least the block value, and block values never descend |
| IsotonicRegression.PoolingKeepsSound | src/services/confidence-calibrator.ts:280-290 | pooling a violating pair keeps mean and prefix invariant |
| IsotonicRegression.SummationByParts | src/services/confidence-calibrator.ts:274-291 | with non-negative prefix surpluses a non-decreasing fit correlates non-positively with the residuals |
| IsotonicRegression.PooledFitIsBest | src/services/confidence-calibrator.ts:263-292 | the pooled fit is non-decreasing, no non-decreasing fit has a smaller weighted squared error, any other is worse by at least its weighted squared distance, so it is unique |
| IsotonicRegression.FitIsNonDecreasing | src/services/confidence-calibrator.ts:263-292 | the fitted values never descend |
| IsotonicRegression.PoolingConserves | src/services/confidence-calibrator.ts:280-290 | total weight and total weighted value of the blocks are those of the groups |
| IsotonicRegression.BlockValueInUnit | src/services/confidence-calibrator.ts:280-290 | pooled accuracies stay in [0, 1] |
| ConfidenceCalibrator.Cluster | src/services/confidence-calibrator.ts:247-261 | clusters cut the sorted samples into maximal runs less than 0.01 above their first element; each group has its number of samples, their mean confidence, and the share of them that was correct, counted on the samples |
| ConfidenceCalibrator.CountsTheCorrect | src/services/confidence-calibrator.ts:257-258 | the count is the number of samples whose answer was correct |
| ConfidenceCalibrator.TotalAdds | src/services/confidence-calibrator.ts:255-256 | the total of two lists of samples is the sum of both totals, and of one sample its confidence |
| ConfidenceCalibrator.GroupAverages | src/services/confidence-calibrator.ts:255-260 | a group times its weight gives the total confidence and the number of correct samples of its slice |
| ConfidenceCalibrator.ClusteringIsGood | src/services/confidence-calibrator.ts:247-261 | groups ascend strictly in confidence, hold accuracies in [0, 1] and positive weights |
| ConfidenceCalibrator.FitIsotonicRegression | src/services/confidence-calibrator.ts:237-306 | the curve has one point per pooled block, at the middle group of the block, and is a good curve for any non-empty input |
| ConfidenceCalibrator.FittedCurveIsGood | src/services/confidence-calibrator.ts:294-303 | curve points ascend strictly in confidence, never descend in accuracy, and lie in [0, 1] |
| ConfidenceCalibrator.FitConserves | src/services/confidence-calibrator.ts:247-292 | block weights sum to the number of observations, and weighted values to the number of observations that were correct |
| ConfidenceCalibrator.PointIsInTheMiddle | src/services/confidence-calibrator.ts:294-303 | a curve point stands at the middle group of its block, or the earlier of the two in the middle, at the block's value |
| ConfidenceCalibrator.Clamp | src/services/confidence-calibrator.ts:180-181 | the nearest point of [0, 1] |
| ConfidenceCalibrator.LookupIsMonotone | src/services/confidence-calibrator.ts:183-202 | a larger argument never maps to a smaller accuracy |
| ConfidenceCalibrator.LookupHitsPoints | src/services/confidence-calibrator.ts:192-202 | the lookup passes through every curve point |
| ConfidenceCalibrator.LookupIsAffine | src/services/confidence-calibrator.ts:192-202 | between two neighbouring points the lookup is the straight line through them |
| ConfidenceCalibrator.LookupIsAFunction | src/services/confidence-calibrator.ts:192-202 | at a joint both neighbouring segments give the same value |
| ConfidenceCalibrator.Calibrator.constructor | src/services/confidence-calibrator.ts:53-58 | starts uncalibrated |
| ConfidenceCalibrator.Calibrator.BuildCalibration | src/services/confidence-calibrator.ts:103-167 | stores the fit of the sorted observations and sets the flag, or for no observations stores the identity line and clears it; the blocks hold as many samples and as many correct ones as the observations, and each point stands in the middle of its block |
| ConfidenceCalibrator.Calibrator.AdjustConfidence | src/services/confidence-calibrator.ts:173-205 | returns the value at the clamped score, in [0, 1], on the straight line between the neighbouring points, or the raw score if uncalibrated; the final return is unreachable |
| ConfidenceCalibrator.AdjustmentIsMonotone | src/services/confidence-calibrator.ts:173-205 | adjusted scores are ordered as the raw scores over all reals |
| AccountMergeService.MoveContacts | src/services/account-merge.ts:249-280 | in any row order, exactly the duplicates by email are dropped with their links cleared and the other contacts move; the moved ids are exact |
| AccountMergeService.MoveContactsAndLinks | src/services/entity-resolution-queue.ts:399-424 | the same contacts result from looking up the table as it stands, and links of duplicates go to the contact with that email |
| AccountMergeService.LookupIsStable | src/services/entity-resolution-queue.ts:404-410 | half-way through the loop the target has the email exactly when it had it at the start, on the same contact |
| AccountMergeService.AddMainDomain | src/services/account-merge.ts:335-352 | the secondary's main domain becomes an alias unless empty, equal to the primary's, or already there |
| AccountMergeService.MoveAliases | src/services/account-merge.ts:332-383 | in any row order, other rows stay, none is left on the secondary, the primary gains exactly the inherited domains, (account, domain) stays unique; the added list is exact |
| AccountMergeService.RecreateAliases | src/services/entity-resolution-queue.ts:426-455 | the same alias coverage results from creating rows afresh and deleting the source's |
| AccountMergeService.ExecuteMergeTransaction | src/services/account-merge.ts:214-446 | commits exactly when both accounts are in the organization and distinct, events do not clash, no regeneration log blocks the delete and no Salesforce id would be copied; which check refuses; then every row of every table is as stated column by column, and the reported numbers are those of the recorded rows |
| AccountMergeService.ExecuteMergeSteps | src/services/account-merge.ts:242-446 | the statements of the transaction, with the tables, ledger row and counts they leave |
| AccountMergeRows.ExecuteMergedRows | src/services/account-merge.ts:249-433 | row by row: contacts, calls, stories, events, grants and quotes passed on or deleted, links of dropped contacts cleared, the primary's missing columns filled, other accounts untouched, and the ledger row recording the deleted account and the rows that moved |
| AccountMergeService.MergeAccountsTransaction | src/services/entity-resolution-queue.ts:371-480 | commits exactly when both accounts are in the organization and distinct, events do not clash and no regeneration log blocks the delete; which check refuses; then only the source's account row is gone and every other account, the target included, has the same row |
| AccountMergeRows.QueueMergedRows | src/services/entity-resolution-queue.ts:392-478 | row by row: rows of the source passed on, links of dropped contacts redirected to the contact with that email, and no account row or ledger row changed |
| AccountMergeService.UndoMergeTransaction | src/services/account-merge.ts:448-548 | commits exactly for a completed run of the organization whose account and contacts the database takes back; which check refuses |
| AccountMergeRows.UndoneRows | src/services/account-merge.ts:494-545 | row by row: recorded rows that still are with the primary go back, all others stay, the account is there again with the snapshot's columns, and only that run is marked undone |
| AccountMergeService.Store.ExecuteMerge | src/services/account-merge.ts:241-446 | one atomic transaction that keeps the database consistent |
| AccountMergeService.Store.MergeAccounts | src/services/entity-resolution-queue.ts:392-479 | one atomic transaction that keeps the database consistent and changes no account row but the source's |
| AccountMergeService.Store.UndoMerge | src/services/account-merge.ts:459-547 | commits exactly for a completed run of the organization while no account of it holds the deleted account's domain, and keeps the database consistent |
| AccountMergeService.Store.CreateAccount | src/services/entity-resolution-queue.ts:342-359 | creates the account with that name and domain exactly when no account of the organization holds the domain, and changes nothing else |
| AccountMergeService.NewAccountIsUnique | src/services/entity-resolution-queue.ts:342-359 | the new account keeps the unique keys exactly when its domain is free |
| AccountMergeService.SalesforceIdAlwaysTaken | src/services/account-merge.ts:385-414 | whenever the merge would copy the Salesforce id, the secondary still holds it |
| AccountMergeService.CopyBreaksTheKey | src/services/account-merge.ts:385-414 | the update of the primary keeps (organization, domain) and (organization, Salesforce id) unique exactly when it copies no Salesforce id |
| AccountMergeExamples.SalesforceIdBlocksMerge | src/services/account-merge.ts:385-414 | a consistent database in which all checks pass and nothing else blocks, and the update of the primary breaks the unique key |
| AccountMergeModel.CrmColumnsFill | src/services/account-merge.ts:385-411 | a CRM column keeps the primary's value and takes the secondary's only where the primary has none |
| AccountMergeModel.HandoverKeepsContacts | src/services/account-merge.ts:264-280 | (account, email) stays unique |
| AccountMergeModel.HandoverKeepsEvents | src/services/account-merge.ts:320-324 | moving events keeps their key unique exactly when none clash |
| AccountMergeModel.HandoverKeepsReferences | src/services/account-merge.ts:282-330 | no row is left pointing at the deleted account |
| AccountMergeModel.ExecuteMergeKeepsConsistent | src/services/account-merge.ts:242-446 | every constraint and the run ledger invariant survive a merge |
| AccountMergeModel.QueueMergeKeepsConsistent | src/services/entity-resolution-queue.ts:392-479 | every constraint and the run ledger invariant survive the queue's merge |
| AccountMergeModel.UndoKeepsConsistent | src/services/account-merge.ts:459-547 | every constraint and the run ledger invariant survive an undo |
| AccountMergeTheorems.EveryRunStaysConsistent | src/services/account-merge.ts:242-547 | in every state of every run of merges of either kind, undos and new accounts all references resolve, keys are unique, links point at live contacts, and a completed run's secondary account does not exist and is named by no other completed run |
| AccountMergeTheorems.EveryRunConserves | src/services/account-merge.ts:242-547 | no run loses a call, story, event, grant, participant or email address, and ledger rows only go from completed to undone |
| AccountMergeTheorems.QuotesGoWithTheirAccount | prisma/schema.prisma:740 | over every run a library quote is lost exactly when a merge deletes its account; none comes back or appears |
| AccountMergeUndo.UndoFitsIffDomainFree | src/services/account-merge.ts:494-530 | in a consistent database a completed run can be undone exactly when no account of the organization holds the domain of the deleted account |
| AccountMergeUndo.CreateAndReserved | src/services/entity-resolution-queue.ts:342-359 | a new account leaves the domains of all deleted accounts free exactly when it takes none of them |
| AccountMergeUndo.UndosStayOpenIff | src/services/account-merge.ts:494-530 | over every run of merges, undos and new accounts, every completed run can be undone in every state exactly when no new account takes the domain of a deleted one |
| AccountMergeExamples.FreedDomainBlocksUndo | src/services/account-merge.ts:494-510 | after the merge of any account with a domain, a new account can take that domain, and the undo is refused |
| AccountMergeExamples.UndoIsRefused | src/services/account-merge.ts:494-510 | a concrete run that ends with an undo the database refuses |
| AccountMergeUndo.MergeThenUndo | src/services/account-merge.ts:263-304 | merge then undo restores every call, story and non-duplicate contact and the account except its CRM ids; events and grants stay with the primary, quotes and links of duplicates are lost; a second undo is refused |
| AccountMergeUndo.ContactsComeBackWhole | src/services/account-merge.ts:264-272 | the contact table comes back whole exactly when no email stood on both accounts |
| AccountMergeUndo.NestedUndosGiveBack | src/services/account-merge.ts:459-547 | merges and undos that nest like brackets, to any depth, give back every call, every story, every contact that was not dropped and every account under its name and domain, and lose no email address |
| AccountMergeUndo.UniqueEmailsComeBack | src/services/account-merge.ts:512-524 | after nested undos a contact whose email no other contact has is back on its account |
| AccountMergeUndo.OuterUndoStaysOpen | src/services/account-merge.ts:459-530 | when everything after a merge is undone, the database takes the undo of that merge as well |
| AccountMergeTheorems.ThirdAccountsUntouched | src/services/account-merge.ts:249-538 | no step touches a row of an account it does not name |
| AccountMergeTheorems.MergesAgree | src/services/entity-resolution-queue.ts:393-478 | from the same state both merges leave the same contacts, owners of calls, stories, events and grants, and domain coverage |
| AccountMergeTheorems.QueueMergeKeepsLinkedEmails | src/services/entity-resolution-queue.ts:412-417 | the email behind every participant link is kept |
| AccountMergeTheorems.ExecuteMergeKeepsLinkedEmails | src/services/account-merge.ts:265-271 | the email behind a link is kept exactly when the linked contact is no duplicate |
| AccountMergeExamples.LinkIsCleared | src/services/account-merge.ts:265-271 | a merge in a consistent database that clears the link to a duplicate and loses the email behind it |
| AccountMergeTheorems.CoverageIsTheUnion | src/services/account-merge.ts:332-383 | coverage becomes the union of both accounts' domains exactly unless the empty-string exception applies |
| AccountMergeExamples.EmptyAliasIsDropped | src/services/account-merge.ts:332-383 | a merge in a consistent database after which the one domain of the secondary is covered by nobody |
| CallSyncEngine.Engine.PersistCall | src/integrations/sync-engine.ts:516-570 | refused, with nothing changed, exactly for a new call with an email listed twice; else a known call is refreshed by non-null fields, a new one gets its row, participants and the text of its transcript, and is queued if it has one |
| CallSyncEngine.Engine.PersistPage | src/integrations/sync-engine.ts:469-477 | persists a page in order up to the first refused call |
| CallSyncEngine.Engine.SyncCallRecordingProvider | src/integrations/sync-engine.ts:439-506 | one pass over the provider's pages from the stored cursor; without a refusal it counts the calls and clears the cursor, else everything before the refused call is persisted and the stored cursor leads to the page that holds it |
| CallSyncEngine.PagesAreChained | src/integrations/sync-engine.ts:450-486 | the pages read are those the stored cursors lead to, and each but the last says there is more and hands out a cursor that is not empty |
| CallSyncEngine.EmptyCursorAsksForTheFirst | src/integrations/sync-engine.ts:445-465 | a null or empty cursor asks for the first page |
| CallSyncEngine.RunIsAPath | src/integrations/sync-engine.ts:439-506 | every run of the engine over a provider is a path of the machine over the feed that provider serves, with the same tables, queue and cursor, ending completed or at the refused call |
| CallTables.TakenUpToRefusal | src/integrations/sync-engine.ts:469-477 | the pass stops at the first refused call, and takes all calls exactly when none is refused |
| CallTables.NewCallIsStored | src/integrations/sync-engine.ts:534-567 | a call that was not known is stored as it is first seen: its date, its participants if any, and its transcript text if there is one that is not empty |
| CallTables.KnownCallIsKept | src/integrations/sync-engine.ts:525-533 | a known call keeps its date, participants and transcript whatever is persisted |
| CallTables.RefusedIffKeyBreaks | src/integrations/sync-engine.ts:546-555 | a call is refused exactly when storing it would break the unique (callId, email) key |
| CallTables.QueuedIffFirstSeenWithTranscript | src/integrations/sync-engine.ts:557-616 | queued are exactly the calls that were not known and are first seen with a transcript that is not empty |
| CallTables.DetailsAfterAll | src/integrations/sync-engine.ts:525-533 | after any calls each column holds the last non-null value given, or else what was stored before |
| CallTables.IdlePass | src/integrations/sync-engine.ts:525-567 | persisting calls changes nothing exactly when every id is known and every last non-null value is stored already |
| CallTables.PersistCommutes | src/integrations/sync-engine.ts:516-570 | calls with different ids can be persisted in either order |
| CallTables.PersistTwice | src/integrations/sync-engine.ts:516-570 | persisting a call twice is persisting it once |
| CallTables.Absorbed | src/integrations/sync-engine.ts:525-567 | persisting a call ahead of a pass that contains it is absorbed, if its id is known or it is the first with that id |
| CallSync.SecondPassIsIdle | src/integrations/sync-engine.ts:469-477 | a second whole pass changes nothing |
| CallSync.StepKeepsScreened | src/integrations/sync-engine.ts:450-498 | the known ids are always those at the start and those of the calls before some position, none of which was refused |
| CallSync.StepKeepsResumable | src/integrations/sync-engine.ts:450-498 | from the saved cursor and from the current position the rest of the pass always ends in the same tables |
| CallSync.InterruptionsLeaveNoTrace | src/integrations/sync-engine.ts:445-498 | interrupted between any two writes and resumed any number of times, a sync that completes leaves the call, participant and transcript tables of one uninterrupted pass, and that pass would have been refused nothing |
| CallSync.CompletesIffAccepted | src/integrations/sync-engine.ts:546-555 | a sync can complete exactly when no new call of its pages lists an email twice |
| CallSync.RepeatedEmailStopsSync | src/integrations/sync-engine.ts:546-555 | no sync of a new call that lists an email twice ever completes |
| CallSync.OneCallStopsSync | src/integrations/sync-engine.ts:546-555 | the same at a concrete call |
| CallSync.RunSegment | src/integrations/sync-engine.ts:450-486 | without interruption the machine persists and queues a segment to its end or its first refused call |
| CallSync.ResumeIsExact | src/integrations/sync-engine.ts:479-498 | every history that completes ends with the tables of one pass exactly when, for each chain of pages behind cursors returned with last pages, either a call up to its end is refused, or every call in it has a known or served id and last non-null values that are already the last ones given |
| CallSync.AddsNothingOnInputs | src/integrations/sync-engine.ts:525-567 | the condition on the tables before and on the pages says that the pages of a segment change nothing |
| CallSync.CompletesAfter | src/integrations/sync-engine.ts:479-498 | for every chain of segments without a refused call there is a history that reads them all and completes |
| CallSync.LeftoverCursorReadsOn | src/integrations/sync-engine.ts:479-498 | for any two different calls a history that ends with a call no uninterrupted pass persists |
| CallSync.OneCrashReadsOn | src/integrations/sync-engine.ts:479-498 | a concrete history that ends with different tables |
| CallSync.EveryCallQueuedAtMostOnce | src/integrations/sync-engine.ts:557-616 | over every chain of syncs, each interrupted at will, whatever the provider serves at each step, no call is queued twice, only calls with a transcript are queued, and a transcript is never rewritten |
| IntegrationRuns.Setting | src/integrations/sync-engine.ts:338-370 | a missing setting takes the default; any other is the whole number just below it, raised to 1 or cut to the maximum |
| IntegrationRuns.RunLedger.StartIntegrationRun | src/integrations/sync-engine.ts:141-193 | leaves a completed or running row of the key alone, restarts a failed one with its counts at zero, or creates a running one |
| IntegrationRuns.StartsRows | src/integrations/sync-engine.ts:141-193 | the same in the columns of the row, with every other row unchanged |
| IntegrationRuns.RunLedger.FinishIntegrationRun | src/integrations/sync-engine.ts:195-214 | sets status, time and counts of the held run and nothing else |
| IntegrationRuns.RunLedger.ReplayFailedRun | src/integrations/sync-engine.ts:372-435 | starts a replay exactly for a failed run of the organization whose integration exists, that ended (or else started) within the window, with fewer replays under its prefix than the cap; and what row that start leaves |
| IntegrationRuns.PrefixNamesOneRun | src/integrations/sync-engine.ts:399-406 | a replay key starts with the prefix of one source run only |
| IntegrationRuns.ReplaysByPrefix | src/integrations/sync-engine.ts:399-406 | the replays of a run are the rows of type replay whose key names it |
| IntegrationRuns.EveryRunStaysSane | src/integrations/sync-engine.ts:147-214 | in every run there is one row per organization and key, held runs are running, and replays of a source run never exceed the cap |
| IntegrationRuns.SettledRowsAreFinal | src/integrations/sync-engine.ts:155-176 | a row completed, or abandoned while running, never changes again; no row disappears or changes its key |
| IntegrationRuns.SettledIffUnchangeable | src/integrations/sync-engine.ts:155-176 | no step of the ledger changes a row exactly when nobody holds it and it has not failed |
| IntegrationRuns.CompletedIsFinal | src/integrations/sync-engine.ts:155-158 | a completed row never changes again |
| IntegrationRuns.AbandonedRunKeepsItsKey | src/integrations/sync-engine.ts:155-158 | a run of the ledger in which a caller dies, its row stays running and the next start with its key is skipped |
| PiiMasker.Select | src/middleware/pii-masker.ts:169-203 | computes the greedy selection in rank order, sorted by position |
| PiiMasker.SelectionIsMaximal | src/middleware/pii-masker.ts:176-198 | selected detections never overlap, and each refused candidate overlaps a selected one of no lower rank |
| PiiMasker.OverlapMeansSharedCharacter | src/middleware/pii-masker.ts:267-274 | non-empty ranges overlap exactly when they share a character |
| PiiMasker.ReorderingKeepsRanges | src/middleware/pii-masker.ts:170-202 | reordering the candidates never changes the selected ranges |
| PiiMasker.MaskPII | src/middleware/pii-masker.ts:120-136 | right-to-left splicing equals the left-to-right weave of untouched gaps and replacements |
| PiiMasker.SpliceStep | src/middleware/pii-masker.ts:128-133 | one splice into the masked tail is one step of the weave |
| PiiMasker.DescendingIsReversed | src/middleware/pii-masker.ts:127-127 | the descending sort of the detections is their reversal |
| PiiMasker.MaskedLength | src/middleware/pii-masker.ts:126-135 | the length changes by the replacements minus the ranges |
| PiiMasker.MaskingIsReversible | src/middleware/pii-masker.ts:126-135 | the text can be rebuilt from the masked text and the detections |
| CircuitBreaker.MakeSettings | src/services/ai-resilience.ts:165-170 | an option that is not given takes its default, one below its floor the floor, and any other its value |
| CircuitBreaker.StateIsDeterminedByHistory | src/services/ai-resilience.ts:94-140 | for every history, failures is the number of failures since the last success, and openUntil is the last failure plus cooldown when that number reaches the threshold, else 0 |
| CircuitBreaker.Breakers.StateFor | src/services/ai-resilience.ts:82-87 | returns the stored state or stores a closed one |
| CircuitBreaker.Breakers.RecordSuccess | src/services/ai-resilience.ts:107-111 | closes the circuit of the key |
| CircuitBreaker.Breakers.RecordFailure | src/services/ai-resilience.ts:133-140 | counts the failure and opens the circuit from the threshold on |
| CircuitBreaker.Breakers.ChatCompletion | src/services/ai-resilience.ts:173-239 | the primary is skipped exactly when the circuit is open and there is a fallback; which attempts are made and recorded; the primary answers exactly if its last attempt succeeded, and the fallback exactly if there is one and the primary was skipped or failed transiently |
| CircuitBreaker.CallsAfterOpeningAreApart | src/services/ai-resilience.ts:179-232 | with a fallback and one request at a time, after a failure that opened the circuit every later call to the primary comes at least the cooldown later |
| OutboundRateLimiter.Limiter.constructor | src/integrations/outbound-rate-limiter.ts:37-44 | the bucket starts full |
| OutboundRateLimiter.Limiter.Refill | src/integrations/outbound-rate-limiter.ts:89-94 | tokens grow with the elapsed time up to the capacity |
| OutboundRateLimiter.FilledIsRefilled | src/integrations/outbound-rate-limiter.ts:89-94 | a refill adds milliseconds times rate over 1000, up to the capacity |
| OutboundRateLimiter.Limiter.AcquireLocal | src/integrations/outbound-rate-limiter.ts:77-87 | takes one token at once if there is one, and else after the wait, with the exact number of tokens left |
| OutboundRateLimiter.WaitIsShortest | src/integrations/outbound-rate-limiter.ts:83-84 | the wait is the shortest whole number of milliseconds that earns a token |
| OutboundRateLimiter.TokensGrantAtOnce | src/integrations/outbound-rate-limiter.ts:77-94 | from a bucket with n tokens the first n calls of every orderly trace are granted as they arrive |
| OutboundRateLimiter.AcquirePays | src/integrations/outbound-rate-limiter.ts:77-94 | each grant pays a full token; after a wait the bucket holds one, so the floor at zero gives nothing away |
| OutboundRateLimiter.GrantsAreBounded | src/integrations/outbound-rate-limiter.ts:77-94 | in any interval of T seconds at most capacity plus rate times T calls are granted |
| OutboundRateLimiter.BoundNeedsAWholeToken | src/integrations/outbound-rate-limiter.ts:77-94 | for every orderly trace with a call the bound holds in all intervals exactly when the capacity is at least one token |
| OutboundRateLimiter.GrantsAreAlwaysBounded | src/integrations/outbound-rate-limiter.ts:77-94 | for every capacity, in any interval of T seconds at most the larger of capacity and 1, plus rate times T, calls are granted |
| OutboundRateLimiter.SmallCapacityGivesTokensAway | src/integrations/outbound-rate-limiter.ts:83-87 | with a capacity below one every call waits and the floor at zero gives away what the bucket lacks |
| RateLimiter.Limiter.constructor | src/middleware/rate-limiter.ts:58-60 | starts with no entries |
| RateLimiter.Limiter.InMemoryCheck | src/middleware/rate-limiter.ts:78-102 | opens a window with count 1 if there is none or it is past, else counts the request and admits it exactly if the limit is not passed; other addresses stay |
| RateLimiter.Limiter.Cleanup | src/middleware/rate-limiter.ts:63-70 | in any order, exactly the entries whose reset time is past go, and the others stay as they are |
| RateLimiter.SweepsChangeNoDecision | src/middleware/rate-limiter.ts:63-102 | running the sweep at any points changes no decision |
| RateLimiter.FromOpening | src/middleware/rate-limiter.ts:82-101 | a window lets through its first requests up to the limit, no more and no fewer |
| RateLimiter.RefusedOnlyAtTheLimit | src/middleware/rate-limiter.ts:88-99 | a request is refused only inside a window that has let the limit through |
| RateLimiter.AdmissionsAreBounded | src/middleware/rate-limiter.ts:78-102 | in any interval as long as the window one address gets fewer than twice the limit through |
| ResponseCache.Cache.constructor | src/lib/response-cache.ts:22-26 | starts empty |
| ResponseCache.Cache.Begin | src/lib/response-cache.ts:28-37 | a live entry is returned and moved to the end, an expired one is dropped |
| ResponseCache.Cache.Finish | src/lib/response-cache.ts:39-42 | stores the loaded value with its expiry and evicts from the front |
| ResponseCache.Cache.EvictIfNeeded | src/lib/response-cache.ts:45-51 | cuts the oldest entries down to the maximum size |
| ResponseCache.Cache.PurgeExpired | src/lib/response-cache.ts:53-58 | keeps exactly the live entries in order |
| ResponseCache.Cache.Clear | src/lib/response-cache.ts:60-62 | empties the cache |
| ResponseCache.LookedUpHolds | src/lib/response-cache.ts:28-37 | a lookup keeps every entry but an expired one of its key, hits exactly a live one, and puts it last |
| ResponseCache.LoadedHolds | src/lib/response-cache.ts:39-51 | a load is stored, and of the other entries at most the first goes, if the key is new and there is no room |
| ResponseCache.PurgedHolds | src/lib/response-cache.ts:53-58 | a purge keeps exactly the entries that have not expired |
| ResponseCache.PurgedInParts | src/lib/response-cache.ts:53-58 | a purge keeps the order: purging two parts is purging the whole |
| ResponseCache.LoadedIsFound | src/lib/response-cache.ts:31-41 | a finished load is found again with its value exactly until its time to live runs out |
| ResponseCache.EveryRunStaysSound | src/lib/response-cache.ts:28-62 | under any interleaving of lookups, loads, purges and clears the cache is never over its maximum size, has one entry per key, and every entry came from a load for its key |
| ResponseCache.HitsAreFresh | src/lib/response-cache.ts:29-43 | a hit's value came from a load for that key begun less than the time to live before |
| ResponseCache.SequentialRunIsInUseOrder | src/lib/response-cache.ts:28-58 | with lookups one at a time the entries are ordered by latest use |
| ResponseCache.EvictsLeastRecentlyUsed | src/lib/response-cache.ts:45-51 | what is evicted was used before everything that stays |
| ResponseCache.FinishKeepsUseOrder | src/lib/response-cache.ts:39-42 | a finishing load keeps the order of use exactly when its key is stored, or nothing is kept beside it, or the newest entry was used before its key |
| ResponseCache.UseOrderIsExact | src/lib/response-cache.ts:28-58 | for every interleaving from a new cache on, the entries are ordered by latest lookup in every state exactly when every load finishes in that way |
| ResponseCache.OverlappingLoadsBreakUseOrder | src/lib/response-cache.ts:39-51 | a run in which the entries leave the order of use and the key looked up later is evicted first |
| TaggerPool.EveryScheduleIsSound | src/services/ai-tagger.ts:417-444 | under every interleaving indices are claimed in turn, each exactly once, and a claimed index is in work at one worker or its slot holds its own result |
| TaggerPool.NeverMoreThanConcurrency | src/services/ai-tagger.ts:437-441 | chunks in work never exceed the concurrency |
| TaggerPool.WorkersCanAllBeBusy | src/services/ai-tagger.ts:437-441 | for any number of chunks up to the concurrency and their total there is a schedule in which that many are in work at once |
| TaggerPool.ResultsAreComplete | src/services/ai-tagger.ts:417-444 | when all workers are through, slot i holds chunk i's result for all i exactly if the concurrency is at least 1 or there are no chunks |
| TaggerPool.SchedulesAreFinite | src/services/ai-tagger.ts:422-435 | no schedule has more than two steps per chunk plus one per worker |
| TaggerPool.AggregateCallTags | src/services/ai-tagger.ts:476-494 | for each stage and topic that occurs the map holds a tag of maximal confidence |
| TaggerPool.KeyIsInjective | src/services/ai-tagger.ts:484-484 | the joined key determines stage and topic |
| TaggerPool.AggregateIgnoresOrder | src/services/ai-tagger.ts:480-494 | the aggregate depends only on which tags there are |
| DeadLetterReplay.ReplayRetryableDeadLetterJobs | src/services/call-processing-dead-letter-replay.ts:193-328 | the summary and the per-organization summaries are the exact counts of what became of each job, and they add up in the batch, in each organization and across organizations |
| DeadLetterReplay.BatchAddsUp | src/services/call-processing-dead-letter-replay.ts:193-307 | scanned equals replayed plus all skip counts |
| DeadLetterReplay.OrganizationAddsUp | src/services/call-processing-dead-letter-replay.ts:252-298 | the same inside each organization |
| DeadLetterReplay.OrganizationsSumToTheBatch | src/services/call-processing-dead-letter-replay.ts:243-298 | organization totals sum to the batch totals, and their scans to the batch without missing payloads and other organizations |
| DeadLetterReplay.NoCallRetriedTwice | src/services/call-processing-dead-letter-replay.ts:255-296 | no call is retried twice in a batch |
| DeadLetterReplay.FateMeans | src/services/call-processing-dead-letter-replay.ts:207-296 | what becomes of a job is the first reason that applies to it, each in terms of the job's own fields |
| DeadLetterReplay.SeenMeans | src/services/call-processing-dead-letter-replay.ts:252-256 | the calls seen before are those of earlier jobs with both ids and of the organization asked for |
| DeadLetterReplay.FatesAreCounted | src/services/call-processing-dead-letter-replay.ts:193-307 | each number of the summary is the number of jobs with that fate, and the replayed calls are theirs |
| DeadLetterReplay.FatesInAreCounted | src/services/call-processing-dead-letter-replay.ts:252-298 | the same for each organization |
| DeadLetterReplay.OrgsMean | src/services/call-processing-dead-letter-replay.ts:243-252 | organizations with a summary are those of a job with both ids that is not another organization's |
| DeadLetterReplay.ReplayAddsUp | src/services/call-processing-dead-letter-replay.ts:193-307 | scans are replays plus skips in the batch and in each organization, organizations sum to the batch, and the replayed calls are distinct |
| UsageLimits.WindowLastsUntilItsEnd | src/services/ai-usage-logic.ts:28-42 | day, week and month windows are the same exactly until they roll over |
| UsageLimits.YearLength | src/services/ai-usage-logic.ts:32-34 | twelve months make 365 days, or 366 in a leap year |
| UsageLimits.FirstDayIsCivil | src/services/ai-usage-logic.ts:32-34 | month lengths and leap years add up to the closed form of the civil calendar |
| UsageLimits.DaysAndMonthsBegin | src/services/ai-usage-logic.ts:28-34 | days begin at midnight, and months on the first of the civil month |
| UsageLimits.WeeksBeginOnMonday | src/services/ai-usage-logic.ts:35-38 | the week window begins on a Monday |
| UsageLimits.DailyWithinLonger | src/services/ai-usage-tracker.ts:259-325 | daily usage never exceeds weekly or monthly usage |
| UsageLimits.RequestsAreRecords | src/services/ai-usage-tracker.ts:281-314 | requests used are the number of the user's records since the start, and stories the number of those that generated one |
| UsageLimits.TokensAddUp | src/services/ai-usage-tracker.ts:269-280 | tokens used add up over two lists, and one record brings its own tokens if it counts |
| UsageLimits.SummaryCounts | src/services/ai-usage-tracker.ts:259-325 | each number of the usage summary is that of its own window |
| UsageLimits.RefusedIffReached | src/services/ai-usage-logic.ts:57-168 | a user is refused exactly when some limit is reached, and the reason given is one of those |
| UsageLimits.ReasonIsTheFirst | src/services/ai-usage-logic.ts:57-168 | the reason given is the first limit reached in the order weekly, daily, monthly tokens, then requests, then stories |
| UsageLimits.RefusalLastsUntilRollover | src/services/ai-usage-logic.ts:57-168 | with limits unchanged and records only appended, a refused user stays refused until that window rolls over |
| UsageLimits.RolloverClearsTheWindow | src/services/ai-usage-logic.ts:57-168 | after the rollover old records no longer count against that limit |
| UsageLimits.Tracker.RecordUsage | src/services/ai-usage-tracker.ts:72-83 | appends the record |
| UsageLimits.Tracker.EnforceLimit | src/services/ai-usage-tracker.ts:92-102 | refuses exactly when a limit of the user's own row, or without one of the organization's, is reached, and never without either |

## Left out

- Floating-point rounding, NaN and infinities: numbers are reals or unbounded integers.
- Redis code paths, HTTP clients, queues and the SQL engine itself; of the schema only the unique keys, the restricting foreign key of regeneration logs and the cascade to quotes are modelled, and each transaction is atomic.
- Calibration report buckets and Brier score: reporting only.
- Duplicate detection by fuzzy names, previews beyond the columns an undo reads back, landing-page counts, user ids and notes of merge runs.
- `cachedAccountIds` of list and report grants: neither merge rewrites them.
- Entity resolution and account hints after a call is persisted: they write account links, which are not among the tables compared; the retry wrapper around the provider is left out as well.
- Sync runs with a date or cursor override: they write the shared cursor for a different query.
- That every transcript is eventually queued: a stop after the transaction and before the enqueue is not recovered, so only at most once is claimed.
- Races inside `startIntegrationRun` and `replayFailedRun` (find, then write): each is one atomic step, and finishing a run is assumed not to fail after its write.
- CRM sync, usage balances, alerts and notifications: one write each, with no state shared with what is modelled.
- The content of the PII, failure-class and provider-error patterns: matches and classifications are inputs.
- A chunk whose tagging fails: the pool is modelled for chunks that succeed, and the tag cache and rate limiter inside a chunk are not modelled.
- Usage before 1970 and clocks that go back.
- Routes, permissions, access checks, metrics and the front end.
- Of account creation, the call, contacts and aliases that are then attached to the new account, and the columns other services fill.
- Of an undo, what the code itself does not restore: dropped duplicate contacts, aliases, events, grants and CRM ids.
