# A model of the procurement crawler, with proofs

This project models the parts of the crawler platform that hold real state and branching, and proves
what they keep. Every module follows one source file, or one concern of it.

| modules | what they model |
|---|---|
| `Failures`, `Pagination`, `RestorePage`, `RowBody`, `KeywordScan`, `ResultsScan`, `ScanTheorems`, `Discovery`, `CrawlTheorems`, `SeenKeys`, `CrawlCases` | the discovery crawl: one pagination step, getting back to a results page, one accepted row with its exception handlers, the scan of a keyword with its telemetry, and the loop over keywords with browser deaths and resumes |
| `SearchRecovery` | the search recursion with its page recoveries and clean-page retries |
| `ResultsTable`, `RowRelocation` | reading the results table by header text, and finding an accepted row again |
| `PyValue`, `Receipts`, `RuntimeEvidence`, `CanaryEvidence`, `ObservationCanary`, `SupervisionCourse`, `SupervisionTheorems`, `Supervision`, `Bundle`, `BundleTheorems`, `Producers` | the four receipt producers and the verifier of their ordered bundle, on decoded JSON values |
| `CanaryProof`, `ScanProof` | the accumulator of a canary's bounded proof, what it accepts, and the scans that feed it |
| `EvidenceLog` | the single-pass reader of a run's evidence log |
| `Spreadsheet`, `ProcessedProjects` | the spreadsheet upsert and the completion map kept beside it |
| `LeaseRenewer` | the lease protocol of an agent: main thread, renewer thread and clock as interleaved steps |
| `RecoveryPlan`, `RecoveryPayload`, `Sorting` | grouping failed runs into recovery jobs under an order-independent payload, what the payload fixes, and queueing the jobs once |
| `Text` | trimming, white space removal and the other small text rules |

How the outside world is modelled:

- The browser page, the network and the callbacks are scripts: finite data that give the answer to every
  question the code asks, including which exception is raised. A script that runs out stands for the end
  of the process, so the lemmas quantify over every run. The search recursion takes a function from call
  number to answers instead, because it terminates by itself.
- The loops of the source are methods with loop invariants. Each one is proved equal to a recursive
  function over the same script, and the lemmas are about that function.
- The scan is proved for any row body, page reader and clock with the stated contract; the program's own
  ones are shown to meet it (`ScanTheorems.ProgramRowsFit`, `ResultsScan.ProgramReadsConsistently`), and
  `CrawlTheorems.Discover` puts everything together without any assumption.
- Times are integers of microseconds; parsing and rendering of timestamps are a pair of functions that
  round-trip. Polling in the supervisor is a sequence of ticks of bounded length.

## What turned out false

Each of these is kept as the code has it, shown by a concrete case, and bounded by the exact condition
under which the code does or does not meet it.

- The second version of the bundle verifier never looks at its own content checks: from any accepted
  bundle, one with an empty observation is accepted too (`BundleTheorems.ContentIsNotEnforced`), and so are
  four receipts that hold nothing but their headers (`Producers.HollowBundleIsAccepted`). What it does
  accept is characterised for every input (`AcceptedV2Exactly`).
- An interrupted observation can write an accepted receipt that is no valid observation stage
  (`ObservationCanary.InterruptedReceiptIsInvalid`). Over all runs the accepted receipt is valid exactly
  when the run was not interrupted, or only after its scan had ended well, which the answers tell
  (`AcceptedReceiptIsValidExactly`, `HarmlessExactly`).
- The log reader compares positions in two differently filtered lists, so a record without an event can
  make it refuse a well-ordered log (`EvidenceLog.SilentRecordIsRefused`, `ProofOrderedExactly`).
- A blank header shifts every column to its right (`ResultsTable.BlankHeaderMisreads`,
  `AlignedIffNoBlankBefore`), and a field follows its header through a new layout only while its marker
  matches one header (`AmbiguousHeaderStays`, `FollowsIffUnique`).
- Of two rows that look alike only the first is ever opened, and a row that reads as two different
  project numbers never is (`RowRelocation.SecondOfTwoIsNotFound`, `RowWithTwoNumbersIsNotFound`,
  `UnchangedRowIsFoundExactly`).
- A candidate can get two terminal statuses or none on exception paths (`RowBody.StatusCanRepeat`,
  `StatusCanBeMissing`, `StatusCanBeLost`). `TwoStatusesExactly` and `NoStatusExactly` say when, for every
  row, and `FinishedWithoutStatusExactly` for the rows that finish.
- A crawl can return normally and have lost a candidate (`CrawlCases.CandidateCanBeLost`): once a key is
  marked as seen, no later page opens it (`SeenKeys.NeverOpenedAgain`), and a row that ends in a closed
  browser is marked exactly when its error was handled or it was marked already (`RowBody.ClosedRowIsSeen`).
- The page label of a scan need not be the page the browser stands on (`CrawlCases.LabelsCanDrift`).
  All labels of a round are true exactly when no page but the last is left by its rows
  (`CrawlTheorems.LabelsAreTrueExactly`), and a page is left, like a row, exactly under the guard of the
  last return made (`ScanTheorems.PageDriftsExactly`, `RowBody.RowDriftsExactly`).
- A search can believe the unchanged table of another keyword (`SearchRecovery.StaleTableCanBeBelieved`):
  exactly without retries left and on a first page with rows (`StaleTableBelievedExactly`).
- A result can be submitted although the lease is already marked lost: from a reachable state past the
  last check, exactly when the renewer's thread can still learn the loss
  (`LeaseRenewer.SubmissionCanFollowLossExactly`); `SubmissionCanFollowLoss` has a whole run that does so.
- The supervisor's time budget covers one termination only (`SupervisionTheorems.OneTerminationFits`).
  After a passed window check a repeated termination can leave the evidence too old exactly when its age,
  the duration, four graces, the doctor's time and the lateness exceed the maximum age
  (`RepeatGoesStaleExactly`, with the run in `SlowRun`); for evidence of any age that passes, exactly when
  two graces and the lateness exceed the margin (`MarginIsExact`).
- A repeated spreadsheet update can change its row (`Spreadsheet.RepeatedUpdateCanChange`) or append one
  (`NamelessIsAppended`): it changes nothing exactly when it names its project and its date is given or the
  day is the same (`RepeatedUpdate`). A visit while the workbook is locked can break the agreement with a
  reload (`ProcessedProjects.LockedVisitCanDisagree`), unless the sheet says the same already
  (`LockedVisitAgreement`).
- The recovery payload fixes runs and job keys, but which run belongs to which job only when all sources
  have one key (`RecoveryPlan.PayloadDoesNotBindRunsToJobs`, `RecoveryPayload.PayloadFixesGroupingExactly`).

## Model

| member | source | states |
|---|---|---|
| CrawlTheorems.Discover | apps/worker/src/egp_worker/browser_discovery.py:328-521 | the whole crawl, under no assumption: no dedupe key is streamed twice, the returned list is a subsequence of the streamed projects with distinct keys |
| CrawlTheorems.NeverStreamedTwice | apps/worker/src/egp_worker/browser_discovery.py:346-521 | the same over any number of browser deaths and resumes, and the returned projects are exactly those of the rounds that finished their keyword |
| CrawlTheorems.NoPageMissed | apps/worker/src/egp_worker/browser_discovery.py:370-521 | when a keyword finishes on a terminal page, every page from 1 to it was scanned completely by this round or an earlier one of the keyword: each of its wanted rows was run and finished |
| CrawlTheorems.ResumesWhereItDied | apps/worker/src/egp_worker/browser_discovery.py:492-497 | a round after a browser death scans the same keyword from the page of the death on, reached by exactly one click less than that page |
| CrawlTheorems.EveryKeywordCompleted | apps/worker/src/egp_worker/browser_discovery.py:370-521 | a crawl that returns has completed every keyword |
| CrawlTheorems.CompletedOnce | apps/worker/src/egp_worker/browser_discovery.py:487-497 | no crawl completes a keyword twice or returns to a completed one |
| CrawlTheorems.LabelsAreTrueExactly | apps/worker/src/egp_worker/browser_discovery.py:1090-1099 | in every round that reaches its results, all page labels are the pages the browser stands on if and only if no page but the last is left by its rows |
| CrawlCases.LabelsCanDrift | apps/worker/src/egp_worker/browser_discovery.py:750-1133 | a whole scan, step by step, that reads what it calls page 3 while the browser stands on page 2 |
| SeenKeys.NeverOpenedAgain | apps/worker/src/egp_worker/browser_discovery.py:346-521 | over any whole crawl: once a row has left a key marked as seen, no later page, in any round and for any keyword, opens a row with this key or hands over a project with it |
| CrawlCases.CandidateCanBeLost | apps/worker/src/egp_worker/browser_discovery.py:370-521 | a whole crawl, step by step, that returns normally although the only candidate it accepted got no status and was marked by a browser that died |
| Discovery.CrawlLiveDiscovery | apps/worker/src/egp_worker/browser_discovery.py:370-521 | the keyword loop with resume state refines the recursive crawl the theorems are about |
| Discovery.TryKeyword | apps/worker/src/egp_worker/browser_discovery.py:372-489 | one round of the loop: restore or fresh search, then the scan, on the shared dedupe set |
| ScanTheorems.ScanSafety | apps/worker/src/egp_worker/browser_discovery.py:750-1133 | every scan: fresh keys only, consecutive pages, ledger of every row, every page but the last complete, and how it can end |
| ScanTheorems.FullScan | apps/worker/src/egp_worker/browser_discovery.py:1084-1132 | a scan from page 1 that returns has the complete pages 1..terminal page, at least one, a terminal outcome, and the cap outcome exactly at the cap |
| ScanTheorems.BooksMatchLedger | apps/worker/src/egp_worker/browser_discovery.py:805-1082 | in a scan that returns, as many rows left an acceptance in their trace as the telemetry counted accepted |
| ScanTheorems.LabelsTrueExactly | apps/worker/src/egp_worker/browser_discovery.py:1084-1132 | over a whole scan all labels are true if and only if no page but the last is left by its rows |
| ScanTheorems.LeavesPageExactly | apps/worker/src/egp_worker/browser_discovery.py:843-1082 | the rows of a page leave it if and only if the last way back to the results on that page, by going back or by a restore that broke off, ended on another page |
| ScanTheorems.PageDriftsExactly | apps/worker/src/egp_worker/browser_discovery.py:843-1082 | a page of the program is left by its rows exactly under the guard of the last return they made: it went back to another page, or its restore broke off on one |
| ScanTheorems.RunRowsFit | apps/worker/src/egp_worker/browser_discovery.py:843-1082 | the rows of a page: what is kept is what was streamed, with fresh keys, and all rows but the last finished |
| ScanTheorems.ProgramRowsFit | apps/worker/src/egp_worker/browser_discovery.py:843-1082 | the program's row body meets the contract the scan theorems need |
| ScanProof.FullScanPassesProofChecks | scripts/track_bc_verify.py:298-317 | a full scan passes the proof checker's ordered-pages test exactly from five pages on, and its terminal test then or when the cap was not reached |
| ScanProof.FullScanIsProved | apps/worker/src/egp_worker/workflows/discover.py:93-205 | from the progress of a full scan of its target, with persisted candidates told at any time in between, the proof is built if and only if there are at least five pages and a candidate of a later page was persisted |
| CanaryProof.BuiltExactly | apps/worker/src/egp_worker/workflows/discover.py:93-205 | for every sequence of events, a proof is built if and only if they are one whole scan of the target: browser first, pages 1 to n for some n of at least five, all for the target, the end on the last page in a terminal outcome, nothing after it, and a candidate persisted from a later page |
| CanaryProof.BuiltProofIsValid | scripts/track_bc_verify.py:282-331 | every proof the accumulator builds passes all four tests of the receipt verifier, for its target's digest and cap |
| CanaryProof.BuiltProofSatisfiesCanary | scripts/track_bc_verify.py:639-722 | canary evidence that holds such a proof passes every re-examination of it |
| CanaryProof.ProofAccumulator.RecordProgress | apps/worker/src/egp_worker/workflows/discover.py:115-150 | one progress event writes the books as their functional form says |
| CanaryProof.ProofAccumulator.RecordPersistedCandidate | apps/worker/src/egp_worker/workflows/discover.py:152-161 | a persisted candidate is noted if it is of a later page, and an impossible page spoils the proof |
| CanaryProof.ProgressDecides | apps/worker/src/egp_worker/workflows/discover.py:115-161 | what the books say of the crawl does not depend on the candidates persisted in between |
| ResultsScan.Crawler.CollectKeyword | apps/worker/src/egp_worker/browser_discovery.py:750-1133 | the page loop refines the recursive scan; the books balance, hold the page sequence, as many accepted rows as the pages had rows worth opening, and the terminal outcome |
| ResultsScan.Crawler.ScanPage | apps/worker/src/egp_worker/browser_discovery.py:786-1083 | one page: parse, filter, record, open the rows, advance; the books go on matching the pages scanned so far |
| ResultsScan.Crawler.OpenRows | apps/worker/src/egp_worker/browser_discovery.py:843-1082 | the row loop refines the recursive run over the rows, on the shared dedupe set |
| ResultsScan.ProgramReadsConsistently | apps/worker/src/egp_worker/browser_discovery.py:2562-2616 | the program's reader marks a row eligible exactly when its status is readable and discoverable |
| KeywordScan.ReasonMeaning | apps/worker/src/egp_worker/browser_discovery.py:595-607 | the accounting equations of balanced books, and the no-eligible-rows reason exactly when all rows are unreadable or rejected, or hits are reported and no row was seen |
| KeywordScan.BucketsAddUp | apps/worker/src/egp_worker/browser_discovery.py:559-562 | the status buckets add up to the rows counted |
| KeywordScan.Accumulator.ScanRows | apps/worker/src/egp_worker/browser_discovery.py:805-830 | the rows to open, and every counter raised by the number of rows of its kind |
| KeywordScan.Accumulator.CountPage | apps/worker/src/egp_worker/browser_discovery.py:803-831 | the books balance at the page boundary; the number of hits is read on page 1 only |
| RowBody.Ledger | apps/worker/src/egp_worker/browser_discovery.py:843-1082 | in the trace of every row, written in execution order, the acceptance is first and only once, there are at most two openings, the second only after a transient answer, no opening follows a status, and the statuses are the body's own and then the one of a handler that reports |
| RowBody.StreamsWhatItKeeps | apps/worker/src/egp_worker/browser_discovery.py:942-968 | a row keeps a project exactly when it streams it, as its first status and only once |
| RowBody.CleanRowHasOneStatus | apps/worker/src/egp_worker/browser_discovery.py:889-981 | a row body that raises nothing ends in exactly one of streamed, failed and dropped |
| RowBody.StatusCanRepeat | apps/worker/src/egp_worker/browser_discovery.py:942-1068 | a candidate can be reported twice when the return after its failure breaks off |
| RowBody.TwoStatusesExactly | apps/worker/src/egp_worker/browser_discovery.py:889-1068 | a keyed candidate gets at most two statuses, and two if and only if its body reports it, then raises, and a handler reports it again |
| RowBody.StatusCanBeMissing | apps/worker/src/egp_worker/browser_discovery.py:1024-1026 | an accepted candidate can finish without any status |
| RowBody.NoStatusExactly | apps/worker/src/egp_worker/browser_discovery.py:889-1068 | a keyed candidate gets no status, whatever its row ends in, if and only if neither its body reports it nor a handler does |
| RowBody.FinishedWithoutStatusExactly | apps/worker/src/egp_worker/browser_discovery.py:889-1068 | when the row finishes all the same, that is if and only if the body raised a timeout or page-state error before reporting, the handler's return could not recover the results, and they are there after all |
| RowBody.StatusCanBeLost | apps/worker/src/egp_worker/browser_discovery.py:1024-1028 | an accepted candidate can end in a closed browser without any status and marked as seen |
| RowBody.SeenGrows | apps/worker/src/egp_worker/browser_discovery.py:956-968 | seen keys only grow, by the row's key and the streamed key, which was not seen before |
| RowBody.RowDriftsExactly | apps/worker/src/egp_worker/browser_discovery.py:843-1082 | every row, whatever it ends in, leaves the browser off the page of its label exactly under the guard of the last return it made, and without a return where it stood |
| RowBody.CleanBodyReturns | apps/worker/src/egp_worker/browser_discovery.py:889-981 | the last return of a row whose body raises nothing is the one at its end, or that of its retry if the page was restored by it |
| RowBody.ClosedOnOwnPage | apps/worker/src/egp_worker/browser_discovery.py:982-1082 | a closed browser is always reported for the row's own page |
| RowBody.ClosedRowIsSeen | apps/worker/src/egp_worker/browser_discovery.py:982-1082 | a row that ends in a closed browser is marked seen, except for an error no handler knows |
| RowBody.BrokenRowDrifts | apps/worker/src/egp_worker/browser_discovery.py:1048-1068 | a row can finish with the browser on page 1 under a later label |
| RestorePage.RestoreResultsPage | apps/worker/src/egp_worker/browser_discovery.py:1206-1266 | the click loop refines its recursive form |
| RestorePage.RestoreReaches | apps/worker/src/egp_worker/browser_discovery.py:1206-1266 | a restore returns exactly when the first target - 1 clicks are confirmed with the expected page numbers, and then stands on the target; one that runs out of pages stands before the target, any other that raises wherever the site left it |
| RestorePage.ReturnMeaning | apps/worker/src/egp_worker/browser_discovery.py:3536-3596 | a return ends on another page than its label exactly when it went back to one or its restore broke off on one; a closed browser is reported for the labelled page, and only by a restore that broke off |
| Pagination.AdvanceFacts | apps/worker/src/egp_worker/browser_discovery.py:3258-3338 | an advance is one page on, below the cap, after a confirmed click; every other outcome stays; the cap outcome is exactly at the cap |
| SearchRecovery.GotoIsBounded | apps/worker/src/egp_worker/browser_discovery.py:2094-2129 | a navigation stops at the first load that is not aborted, within its budget plus one |
| SearchRecovery.SearchBounds | apps/worker/src/egp_worker/browser_discovery.py:2899-2981 | with r retries at most r + 1 submissions, r(r + 3)/2 navigations, and r + 1 loads for each |
| SearchRecovery.HostileReaches | apps/worker/src/egp_worker/browser_discovery.py:2899-2981 | both bounds are reached |
| SearchRecovery.FoundIffLastAcceptable | apps/worker/src/egp_worker/browser_discovery.py:2940-2981 | a search returns exactly when its last call saw an acceptable page with the retries it had left, and that call submitted |
| SearchRecovery.StaleTableCanBeBelieved | apps/worker/src/egp_worker/browser_discovery.py:2962-2980 | without retries an unchanged first page with rows is accepted |
| SearchRecovery.StaleTableBelievedExactly | apps/worker/src/egp_worker/browser_discovery.py:2940-2981 | over every chain of recoveries, an unchanged table of another keyword is accepted only without retries left and on a first page with rows, and then it is unless something else speaks against it |
| SearchRecovery.SearchFreshKeyword | apps/worker/src/egp_worker/browser_discovery.py:391-414 | a keyword is reported without results only after its whole budget of searches, within bounds on submissions and navigations |
| SearchRecovery.SearchesAreBounded | apps/worker/src/egp_worker/browser_discovery.py:2664-2679 | every search of the loop meets the bounds the loop relies on |
| ResultsTable.RefusedIffRequiredMissing | apps/worker/src/egp_worker/browser_discovery.py:2414-2439 | a table is refused exactly when no header carries a marker of some required field |
| ResultsTable.FollowsIffUnique | apps/worker/src/egp_worker/browser_discovery.py:2414-2439 | a field follows its header through every relayout exactly when its deciding marker matches one header |
| ResultsTable.LayoutIndependence | apps/worker/src/egp_worker/browser_discovery.py:2562-2616 | reordering columns or adding unknown ones changes no row's name, organization, status, eligibility, skip hit or budget |
| ResultsTable.BlankHeadersShift | apps/worker/src/egp_worker/browser_discovery.py:2399-2411 | a resolved column lies as far left of its header as there are blank headers before it |
| ResultsTable.AlignedIffNoBlankBefore | apps/worker/src/egp_worker/browser_discovery.py:2399-2411 | the cell read stands under the matched header exactly when no header to its left is blank |
| ResultsTable.BlankHeaderMisreads | apps/worker/src/egp_worker/browser_discovery.py:2399-2439 | a table with the three required headers after a blank one, on which the status of every row is read from the cell left of the status column |
| ResultsTable.AmbiguousHeaderStays | apps/worker/src/egp_worker/browser_discovery.py:2414-2439 | two columns with the same header trade places and the field stays where it was |
| ResultsTable.ReadRows | apps/worker/src/egp_worker/browser_discovery.py:2569-2610 | the row loop refines the recursive reading, numbered from one |
| ResultsTable.ParsePage | apps/worker/src/egp_worker/browser_discovery.py:2562-2616 | a page is refused for a missing required header or read row by row into the recursive reading |
| RowRelocation.Relocate | apps/worker/src/egp_worker/browser_discovery.py:1376-1408 | with the two row filters of the program, the row clicked is the row scored: the only first exact match or unique top score of at least 70, and nothing is clicked exactly when there is none |
| RowRelocation.ProgramFiltersAgree | apps/worker/src/egp_worker/browser_discovery.py:3000-3016 | the filter of the click passes exactly the rows that the filter of the scoring reads |
| RowRelocation.ResolveRowIndex | apps/worker/src/egp_worker/browser_discovery.py:1376-1408 | the index names the chosen row among the counted rows, and is missing exactly when no row is chosen |
| RowRelocation.UniqueTop | apps/worker/src/egp_worker/browser_discovery.py:1400-1408 | the only highest score if it reaches the minimum |
| RowRelocation.NavigateToRow | apps/worker/src/egp_worker/browser_discovery.py:3000-3016 | clicks the row that carries the index among the counted rows |
| RowRelocation.ChosenIsFaithful | apps/worker/src/egp_worker/browser_discovery.py:1351-1408 | the chosen row has no known different number, and without an exact match the same name and two of organization, status and budget |
| RowRelocation.ScoreMeaning | apps/worker/src/egp_worker/browser_discovery.py:1351-1373 | exactly when a score reaches 70 |
| RowRelocation.UnchangedRowMatchesItself | apps/worker/src/egp_worker/browser_discovery.py:1269-1336 | an unchanged row matches its accepted marker unless the two readings know different numbers |
| RowRelocation.UnchangedRowIsFoundExactly | apps/worker/src/egp_worker/browser_discovery.py:1376-1408 | an accepted row of an unchanged table is chosen if and only if its two readings know no different numbers and no counted row before it matches its marker |
| RowRelocation.OpenAgain | apps/worker/src/egp_worker/browser_discovery.py:1376-1408 | on an unchanged table the program clicks the accepted row exactly under that condition |
| RowRelocation.SecondOfTwoIsNotFound | apps/worker/src/egp_worker/browser_discovery.py:1376-1408 | of two equal rows the second is never found |
| RowRelocation.RowWithTwoNumbersIsNotFound | apps/worker/src/egp_worker/browser_discovery.py:1269-1408 | a row that carries one number and names a project with another is not found even as the only row |
| BundleTheorems.AcceptedV2Exactly | scripts/track_bc_verify.py:1003-1189 | the second version accepts exactly the bundles with the four stages in order, good envelopes, times in order, equal exact fingerprints and a rehearsed rollback no earlier than supervision |
| BundleTheorems.ChecksOfAcceptedV2 | scripts/track_bc_verify.py:1083-1099 | the check of a stage of an accepted bundle tells whether its content is valid |
| BundleTheorems.ContentIsNotEnforced | scripts/track_bc_verify.py:1083-1099 | from any accepted bundle there is an accepted one whose observation check is false |
| BundleTheorems.AcceptedV1IsSound | scripts/track_bc_verify.py:804-953 | an accepted first-version bundle has the three stages once each, valid, in time order, and a rehearsed rollback no earlier than supervision |
| BundleTheorems.AcceptableV1IsAccepted | scripts/track_bc_verify.py:804-953 | every bundle with those properties is accepted, in any order of its receipts |
| BundleTheorems.ChecksOfAcceptedV1 | scripts/track_bc_verify.py:869-873 | every check of an accepted first-version bundle is true |
| BundleTheorems.ScanOfCleanList | scripts/track_bc_verify.py:826-878 | the scan of the receipts notes nothing exactly for lists of known, distinct, faultless stages, and then reads off each of them |
| Bundle.VerifyAcceptanceBundle | scripts/track_bc_verify.py:804-953 | the imperative verifier, both versions, refines the functional error list and checks |
| Bundle.ScanReceipts | scripts/track_bc_verify.py:826-878 | the loop over the receipts refines its recursive form |
| Producers.HollowBundleIsAccepted | scripts/track_bc_verify.py:1083-1099 | receipts with nothing but their headers and a rehearsed rollback are accepted with every stage check false |
| Producers.ProducersSatisfyVerifier | scripts/track_bc_verify.py:956-1189 | for all runs of the four producers that are accepted for one release and fingerprint, fresh and in time order, with a rehearsed rollback, the bundle of their receipts is accepted with every check true |
| Producers.ProgramAcceptsProducers | scripts/track_bc_verify.py:956-1189 | the same for the verifier of the second version with its own rules |
| RuntimeEvidence.AcceptedChecks | scripts/track_bc_verify.py:343-534 | a runtime report is accepted exactly when all its checks hold and the legacy count is a count, and its receipt is then a valid stage |
| RuntimeEvidence.NoErrorsExactly | scripts/track_bc_verify.py:343-534 | the error list, noted in program order, is empty if and only if every check holds and the legacy count is a count |
| RuntimeEvidence.OnlyAgesChange | scripts/track_bc_verify.py:343-534 | accepted evidence is accepted later exactly while its two ages are within their limits |
| RuntimeEvidence.CheckIgnoresClock | scripts/track_bc_verify.py:343-534 | only the two freshness checks read the clock |
| CanaryEvidence.AcceptedCanary | scripts/track_bc_verify.py:639-722 | a canary report is accepted exactly when all checks hold, and its receipt is then a valid stage with the target's digest |
| CanaryEvidence.NoCanaryErrorsExactly | scripts/track_bc_verify.py:639-722 | the error list of a canary, noted in program order, is empty if and only if all twenty-two checks hold |
| CanaryEvidence.AcceptedProof | scripts/track_bc_verify.py:282-331 | an accepted canary with a raw proof has ordered pages, a terminal outcome and the exact target |
| ObservationCanary.Observe | scripts/diagnose_search_rows.py:329-431 | the observation loop refines its recursive walk |
| ObservationCanary.SightingMeaning | scripts/diagnose_search_rows.py:375-431 | the pages are 1, 2, 3, ...; a sighting that was not interrupted is not failed exactly when it is a complete scan, and an interrupt, before or after the outcome is noted, never counts as a failure |
| ObservationCanary.CompleteScanIsValid | scripts/diagnose_search_rows.py:291-308 | the receipt of a complete scan for a trimmed keyword and an exact digest is a valid observation stage |
| ObservationCanary.InterruptedReceiptIsInvalid | scripts/diagnose_search_rows.py:427-459 | a run interrupted before its first page leaves a receipt that is accepted and no valid stage |
| ObservationCanary.AcceptedReceiptIsValidExactly | scripts/diagnose_search_rows.py:329-459 | over all runs without a noted error, for a trimmed keyword and an exact digest, the accepted receipt is a valid stage if and only if the run was not interrupted or only after its scan had ended well |
| ObservationCanary.HarmlessExactly | scripts/diagnose_search_rows.py:375-431 | an interrupt leaves a complete scan behind if and only if, by the answers, it came after a page from the fifth on had ended the scan, with an invitation on a later page, and at the observation's cap if it ended there |
| ObservationCanary.RunObservationCanary | scripts/diagnose_search_rows.py:427-459 | the receipt of a whole run is a valid stage exactly for a trimmed keyword and an exact digest, without a failure, with a clean close, and without an interrupt before its scan had ended well |
| Supervision.Supervisor.WaitFor | scripts/supervise_remote_crawl.py:154-175 | polling stops at the first poll that sees the group gone, or not before the timeout, with bounded lateness |
| Supervision.Supervisor.TerminateGroup | scripts/supervise_remote_crawl.py:178-197 | asks first and kills only after the grace; reports the group gone exactly when the last poll saw it gone |
| Supervision.Supervisor.RunDoctor | scripts/supervise_remote_crawl.py:221-333 | an answer counts only within the doctor's deadline and without an interruption |
| Supervision.Supervisor.Watch | scripts/supervise_remote_crawl.py:440-464 | the loop ends on an interruption, an early exit or the deadline, and says which |
| Supervision.Supervisor.WatchAndReap | scripts/supervise_remote_crawl.py:430-481 | a group that is still there at the end is terminated, for the first time after an early exit, else once more; the deadline, the reaping and the errors say what happened, and a first termination that reaps the group keeps to two graces |
| Supervision.Supervisor.Postflight | scripts/supervise_remote_crawl.py:336-364 | accepted exactly when the evidence with the new doctor answer is acceptable at the time of the answer |
| Supervision.Supervisor.Supervise | scripts/supervise_remote_crawl.py:367-518 | the interval refines its functional form over the ticks of the clock; what every report says, and that after one termination, also that of an early exit, and within the margin of lateness the evidence is within its age limit at the postflight |
| Supervision.Supervisor.FinishReport | scripts/supervise_remote_crawl.py:482-518 | the postflight and the report after the reaping refine their functional form |
| SupervisionTheorems.WindowSuffices | scripts/supervise_remote_crawl.py:102-130 | after a passed window check, one termination and at most the margin of lateness, the evidence is within its age limit at postflight |
| SupervisionTheorems.OneTerminationFits | scripts/supervise_remote_crawl.py:430-481 | from every passed window check on, a group reaped by the first termination, be it at the deadline, after an interruption or after an early exit, leaves the evidence within its age limit at the doctor's answer, within the margin of lateness |
| SupervisionTheorems.MarginIsExact | scripts/supervise_remote_crawl.py:116-130 | for evidence of some age that passes the window check, some course with a repeated termination leaves it too old at the postflight if and only if two graces and the lateness exceed the margin |
| SupervisionTheorems.RepeatGoesStaleExactly | scripts/supervise_remote_crawl.py:102-130 | from a passed window check on, some course whose second termination reaps the group and whose doctor answers leaves the evidence too old if and only if its age, the duration, four graces, the doctor's time and the lateness exceed the maximum age |
| SupervisionTheorems.SlowRun | scripts/supervise_remote_crawl.py:430-481 | concrete ticks on which the first termination leaves the group behind, the second reaps it, and everything takes as long as it can |
| SupervisionTheorems.AcceptedSupervision | scripts/supervise_remote_crawl.py:367-518 | the receipt of every interval that comes to an accepted report is a valid supervised stage |
| SupervisionTheorems.AcceptedReportHasFlags | scripts/supervise_remote_crawl.py:367-518 | every accepted report has no errors, its deadline reached, its group reaped and its postflight accepted |
| EvidenceLog.ReadEvidence | scripts/track_bc_verify.py:1379-1434 | the single-pass reader returns the declarative verdict on the log |
| EvidenceLog.CorrelationMeaning | scripts/track_bc_verify.py:1386-1414 | the reader's correlation verdict holds exactly when all ids match, all events are texts, and the sequence numbers are positive and strictly increase |
| EvidenceLog.SequenceCheckMeaning | scripts/track_bc_verify.py:1379-1391 | the running comparison of sequence numbers holds exactly for positive, strictly increasing ones |
| EvidenceLog.ProofOrderedIsSound | scripts/track_bc_verify.py:1418-1434 | proof-ordered implies one bound proof event strictly before the single, final finish event |
| EvidenceLog.ProofOrderedExactly | scripts/track_bc_verify.py:1418-1434 | the exact condition, with the records without event in between |
| EvidenceLog.ProofOrderedWhenAllHaveEvents | scripts/track_bc_verify.py:1418-1434 | the equivalence when all events are texts |
| EvidenceLog.SilentRecordIsRefused | scripts/track_bc_verify.py:1402-1434 | a well-ordered log with a record without event that is refused |
| Spreadsheet.Workbook.UpdateExcel | egp_crawler.py:1290-1421 | the workbook holds the upserted rows, or is unchanged when locked |
| Spreadsheet.Workbook.FindRow | egp_crawler.py:1343-1401 | the first row a rule matches |
| Spreadsheet.Workbook.LoadExistingProjects | egp_crawler.py:1200-1248 | the completion map of the rows, later rows overriding earlier ones |
| Spreadsheet.TargetFacts | egp_crawler.py:1343-1401 | the chosen row matches one of the four rules, and carries the update's number whenever any row does |
| Spreadsheet.UpdateIsLocal | egp_crawler.py:1320-1341 | at most one row changes or is appended, and it is never numbered otherwise than the update |
| Spreadsheet.UpdateKeepsNumbersDistinct | egp_crawler.py:1290-1421 | non-blank project numbers stay pairwise distinct |
| Spreadsheet.HistoryKeepsNumbers | egp_crawler.py:1290-1421 | over every update sequence numbers stay distinct and are never overwritten |
| Spreadsheet.RepeatedUpdate | egp_crawler.py:1290-1421 | repeating an update, on any day, changes nothing exactly when it names a project and its date is given or the day is the same |
| Spreadsheet.RepeatedUpdateCanChange | egp_crawler.py:1290-1421 | an update without a date, repeated on another day, changes its row |
| Spreadsheet.NamelessIsAppended | egp_crawler.py:1290-1421 | an update that names no project appends a row to every sheet |
| ProcessedProjects.Tracker.ProcessOneProject | egp_crawler.py:3328-3450 | the completion map and the workbook after one project, locked or not |
| ProcessedProjects.RestartAgreement | egp_crawler.py:3328-3450 | after any sequence of visits the reloaded map equals the one in memory on every project number |
| ProcessedProjects.VisitKeepsAgreement | egp_crawler.py:3328-3450 | one visit keeps the sheet well-formed and the agreement |
| ProcessedProjects.WrittenRowIsDone | egp_crawler.py:859-893 | the row a visit writes is done on reload exactly when the visit is done in memory |
| ProcessedProjects.LockedVisitAgreement | egp_crawler.py:1302-1308 | from any agreeing map of a running crawl, a visit to a locked workbook keeps the agreement exactly when it is not written or the sheet says the same already |
| ProcessedProjects.LockedVisitCanDisagree | egp_crawler.py:1302-1308 | a visited project that a reload of the locked workbook knows nothing of |
| LeaseRenewer.Safety | apps/worker/src/egp_worker/agent_runtime.py:92-225 | in every interleaving: cancellation implies lost, renewals within the deadline plus slack, at most one submission, none after the loss was seen |
| LeaseRenewer.LostIsForever | apps/worker/src/egp_worker/agent_runtime.py:92-163 | lost and cancellation only go from unset to set, and no renewal is sent after lost |
| LeaseRenewer.ExpiredClaimIsIdle | apps/worker/src/egp_worker/agent_runtime.py:92-98 | an expired or undated claim is never crawled, renewed or submitted |
| LeaseRenewer.UncrawledOnlyWhenLost | apps/worker/src/egp_worker/agent_runtime.py:92-225 | every run that returns without crawling has seen the lease lost, reports it and submits nothing; every run that crawls began under a live lease |
| LeaseRenewer.SubmissionCanFollowLossExactly | apps/worker/src/egp_worker/agent_runtime.py:187-225 | from every reachable state past the last check and before the submission, also on the way to stop the renewer, a submission can follow the loss if and only if the renewer's thread can still learn it |
| LeaseRenewer.WindowIsReachable | apps/worker/src/egp_worker/agent_runtime.py:92-225 | a run from the start of a live claim into such a state, for every renewal interval |
| LeaseRenewer.SubmissionCanFollowLoss | apps/worker/src/egp_worker/agent_runtime.py:187-225 | for every renewal interval, some run from the start of a claim submits a result although its lease is marked lost |
| LeaseRenewer.RunLoop | apps/worker/src/egp_worker/agent_runtime.py:228-273 | the counts are the tally of the rounds run; the loop stops at the cap or the first refusal |
| RecoveryPlan.GroupSources | scripts/requeue_failed_discovery_runs.py:220-238 | the grouping loop refines its recursive form |
| RecoveryPlan.EachRunInExactlyOneJob | scripts/requeue_failed_discovery_runs.py:220-238 | every source run sits in exactly the job of its key |
| RecoveryPlan.JobsHaveDistinctKeys | scripts/requeue_failed_discovery_runs.py:220-238 | jobs have distinct keys |
| RecoveryPlan.JobHoldsItsKeysRuns | scripts/requeue_failed_discovery_runs.py:220-238 | a job holds exactly the runs of its key, in source order |
| RecoveryPlan.GroupingConserves | scripts/requeue_failed_discovery_runs.py:220-238 | the jobs hold as many runs as there are sources |
| RecoveryPlan.OneSourceEach | scripts/requeue_failed_discovery_runs.py:240-246 | as many jobs as sources forces one source per job |
| RecoveryPlan.SamePayload | scripts/requeue_failed_discovery_runs.py:96-110 | two plans share a payload exactly when they agree on the tenant, on the run ids as a multiset and on the set of job keys |
| RecoveryPlan.PayloadIgnoresOrder | scripts/requeue_failed_discovery_runs.py:96-110 | any reordering of the sources gives the same payload |
| RecoveryPlan.PayloadDoesNotBindRunsToJobs | scripts/requeue_failed_discovery_runs.py:96-110 | two groupings of the same runs under different jobs share a payload |
| RecoveryPayload.PayloadFixesGroupingExactly | scripts/requeue_failed_discovery_runs.py:96-110 | for distinct runs, every list of sources with the same payload gives each key the same runs if and only if all sources have one key |
| RecoveryPlan.BuildRecoveryPlan | scripts/requeue_failed_discovery_runs.py:113-293 | planned exactly under its demands, with the grouped jobs, the payload and the conflicts |
| RecoveryPlan.ExecuteRecoveryPlan | scripts/requeue_failed_discovery_runs.py:296-332 | queues jobs exactly when the plan can be rebuilt with an unchanged payload, its request was not made before and no job has a pending one; a repeated request is answered and queues nothing; every other case is an error, and the database after it |
| RecoveryPlan.ExecutedTwice | packages/db/src/egp_db/repositories/recrawl_request_repo.py:224-289 | executing a plan again on the database it left queues nothing more: queued plans are answered, failed ones fail again |
| RecoveryPlan.EnqueuedKeysWereReviewed | scripts/requeue_failed_discovery_runs.py:296-332 | for a plan built on one database and executed on another: if the execution queues jobs, they have the job keys of the plan |

## Left out

- Termination of the crawl under endless browser deaths: the code does not give it, a run is as long as its script.
- Screen, browser, CDP and process mechanics, sleeps, rate limiting, diagnostics, progress events beyond those the canary proof listens to, and debug snapshots: they are the scripts' answers, or have no effect on what is modelled.
- `is_discoverable_stage_status`, the invitation test and case folding beyond ASCII: the first two are parameters, the last is `Text.Lower`.
- Unicode white space and normalisation: only the ASCII white space characters are trimmed.
- ResultsTable.LayoutIndependence: says nothing about the project number and the visible signature, which are read from all cells in table order and do change with it.
- Which table of a page is the results table, and the navigation retry around its parsing: a page parses, has no such table, or raises.
- The candidate, terminal and project callbacks are taken as set; a candidate callback may still return no key.
- Document collection after a detail page: only whether it raises.
- Where a browser's own "back" lands, and where a restore that broke off leaves the browser: the script says.
- SQL collection of evidence, preflight scripts and file formats: decoded values only.
- The wording of the error texts in reports; which errors are noted, and in which order, is modelled.
- Profile types and defaults for them in recovery jobs, the tenant lock, and discovery jobs queued under another request: a request is known by its payload, and a pending job by profile and keyword.
- Outcome texts with white space around a known word: the proof accumulator takes a known word as already trimmed.
- UUID canonicalisation of identifiers: they are taken as already canonical.
- SHA-256 of the recovery payload: the payload itself stands for its digest.
- Signals, process groups and selectors: a poll that sees the process exited, the group gone, an interruption or the doctor done.
- HTTP mechanics of the agent client: a renewal is granted, rejected as stale, fails as a client error or unexpectedly.
- ProcessedProjects.RestartAgreement: for project numbers on well-formed sheets only; names and search names do not agree after a reload in general, because a reload keys a row by fewer texts than a visit does.
- Spreadsheet.UpdateIsLocal: an update without a project number may touch a numbered row with the same search name, as the code allows.
