# xtap-pool: a verified model of its state machines and encodings

This project models the parts of xtap-pool that have to be right over whole runs, and proves what
they promise. Each part takes the shape of its source: pure code is functions and lemmas, code that
updates fields is a class whose methods are proved against specification functions.

- **Consumer change stream** (`Consumer*.dfy`, `CandidatePages.dfy`, `KeysetPages.dfy`,
  `PageSizes.dfy`). The cursor state machine content, activation, observations, idle. A reference
  stream without pages, windows or batches is refined by every page; it is proved which runs end,
  what view they reach, and how often an observation is scanned and handed out.
- **Pool queue and outbox** (`Pool*.dfy`, `Observation*.dfy`, `Handoff*.dfy`, `Utf8Text.dfy`). Memory,
  storage, flush, daemon and uploader as one machine with a crash possible between any two steps, and
  how the flush ends.
- **Captured responses** (`Capture*.dfy`). The write-ahead log, deduplication, saving and flushing of
  the service worker, interleaved at every await.
- **Scrape receipts** (`Scrape*.dfy`). Runs, leases, receipts and cursors under any calls and clocks.
- **Result manifests** (`Run*.dfy`). When manifests are accepted, and what that proves.
- **Identity text** (`JsonText.dfy`, `CanonicalJson.dfy`, `IdentityText.dfy`, `InputHash.dfy`).
  A reader for the canonical printer, over strings as section 7 of RFC 8259 has them.
- **Raw log and durable index** (`Bucket*.dfy`, `Utc*.dfy`, `DurableIndex.dfy`, `Index*.dfy`).
- **Downloads** (`Download.dfy`).
- `Sequences.dfy`, `Sorting.dfy`, `Numbers.dfy` and `TextOrder.dfy` hold what several parts share.

Where the code does not do what its name or comment says, the model follows the code:

- `computeInputHash` is documented as independent of the order of members. It is when identifiers
  are distinct; two different members with one identifier hash by their order
  (`InputHash.RepeatedIdKeepsOrder`, `InputHash.InputIdentifies`).
- `canonicalJson` prints an array with a single undefined element like an empty array
  (`IdentityText.LoneUndefinedIsLost`).
- One observation can be handed out both by activation and by the observation phase. The first
  sample of a new post is (`ConsumerDeliveries.NewPostComesTwice`); `ConsumerDeliveries.DeliveredOnce`
  says exactly when it comes once.
- A unit with too many posts for one read, or a change larger than a page, stops the change stream
  for good (`ConsumerDeliveries.OneUnitStopsARun`); `ConsumerRuns.DrainCompletes` says exactly when a
  run reaches idle.
- A download of an empty object returns true without creating the file
  (`Download.LocalFile.DownloadLargeFile`).
- A segment that arrives late sets a cached configuration text back to the older content
  (`IndexLateTexts.LateSegmentSetsBack`), and an advance that is rolled back leaves the texts it had
  set behind (`IndexLateTexts.RollbackKeepsText`). `IndexTexts.RequestKeepsTexts` says exactly when a
  request does neither; `IndexLateTexts.TextsAreReplayed` says that only then the texts are those of one
  replay. Records and revision are those of one replay after every run
  (`IndexCoverage.IncrementalIsSingleReplay`).
- A post observed again in a five-minute interval before that of its kept sample is not sampled at all
  (`ObservationSamples.LatePostIsNotSampled`).
- A sealed batch whose stamp is not of thirteen digits is never taken by the daemon, and the flush
  never gets past it (`PoolProgress.NothingWorks`).

Assumptions about the surroundings, each stated as a parameter, a guard or a precondition:

- Identifiers and keys sort alike in SQLite and JavaScript, and `localeCompare` agrees with code
  units on fixed-width stamps, UUIDs and keys. In the change stream they stand for their rank.
- A query is the set of its rows in key order; the readers and the permission filter are fixed.
- A unit lists each post once; with a repeated identifier the history request throws.
- The records of the durable index stand in the order they were inserted; their order is no part of
  the index, and results about it compare records as a set.
- `chrome.storage` returns what was stored, with its key order; a write of several keys is atomic, and a
  refused write changes nothing. Staging keys are not reused.
- Digests are functions, injective where that is said. A snapshot object holds its canonical bytes.
- Equal path, size and entity tag of a remote file mean equal bytes.
- `queue.done` counts the completed bits (`space/src/enrich-state.ts` validates this).

## Model

| member | source | states |
|---|---|---|
| `ConsumerRuns.BaseViewReachesTarget` | space/src/consumer-changes.ts:97-189 | if every listed unit can be read alone and its change fits a page, a client holding the base view without privacy-removed units ends with the target's publishable units exactly when the candidate queries cover every unit that differs, wherever pages are cut or batches halved |
| `ConsumerRuns.ChangesReachTarget` | space/src/consumer-changes.ts:97-189 | under the same condition, for a client holding any view: a whole run ends at the target exactly when every unit the stream is silent about was already right |
| `ConsumerRuns.BootstrapReachesTarget` | space/src/consumer-changes.ts:97-189 | under the same condition on the bootstrap units: a bootstrap from nothing ends at the target exactly when the bootstrap query lists every publishable unit |
| `ConsumerRuns.FinalView` | space/src/consumer-changes.ts:310-328 | what a whole run does to one unit of any view: its target value if the stream announces it, else nothing |
| `ConsumerRuns.AnnouncedExactly` | space/src/consumer-changes.ts:97-135 | a unit is announced exactly when a candidate query lists it and its content in the published view differs from that in the held view, the base without privacy-removed units |
| `ConsumerRuns.DrainCompletes` | space/src/consumer-changes.ts:82-95 | from any cursor and for any page limits the cursor reaches idle if every listed unit still to come can be read alone and its change fits a page, the unit of an activation can be read alone, and a base exists outside bootstrap; and only then, if a read is at least as large as a read of each of its units |
| `ConsumerRuns.Drain` | space/src/consumer-changes.ts:82-95 | the pages of a run that reaches idle are together the reference stream |
| `ConsumerCompletion.AdvanceExact` | space/src/consumer-changes.ts:82-95 | a step throws only if that condition fails and keeps it otherwise; with reads that grow, it held before a step if it holds after |
| `ConsumerCompletion.ReadableCountExact` | space/src/consumer-changes.ts:165-189 | halving succeeds when every unit can be read alone, and what it reads holds no unit that cannot |
| `ConsumerCompletion.FillExact` | space/src/consumer-page.ts:84-102 | filling a page throws exactly at a change larger than a page; every unit passed fits, and the others are still to come |
| `ConsumerDeliveries.OneUnitStopsARun` | space/src/consumer-changes.ts:165-189 | two databases whose one unit exceeds the read bound or the page bound: no run over them reaches idle |
| `ConsumerRuns.AdvanceRefines` | space/src/consumer-changes.ts:82-95 | every step of every phase hands out a prefix of the reference stream and gets lexicographically closer to the end |
| `ConsumerStream.UnitStepRefines` | space/src/consumer-changes.ts:97-135 | a content or bootstrap page refines the reference stream and makes progress |
| `ConsumerStream.FillRefines` | space/src/consumer-changes.ts:97-135 | walking a batch of units, with page cut-offs and turns to activation, keeps page plus remainder equal to the reference |
| `ConsumerStream.SamplesStepRefines` | space/src/consumer-changes.ts:236-267 | an observation page, cut or complete, refines the reference and makes progress across segment batches |
| `ConsumerChanges.ReadPairs` | space/src/consumer-changes.ts:165-189 | halving ends with a nonempty readable prefix or throws at one unit |
| `ConsumerChanges.ContentPage` | space/src/consumer-changes.ts:97-120 | the page loop over the mutable builder computes the content step that the refinement is about |
| `CandidatePages.MergedPage` | space/src/consumer-changes.ts:137-159 | cutting one stream at 32 and the other at 33 keeps the true first 32 of their union, and tells exactly whether the union goes on |
| `CandidatePages.CandidatePagePrefix` | space/src/consumer-changes.ts:137-159 | a candidate page is the true prefix of the pending units, empty only at the end, announcing more exactly when it leaves some out |
| `CandidatePages.UnionIsMerge` | space/src/consumer-changes.ts:137-159 | sorting the deduplicated concatenation is the ordered merge of the two streams |
| `KeysetPages.NextPage` | space/src/consumer-observations.ts:77-126 | continuing after the last key of a page yields exactly the rows the page left out |
| `KeysetPages.SplitAt` | space/src/consumer-observations.ts:77-126 | a later start key splits what lies above an earlier one, without loss or repetition |
| `ConsumerActivation.ActivationStepRefines` | space/src/consumer-changes.ts:191-234 | an activation page refines the reference across hundred-post windows, partial pages and the sentinel key |
| `ConsumerActivation.WindowRows` | space/src/consumer-changes.ts:191-234 | the rows of a window are exactly the stretch of the unit's rows up to the window's sentinel |
| `ConsumerActivation.LastWindow` | space/src/consumer-changes.ts:191-234 | past a window that holds all remaining posts there is no row |
| `ConsumerDeliveries.ActivationIsComplete` | space/src/consumer-changes.ts:191-234 | if its unit and the ones after it can be served, the pages that follow an activation cursor start with exactly the unit's retained rows |
| `ConsumerUnits.ActivationRowsOnce` | space/src/consumer-changes.ts:191-234 | those rows are in tuple order, each once, and are exactly the retained permitted observations of posts that the published unit has as no retweet and no post of the held unit is |
| `ConsumerUnits.NewlyVisibleExactly` | space/src/consumer-changes.ts:303-309 | a post is newly visible exactly when the later version has it as no retweet and the earlier version does not have it at all |
| `ConsumerUnits.NothingNewActivatesNothing` | space/src/consumer-changes.ts:97-135 | outside bootstrap a unit turns to activation exactly when its published version has such a post |
| `ConsumerDeliveries.EachNewObservationScannedOnce` | space/src/consumer-observations.ts:130-197 | over the pages of a whole run each public in-window observation in the target but not in the base is scanned once, and nothing else, however many segments carry it |
| `ConsumerDeliveries.ScansAreStream` | space/src/consumer-observations.ts:130-197 | the rows the pages scan, page after page and batch after batch, are the whole scan without pages |
| `ConsumerDeliveries.PageHandsOutScan` | space/src/consumer-changes.ts:236-267 | a page of the observation phase hands out the permitted part of the rows it scans, in their order |
| `ConsumerDeliveries.ScanOccurrence` | space/src/consumer-observations.ts:130-197 | from any segment offset, the pages scan an observation once if no earlier batch carried it and a later segment does, else never |
| `ConsumerDeliveries.Deliveries` | space/src/consumer-changes.ts:191-267 | the exact number of times a run hands out an observation: once per candidate unit that newly shows its post, and once more if it is itself new and permitted |
| `ConsumerDeliveries.ShowsExactly` | space/src/consumer-changes.ts:191-234 | a unit hands an observation out exactly when the observation is retained and permitted and its post is a new original one of the unit |
| `ConsumerDeliveries.DeliveredOnce` | space/src/consumer-changes.ts:191-267 | it comes exactly once if and only if it is new and permitted and no candidate unit newly shows its post, or it is not and exactly one does |
| `ConsumerDeliveries.NewPostComesTwice` | space/src/consumer-changes.ts:191-267 | one new unit, one new post, its sample in the one new segment: every run hands that sample out twice |
| `ConsumerPage.PageBounds` | space/src/consumer-page.ts:84-102 | an empty page refuses nothing, and an accepted change keeps the page within its item and byte bounds |
| `ConsumerPage.ConsumerPageBuilder.Append` | space/src/consumer-page.ts:84-102 | adding to the builder changes items and bytes exactly as the specification says |
| `PageSizes.StepWithinBounds` | space/src/consumer-page.ts:84-102 | every page has at most the requested items, several changes together at most 2 MiB and a single one at most 8 MiB, envelope included; an observation page at most 100 |
| `PageSizes.FillStops` | space/src/consumer-changes.ts:97-135 | a page of units ends only after the last unit read, at a unit that activates, or before a unit whose change no longer fits |
| `PageSizes.ReadsLargest` | space/src/consumer-changes.ts:165-189 | one read covers what is left after the fewest halvings that the reader accepts |
| `PageSizes.ScannedPageIsFull` | space/src/consumer-changes.ts:236-267 | an observation page scans all rows left in its batch, or as many as asked for up to 100 |
| `PoolGuarantees.OneNameOneContent` | extension/lib/pool-sync.js:134-194 | over every interleaving of enqueue, seal, handoff, commit, refused write and crash: handoffs under one file name carry identical bytes, and the outbox never sees a conflict |
| `PoolGuarantees.NothingIsLost` | extension/lib/pool-sync.js:94-194 | committed batches in seal order followed by the queue are the admitted observations in order minus the counted oversized ones; seal stamps strictly increase; every committed batch is in the outbox or was uploaded; the queue stays within its bound |
| `PoolGuarantees.SampledOutRepeats` | extension/lib/observations.js:32-59 | every observation sampled out repeats an admitted one of the same post, content and five-minute interval; at most 50,000 samples are kept |
| `PoolGuarantees.HandoffsFit` | extension/native-host/xtap_daemon.py:154-178 | every request that hands over a batch is below the daemon's 10 MiB limit |
| `PoolGuarantees.CrashRepeatsHandoff` | extension/lib/pool-sync.js:77-87 | a handoff cut off by a crash is repeated with the same name and content |
| `PoolProgress.FlushEmptiesQueue` | extension/lib/pool-sync.js:167-194 | from any point of any run, with nothing more added, no refused write and a daemon that is asked: at most so many steps work, counted by a decreasing measure, and when none works any more the queue is empty and every admitted observation that fits was committed, or the flush waits for a batch whose stamp is not of thirteen digits |
| `PoolProgress.FlushEmptiesQueueInTime` | extension/lib/pool-sync.js:167-194 | with stamps and clocks of thirteen digits the queue is always emptied |
| `PoolProgress.NothingWorks` | extension/lib/pool-sync.js:167-194 | no step works exactly when the queue is empty and the flush idle, or the flush waits for a batch whose name the daemon refuses |
| `PoolProgress.CalmStep` | extension/lib/pool-sync.js:134-194 | every working step of the flush, of a write or of the daemon lowers the measure, and no calm step raises it |
| `PoolDelivery.RunKeeps` | extension/lib/pool-sync.js:61-194 | every event sequence keeps the invariant tying memory, storage, flush, messages and outbox |
| `PoolDelivery.DeliverKeeps` | extension/native-host/xtap_daemon.py:366-387 | delivering any sent batch any number of times keeps the outbox consistent |
| `PoolDelivery.SameNameSameBytes` | extension/native-host/xtap_daemon.py:366-387 | a file already stored under the name of a sent batch holds its bytes |
| `PoolLedger.AdmissionIsSound` | extension/lib/pool-sync.js:94-112 | admission keeps the ledger of queue, samples, statistics and batches |
| `PoolLedger.AdmissionExactly` | extension/lib/pool-sync.js:94-112 | an empty batch does nothing, an unreadable observation or more than 5000 queued ones refuse the batch whole, and otherwise what the preparation accepts joins the end of the queue and everything else stays |
| `PoolLedger.SealIsSound` | extension/lib/pool-sync.js:134-164 | sealing drops only counted oversized observations and gives a later stamp |
| `PoolLedger.CommitIsSound` | extension/lib/pool-sync.js:181-189 | committing moves the sealed batch, unchanged, from queue to history |
| `PoolLedger.LoadIsExact` | extension/lib/pool-sync.js:77-87 | restoring the stored state changes nothing |
| `PoolNames.DaemonTakesThirteenDigits` | extension/native-host/xtap_daemon.py:262-270 | the daemon's name pattern takes exactly stamps of thirteen digits, which keeps stored stamps safe integers |
| `PoolNames.UuidExactly` | extension/native-host/xtap_daemon.py:63-63 | the tag part of the pattern is five groups of 8, 4, 4, 4 and 12 lower-case hexadecimal digits with hyphens between them |
| `PoolNames.NameTextIdentifies` | extension/lib/pool-sync.js:148-149 | a file name determines its stamp and its random tag |
| `PoolQueue.SealFacts` | extension/lib/pool-sync.js:134-164 | what is dropped never fits, what is sealed is nonempty, as much of the front as 500 observations and the byte limit allow, and has a stamp above every earlier one and not before the clock |
| `PoolQueue.FittingIsMaximal` | extension/lib/pool-sync.js:139-146 | a batch stops only at 500 observations, at its bytes, or at the end of the queue |
| `PoolQueue.PlanSeal` | extension/lib/pool-sync.js:137-146 | the two measuring loops compute the number dropped and the number sealed |
| `PoolQueue.PoolSync.Enqueue` | extension/lib/pool-sync.js:94-112 | memory and storage change together or not at all; a full queue or an unreadable observation admits nothing |
| `PoolQueue.PoolSync.SealNext` | extension/lib/pool-sync.js:134-164 | memory and storage take the sealed state together or not at all, and only when nothing is sealed |
| `PoolQueue.PoolSync.CommitSealed` | extension/lib/pool-sync.js:181-189 | the commit write takes effect in both places or in neither |
| `Observations.PrepareObservations` | extension/lib/observations.js:32-59 | the preparation loop admits, samples out and retains as specified, and admits nothing if one observation is unreadable |
| `Observations.PrepareGrounded` | extension/lib/observations.js:32-59 | sampled-out observations rest on admitted ones, also after late arrivals and sample eviction |
| `ObservationSamples.KeptIsLatest` | extension/lib/observations.js:45-55 | after any readable batch the sample of a post is the latest of the earlier sample and the observations admitted for it, the later one on ties, with its content |
| `ObservationSamples.SteadyPostIsSplit` | extension/lib/observations.js:45-55 | of a post with unchanged content in one interval, whatever other posts come between, exactly the observations up to the first that is not older than the kept sample are admitted, and none if the sample already has that content and interval |
| `ObservationSamples.SteadyPostIsSampledOnce` | extension/lib/observations.js:45-55 | in an interval later than that of the kept sample, or without one, the first observation is admitted and the rest are sampled out |
| `ObservationSamples.LatePostIsNotSampled` | extension/lib/observations.js:45-55 | in an interval before that of the kept sample every observation is admitted |
| `ObservationSamples.PreparesReadable` | extension/lib/observations.js:32-44 | a batch is prepared exactly when every observation has an identifier and a readable time |
| `Observations.KeepsTheNewest` | extension/lib/observations.js:56-58 | no dropped sample is newer than a kept one, and none is dropped below the limit |
| `HandoffSize.BodyFits` | extension/background.js:243-272 | the JSON body around a batch within 4,000,000 bytes is below the daemon's limit |
| `HandoffSize.EscapeAtMostDoubles` | extension/lib/pool-sync.js:21-22 | escaping well-paired text whose only control character is the line feed at most doubles its UTF-8 length |
| `HandoffSize.StringifyIsClean` | extension/lib/pool-sync.js:129-131 | the JSON text of any value is well paired and has no control character |
| `HandoffSize.BatchTextBytes` | extension/lib/pool-sync.js:129-146 | the bytes a batch was measured at are the bytes of its text |
| `HandoffText.StringifyRoundTrip` | extension/lib/pool-sync.js:129-131 | the JSON text of a queued value is read back to it, in the order of its members and without the undefined ones |
| `HandoffText.BatchReadsBack` | extension/lib/pool-sync.js:148-149 | the lines of a batch are read back to its observations in order |
| `HandoffText.BodyReadsBack` | extension/background.js:243-272 | the request body is read back to the name and the content |
| `Utf8Text.Utf8ReadsBack` | extension/lib/pool-sync.js:129-131 | a text without unpaired surrogates is read back from its UTF-8 bytes |
| `Utf8Text.HandoffBytes` | extension/lib/pool-sync.js:129-146 | a batch is measured at the bytes it is written with; file and body read back from their bytes, and the body stays below 10 MiB |
| `CaptureGuarantees.CapturedPostsAreKept` | extension/background.js:84-171 | at every crash point a captured response is still staged, or the pool admitted it and of each post, an article as an article, an object is in the saved buffer, was acknowledged, or was let go with a report |
| `CaptureGuarantees.SavedSeenIsCovered` | extension/background.js:179-198 | every saved seen identifier is of a post, every saved article mark of an article, in the saved buffer, acknowledged, dropped for overflow, or refused alone |
| `CaptureGuarantees.NothingLeavesUnsettled` | extension/background.js:535-607 | whatever is interleaved with a flush, a buffered object leaves only acknowledged, dropped for overflow, or refused on its own |
| `CaptureGuarantees.AnswersLetGo` | extension/background.js:541-607 | an answer lets go of only the posts of an acknowledged request, or the single post of one refused as too large |
| `CaptureProgress.ResponseIsHandled` | extension/background.js:84-171 | when nothing fails, a waiting response is admitted, processed, saved and cleared, and storage holds the buffer and the latest 50,000 seen keys |
| `CaptureProgress.RestartRecovers` | extension/background.js:830-870 | after a crash at any point a start restores what was saved, and recovery has a staged response wait again |
| `CaptureProgress.FlushEmptiesBuffer` | extension/background.js:546-607 | from any reachable state a flush whose requests are accepted ends idle with an empty buffer, everything in it acknowledged |
| `CaptureLog.RunKeeps` | extension/background.js:830-870 | every interleaving of handlers, recovery, saves, flushes and crashes keeps the invariant |
| `CaptureLog.SaveReturnsKeeps` | extension/background.js:173-198 | when a save returns, the handlers that had processed their posts before it began count as saved, and their posts are in storage's cover |
| `CaptureLog.ClearKeeps` | extension/background.js:98-105 | clearing a staged response keeps the invariant: its posts are covered by what is saved |
| `CaptureBuffer.Worker.Flush` | extension/background.js:546-607 | against any host answers the loop ends; what left is a front part of the buffer, each post acknowledged or refused alone; something stays only if the host refused; requests have 1 to 200 posts |
| `CaptureAdmission.SplitUntilGone` | extension/background.js:546-607 | after a batch refused as too large, requests take half of it until the whole of it is delivered, and then 200 posts again |
| `CaptureBuffer.RemoveFront` | extension/background.js:541-544 | removing a sent front by object identity leaves exactly the rest |
| `CaptureBuffer.Worker.EnqueueTweets` | extension/background.js:631-713 | the deduplication and overflow loops compute the specified memory and the dropped posts |
| `CaptureBuffer.Worker.Dedup` | extension/lib/dedup.js:23-47 | admission and the changes to both sets, for articles and image backfill |
| `CaptureAdmission.EnqueueOneExactly` | extension/background.js:631-688 | which posts enter, with what flag, and what both sets gain; any other post changes nothing |
| `CaptureAdmission.BackfillEnters` | extension/lib/dedup.js:23-47 | a post seen before that is no article enters again only as an image backfill with a photo that was not looked for yet, and marks nothing as seen |
| `CaptureAdmission.EnqueuedOnce` | extension/lib/dedup.js:23-47 | enqueueing the same post again changes nothing |
| `CaptureAdmission.DropOneExactly` | extension/background.js:690-706 | overflow removes the first image backfill, with its mark, or the oldest post if there is none, and nothing else |
| `CaptureCover.EnqueueCovers` | extension/background.js:631-713 | after enqueueing, for every post and every article processed so far an object is buffered or has gone |
| `CaptureCover.EntersOnce` | extension/lib/dedup.js:23-47 | without image backfill, a post that is no article enters once if it was unseen, however often captured, and else not at all |
| `CaptureCover.OverflowSparesPosts` | extension/background.js:690-706 | overflow drops a captured post only when no image backfill is left to drop |
| `CaptureCover.DropExcessCovers` | extension/background.js:690-706 | overflow ends within the bound and accounts for everything it drops |
| `ScrapeRuns.ReachableIsValid` | extension/lib/scrape-receipts.js:31-369 | in every reachable store receipt numbers are unique, observation cursors are exactly 1 to lastCursor, at most four runs run, on different tabs, without finish time or stop reason |
| `ScrapeRuns.KnownMeansStoredBefore` | extension/lib/scrape-receipts.js:130-241 | an observation says known-before-run exactly when its list and post were stored before the run was first created, through any later calls, expiry and recovery |
| `ScrapeRuns.TerminalForever` | extension/lib/scrape-receipts.js:243-369 | a run stopped without a recoverable reason never changes state again |
| `ScrapeRuns.ExecutionKeeps` | extension/lib/scrape-receipts.js:31-369 | any calls with any clock values keep the invariant and everything earlier stores settled |
| `ScrapeRuns.TimelineKeeps` | extension/lib/scrape-receipts.js:152-241 | recording a timeline keeps the invariant, with a live, a stale or no run on the tab |
| `ScrapeRuns.BeginKeeps` | extension/lib/scrape-receipts.js:31-150 | beginning a run keeps the bounds in every branch: refusal, recovery, repetition and creation |
| `ScrapeLeases.FedWhileLeased` | extension/lib/scrape-receipts.js:152-241 | after any calls that begin or renew a run at some time and any later calls that do neither, if the run still runs: a timeline on its tab less than 90 seconds after that time emits one observation per distinct readable post, in order, numbered on; from then on it stops the run for an expired lease and emits nothing |
| `ScrapeLeases.TimelineFeeds` | extension/lib/scrape-receipts.js:152-241 | the same for one timeline in any valid store, with the new stores |
| `ScrapeLeases.TimelineWithoutRun` | extension/lib/scrape-receipts.js:152-241 | without a running run on its tab a timeline emits nothing and still records the posts of a list |
| `ScrapeLeases.LeaseLasts` | extension/lib/scrape-receipts.js:243-274 | no other call changes the tab, the start or the lease of a run |
| `ScrapeLeases.BeginLeases` | extension/lib/scrape-receipts.js:31-150 | a run that begins runs for 90 seconds; exactly the running runs whose lease is over are stopped, and the others stay as they are |
| `ScrapeLeases.BeginSucceeds` | extension/lib/scrape-receipts.js:31-150 | a valid request is answered with a run exactly before cutover, if its run is live with the same parameters and tab, or it is new or recoverable with the same parameters, the tab is free and fewer than four runs are live; otherwise nothing changes |
| `ScrapeLeases.RenewLeases` | extension/lib/scrape-receipts.js:243-274 | a renewal succeeds exactly for a running run on that tab and sets its lease to 90 seconds from then |
| `ScrapeLeases.FinishStops` | extension/lib/scrape-receipts.js:340-369 | finishing succeeds exactly for a running run or one that already ended that way, and stops only it |
| `ScrapeLeases.TabStops` | extension/lib/scrape-receipts.js:276-295 | closing a tab aborts exactly its running runs and counts them |
| `ScrapeLeases.CutoverStops` | extension/lib/scrape-receipts.js:312-331 | cutover fails exactly the running runs and counts them |
| `ScrapeReceiptStores.ScrapeReceiptStore.BeginRun` | extension/lib/scrape-receipts.js:31-150 | the method's new stores and answer, error codes included |
| `ScrapeReceiptStores.ScrapeReceiptStore.RecordTimeline` | extension/lib/scrape-receipts.js:152-241 | the capture loop's new stores and emitted observations |
| `ScrapeReceiptStores.ScrapeReceiptStore.RenewRun` | extension/lib/scrape-receipts.js:243-274 | the running run of that tab with its renewed lease, or the refusal of an unknown, ended or foreign run without a change |
| `ScrapeReceiptStores.ScrapeReceiptStore.FinishRun` | extension/lib/scrape-receipts.js:340-369 | the finished run, the repeated finish and the refusals |
| `ScrapeReceiptStores.ScrapeReceiptStore.FinishRunsForSourceTab` | extension/lib/scrape-receipts.js:276-295 | which runs a closed tab stops |
| `ScrapeReceiptStores.ScrapeReceiptStore.BeginCutover` | extension/lib/scrape-receipts.js:312-331 | all running runs fail and the store refuses new ones |
| `ScrapeReceiptStores.ScrapeReceiptStore.ReadObservations` | extension/lib/scrape-receipts.js:297-310 | the observations above a cursor, in cursor order and without a gap |
| `RunCoverage.ReadKeysExact` | space/src/enrich-planned-command.ts:1430-1509 | reading accepts exactly when the queue baseline lies in the completed bits, the registry baseline between zero and the cursor, and the manifests prove the checkpoint: claims and baseline split the completed bits, registry claims fill baseline to cursor, chains end at the checkpoint's heads; then it returns the raw keys of every checkpointed result |
| `RunCoverage.HeadsDetermineHistory` | space/src/enrich-planned-command.ts:1457-1508 | with an injective digest the four chain heads determine each kind's result history and the returned keys, whatever else the store lists |
| `RunCoverage.HeadDeterminesChain` | space/src/enrich-planned-command.ts:1470-1488 | one chain head determines the whole chain |
| `RunCoverage.CountIsCover` | space/src/enrich-planned-command.ts:1494-1496 | when the completed count counts the bits, comparing counts is the same as an exact split of the bits |
| `RunCoverage.BaselineExact` | space/src/enrich-planned-command.ts:1511-1533 | a baseline passes exactly when its ordinals lie in the completed bits and its registry cursor between zero and the checkpoint's |
| `RunBits.CompletedIsBit` | space/src/enrich-planned-command.ts:1655-1657 | an ordinal is completed exactly when bit ordinal mod 8 of byte ordinal / 8 is set, counted from the least significant one |
| `RunBits.MarkedExactly` | space/src/enrich-state.ts:324-333 | marking an ordinal completes it and changes no other |
| `RunBits.MarkQueueCompleted` | space/src/enrich-state.ts:205-232 | the loop accepts exactly ordinals of the queue, adds them to the set of completed ones, and keeps the count its size |
| `RunCoverage.NewBitsExact` | space/src/enrich-planned-command.ts:1545-1557 | a list of claims is accepted exactly when it is distinct, outside the baseline and inside the set bits |
| `RunEvidence.AcceptAllExact` | space/src/enrich-planned-command.ts:1457-1493 | the reading loop accepts exactly the lists whose own conditions hold, and ends with their summary |
| `RunEvidence.ClaimQueueExact` | space/src/enrich-planned-command.ts:1545-1557 | claiming ordinals one by one accepts exactly new, distinct, completed ones |
| `RunOutputs.ReadRunOutputKeys` | space/src/enrich-planned-command.ts:1430-1509 | the reading method returns the specified keys or the specified error |
| `RunOutputs.ValidateClaims` | space/src/enrich-planned-command.ts:1536-1578 | the claim checks of the four phases |
| `RunOutputs.ValidateBaseline` | space/src/enrich-planned-command.ts:1511-1533 | the baseline loop and its errors |
| `IdentityText.CanonicalIdentifies` | shared/src/hash.ts:115-124 | two values print to the same text exactly when they are equal up to object key order and undefined members |
| `IdentityText.RoundTrip` | shared/src/hash.ts:115-124 | the printed text of a value, followed by anything that may end it, is read back to its normal form |
| `IdentityText.LoneUndefinedIsLost` | shared/src/hash.ts:115-124 | an array holding one undefined element prints like an empty array |
| `IdentityText.MembersSorted` | shared/src/hash.ts:119-122 | the members of a printed object stand in the order of their keys |
| `JsonText.StringRoundTrip` | shared/src/hash.ts:116-116 | every string, lone surrogates and control characters included, is read back |
| `InputHash.InputIdentifies` | shared/src/hash.ts:134-139 | two inputs hash the same text exactly when the units are equal and, for every identifier, the members with it are equal one by one in their order, up to key order and undefined fields |
| `InputHash.AnyOrderOfDistinctMembers` | shared/src/hash.ts:130-139 | members with different identifiers may come in any order |
| `InputHash.RepeatedIdKeepsOrder` | shared/src/hash.ts:130-139 | two members with one identifier hash alike in either order exactly when they are equal up to key order and undefined fields |
| `InputHash.RepeatedIdExample` | shared/src/hash.ts:130-139 | one post captured with two texts, given in both orders, hashes differently |
| `Sorting.SortIsStable` | shared/src/hash.ts:135-137 | sorting keeps the order among elements that compare neither way, as members with one identifier |
| `BucketAgreement.ThreeWaysAgree` | space/src/bucket-log.ts:535-634 | the early-stopping scan succeeds exactly when every configuration path was written, and then the scan, the sorted fold and the per-path maximum give the same values, for any batch size |
| `BucketAgreement.PrimeTextCache` | space/src/bucket-log.ts:535-557 | priming the cache from a whole snapshot gives the sorted fold |
| `BucketAgreement.PrimeTextCacheFromLatestWrites` | space/src/bucket-log.ts:559-598 | priming it newest first gives the early-stopping scan, for any concurrency |
| `BucketAgreement.ReadText` | space/src/bucket-log.ts:601-634 | reading one path from a snapshot gives the later of the best dedicated and the best mixed write |
| `BucketAgreement.FoldAgrees` | space/src/bucket-log.ts:843-855 | the sorted last-write-wins fold gives the latest write of the whole log |
| `BucketAgreement.CollectAgrees` | space/src/bucket-log.ts:559-598 | newest first, the first write found is the latest write of the whole log |
| `BucketAgreement.ReadTextAgrees` | space/src/bucket-log.ts:601-634 | the later of the dedicated and the mixed maximum is the latest write of the whole log |
| `BucketConfig.ScanIsCollect` | space/src/bucket-log.ts:572-594 | stopping early finds what reading everything finds |
| `BucketConfig.LatestIsUnique` | space/src/bucket-log.ts:1086-1101 | there is one latest value for a path |
| `BucketConfig.ScanLatestWrites` | space/src/bucket-log.ts:559-598 | the batch loop computes the scan |
| `BucketConfig.RememberTextEntries` | space/src/bucket-log.ts:843-855 | the nested loops compute the fold |
| `BucketConfig.LatestTextWrite` | space/src/bucket-log.ts:1086-1101 | the maximum loop computes the best candidate |
| `BucketLog.OneOrder` | space/src/bucket-log.ts:1067-1084 | the three comparisons of segments are one order |
| `BucketConfig.CategoriesExactly` | space/src/bucket-log.ts:1047-1056 | a segment counts as configuration exactly if it only writes, and as one kind exactly if it only appends that kind |
| `BucketLog.Writer.NextCreatedAt` | space/src/bucket-log.ts:775-780 | creation times strictly increase whatever the clock does, and so do their UTC texts |
| `UtcText.IsoIsOrdered` | space/src/bucket-log.ts:775-780 | the fixed-width UTC form sorts like the time |
| `UtcDates.IsoReadsBack` | space/src/bucket-log.ts:775-780 | the UTC form of a time has its fixed punctuation and reads back to an existing Gregorian date and a time of day that are exactly that many milliseconds after the start of 1970 |
| `UtcText.StampIsOrdered` | space/src/bucket-log.ts:1038-1041 | thirteen zero-padded digits sort like the time |
| `UtcDates.StampReadsBack` | space/src/bucket-log.ts:1038-1041 | and they read back to it |
| `IndexHistory.RunIsSound` | space/src/durable-index.ts:450-593 | over advances, output applications and rolled-back failures: each recorded segment was applied exactly once, the records are the applied segments, the revision is their snapshot digest |
| `IndexCoverage.IncrementalIsSingleReplay` | space/src/durable-index.ts:450-593 | after any run the index records exactly the segments, under the revision, that one replay from nothing over them gives; the projection is also the same if every late segment commutes with the recorded ones it sorts before, or every tail sorted after all earlier segments |
| `IndexHistory.SameFilesSameIndex` | space/src/durable-index.ts:450-593 | the same against any single request that records the same segments, by any way of advancing |
| `IndexHistory.ReplayOfSameSegments` | space/src/durable-index.ts:450-593 | the same for any sound index: in which order its records stand decides nothing where late segments commute |
| `IndexHistory.OrderedExactly` | space/src/durable-index.ts:1115-1123 | the records are in replay order exactly when every tail sorted after all earlier ones |
| `IndexTexts.RequestKeepsTexts` | space/src/bucket-log.ts:722-741 | if the cached texts are the last writes of the recorded log, one request leaves them so exactly when, if it commits, no last write of its segments to a path sorts before a recorded write of it and says something else, and if it is rolled back, what it had written by then says what the texts already said |
| `IndexTexts.RunKeepsTexts` | space/src/bucket-log.ts:722-741 | over any run of requests, committed or not, the texts are current after each of them exactly when each is of that kind |
| `IndexTexts.OrderedRunsAreCurrent` | space/src/bucket-log.ts:722-741 | from nothing, if every tail sorts after all recorded segments and every rolled-back request had only restated texts, the texts are always current |
| `IndexTexts.RetryRestores` | space/src/bucket-log.ts:722-741 | after a rolled-back request, one that commits a tail after all recorded segments makes the texts current again if it writes every path that was written |
| `IndexLateTexts.RollbackKeepsText` | space/src/durable-index.ts:461-507 | an advance that applies one segment and then throws records nothing and leaves the text of that segment behind |
| `IndexLateTexts.TextsAreReplayed` | space/src/bucket-log.ts:722-741 | the cached texts are those of one replay from nothing over the recorded segments exactly when they are current, however they came about |
| `IndexLateTexts.TextProjectionIsReplayed` | space/src/bucket-log.ts:722-741 | after any run, a projection that keeps the last applied write is that of one replay exactly when it holds the last write of the log to every path |
| `IndexLateTexts.DisjointWritesCommute` | space/src/bucket-log.ts:722-741 | segments that write no path in common commute, so one of them that is late changes nothing |
| `IndexLateTexts.LateSegmentSetsBack` | space/src/bucket-log.ts:722-741 | two advances that record the later of two segments first leave the old pool file, where one replay over both leaves the new one |
| `IndexCoverage.LatestCoversListing` | space/src/durable-index.ts:450-508 | an advance to the head over unaltered records that meets no bad object or failure records exactly the listed keys, the new ones as verified |
| `IndexCoverage.SnapshotCoversFiles` | space/src/durable-index.ts:522-593 | an advance to a snapshot that fits the records records exactly its files under its revision |
| `IndexCoverage.OutputsCoverKeys` | space/src/durable-index.ts:733-771 | applied outputs record exactly their keys besides the old ones |
| `IndexRuns.SnapshotIsUnique` | space/src/durable-index.ts:415-423 | the snapshot of the records is the one sorted list of them |
| `DurableIndexes.DurableIndex.Apply` | space/src/durable-index.ts:461-507 | segment by segment, each applied and recorded; whatever throws undoes records and projection, and keeps the texts set by then |
| `DurableIndexes.DurableIndex.AdvanceLatest` | space/src/durable-index.ts:450-508 | the transaction over the verified tail, or no change at all but the texts of what was applied |
| `DurableIndexes.DurableIndex.AdvanceSnapshot` | space/src/durable-index.ts:522-593 | the transaction over the pending files, or no change at all but the texts of what was applied |
| `DurableIndexes.DurableIndex.ApplyOutputSegments` | space/src/durable-index.ts:733-771 | the transaction over the loaded outputs, or no change at all but the texts of what was applied |
| `DurableIndexes.DurableIndex.Discover` | space/src/bucket-log.ts:453-499 | succeeds exactly over unaltered records, and then returns the listed objects that are new |
| `DurableIndexes.UnalteredExactly` | space/src/bucket-log.ts:453-499 | records are unaltered exactly when each is listed, and what is listed under its key has its size and the listed identity it had, or verifies to the identity it had |
| `DurableIndexes.AlteredStopsAdvance` | space/src/bucket-log.ts:453-499 | an advance over a deleted or altered record changes nothing |
| `DurableIndexes.FitsExactly` | space/src/durable-index.ts:522-553 | a snapshot fits exactly when it has every recorded key, with the recorded source file, which loads again where that is asked |
| `DurableIndexes.MisfitStopsAdvance` | space/src/durable-index.ts:522-553 | an advance to a snapshot that does not fit changes nothing |
| `Download.LocalFile.DownloadLargeFile` | space/src/durable-index.ts:833-854 | through failed, short and partial attempts the file is what it held before followed by bytes of the object at their places; a true result means nothing is missing, and comes if one attempt carries the whole object and no other object is found; an absent file of a nonempty object becomes the object, of an empty object stays absent |
| `Download.ResumedIsObject` | space/src/durable-index.ts:875-897 | resuming gives the object exactly when what was there is a prefix of it |
| `Download.LocalFile.AppendRemoteFile` | space/src/durable-index.ts:875-897 | one attempt: a longer file is refused unchanged; success means full length; what was streamed and taken by the disk is kept even if the response breaks off |
| `Download.LocalFile.WriteAllBytes` | space/src/durable-index.ts:919-929 | partial writes append a prefix of the bytes, all of them on success |

## Left out

- Hub, HTTP, Chrome, IndexedDB and SQLite calls: they are steps, parameters and outcomes of the environment.
- SHA-256, gzip, base64 and schema validation: typed values and abstract digests stand for them.
- Cursor fields besides the position (`base`, privacy boundary, `started_at`) and the coverage clocks and privacy SQL.
- `post_content_hashes` of upserts: they are carried along and decide nothing.
- `lastError`, `blocked`, `lastSyncAt`, pause, debounce and backoff of the pool: they change no observation.
- `firstSeenAt` and the parsing of request URLs in scrape receipts.
- Concurrent reading of segments: results are collected by position, so only their order matters.
- HandoffSize.StringifyIsClean: JSON numbers are integers here; a fraction or an exponent prints more ASCII characters of the same kind.
- IdentityText.RoundTrip: JSON numbers are safe integers; fractions and exponents are not read back.
- The reordering of integer-like keys by JavaScript objects (for samples it could only change which of equally old ones goes first).
- The returned raw keys of a run are a set; the code lists them sorted.
- `hydrateMetadata`, receipts hydration and publication of the durable index.
- Consumer state commits inside index transactions: they appear only as a step that may fail.
- The cached receipts that applying a segment also updates, and the files that mirror the cached texts.
- The development-mode storage branch of `saveState`, image downloads, logs, trace events and badges.
- Setup, doctor, popup, debug pages, explorer, OAuth, admin routes, inference and media downloads.
- ConsumerRuns.BaseViewReachesTarget: the base view is the reader's own; a unit that was unpublishable at the base and has the same content digest at the target is covered by the stated condition, not excluded.
- CaptureLog.RunKeeps: recovery may act on an outdated listing and a save may serve several handlers, which allows more runs than the code has.
- PoolDelivery.RunKeeps: a flush may give up at more points than the code has, which allows more runs.
