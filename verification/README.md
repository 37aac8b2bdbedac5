# Verified model of rebuilderd

rebuilderd keeps a queue of packages to rebuild, hands them out to workers, and stores what the workers found.
This project models the parts of it that are hard to get right, and proves what they promise for all inputs, all
states and all runs. `dafny verify dfyconfig.toml` checks everything.

## What is modelled

**The life of a rebuild job in the daemon.** The tables are one value, `Rows.Db`. Each handler is a function from
tables to tables: `PackageImport.Imported`, `Queue.WorkRequested`, `Queue.Pinged`, `BuildReport.Reported`,
`Queue.RequeueAll`, `Queue.DropMatching` and `Queue.DropJob`. `Runs` makes them the steps of a state machine. What the
database leaves open (row order, ties) is recorded in the event and constrained by `Runs.Legal`, so every theorem
about runs holds for all choices. "Friends" are build inputs with the same URL, backend and architecture; almost every
rule is about their classes.

- `Handlers`: the class `Database` holds the tables as fields. Its methods loop over rows, fill the log memo lazily and
  update in place like the handlers, and each is proved to take exactly the step of the state machine. Its ghost field
  `history` is always a run, so every theorem about runs is a theorem about the object.
- `Invariants`, `RetryBudget`, `Uniqueness`, `Leases`, `SharedHistories`: what every run keeps. `Histories`,
  `LateJoins` and `Resets` prepare the last of these.
- `ReportEffects`, `WorkEffects`, `RequeueEffects`, `ImportEffects`: what each step does to every row, in terms of the
  tables before it and the request alone. `ImportReads`, `ImportQueueRows`, `ImportListings` and
  `ImportHistories` prepare the last.
- `ImportFacts`, `ImportFlags`, `Coverage`, `ReportFacts`: what one import and one report achieve.
- `WorkSelection`, `Dashboard`, `DashboardSums`: which job is handed out, and what the dashboard counts.
- `Examples`: concrete runs in which something that one might expect does not hold.

**Fast forms against simple ones.** `Dashboard` proves that the self-anti-join finds the latest rebuild.
`Pagination` proves when keyset paging visits every row, and `Pages` what one page shows. `Peers` proves that the cache
of disagreements is exact.

**Loops in the worker.** `ProcessCapture` (Capture.dfy) is the output capture with its size limit, timeout and signals;
`CompareFiles` is the chunked comparison of two files.

**Reading package indexes.** `DebianStanzas` and `DebianRoundTrip` parse control files, `DebianSources` finds source
packages, `DebianGroups` and `FreeBsd` group binary packages; `FreeBsdOrder` says when the order of the list
matters.

Time is an integer. A handler reads its clock once. Ids of append-only tables are positions; queue ids come from a
counter and are never reused.

## Where the code does not do what one might expect

Each of these is proved with the exact condition under which the expected behaviour holds, and with an input that shows
where it does not.

- A package that is not GOOD can be left without a queued friend by the very import that reports it: the job of an
  older version with the same URL blocks it and is then dropped as unseen (`Coverage.QueueCoverageIff`,
  `Examples.CoverageGapExample`).
- A known package that moves to a URL with results starts without them, so friends can have different histories
  (`LateJoins.ImportKeepsHistoriesIff`, `Examples.LateJoinExample`). So can friends of which a requeue resets only some
  (`Resets.RequeueKeepsHistoriesIff`, `Examples.ResetExample`).
- A manual requeue can queue several friends of one class (`Uniqueness.RequeueKeepsUniqueIff`,
  `Examples.FriendsQueuedExample`). The code leaves friends out of account on purpose
  (daemon/src/api/v1/queue.rs:238); tests/src/api/v1/queue/request_rebuild.rs:140 still expects the opposite, and the
  model follows the code.
- Paging by a column with NULLs skips rows, unless all rows fit on one page or, in ascending order, the NULLs leave
  room for a value on the first page. Paging through a listing that repeats ids, as that of source packages with
  several build inputs does, skips copies when a page ends between them. Together that is all
  (`Pagination.WalkIsCompleteIff`, `Pagination.NullsLoseRowsExample`, `Examples.SplitListingExample`).
- Searching for a name with a wildcard finds other names too (`Search.SearchIsExactIff`).
- The dashboard and manual requeues mean different rebuilds by "latest" (`Dashboard.LastIsLatestIff`,
  `Examples.LatestExample`).
- When the last chunk of output straddles the size limit, it is cut without a message: a size message needs a chunk
  that arrives when the limit has been reached (`ProcessCapture.LogIsPrefixAndEnding`,
  `ProcessCapture.SilentCutExample`).
- The order of a FreeBSD package list matters when packages of a port share a name but differ in architecture or, under
  the least name, in commit or build time (`FreeBsdOrder.OrderIsIrrelevantIff`, `FreeBsdOrder.OrderMattersExample`).

## Model

| member | source | states |
|---|---|---|
| Handlers.Database.SubmitRebuildReport | daemon/src/api/v1/build.rs:105-263 | A report is accepted exactly if its queue row exists; the friends-by-artifacts loops with their lazily filled log memo take exactly the step of the state machine, whatever the row order. |
| Handlers.Database.StoreReport | daemon/src/api/v1/build.rs:135-216 | The nested loops over friends and artifacts store what the one-pass memo and the fan-out of the specification store. |
| Handlers.Database.Reschedule | daemon/src/api/v1/build.rs:218-260 | Delete, count the failure for all friends, then give up or postpone all friends and requeue one: the new tables are those of the specification. |
| Handlers.Database.SubmitPackageReport | daemon/src/api/v1/package.rs:206-321 | The import loop marks, imports and drops exactly as one legal import step, for some choice of row orders and ties. |
| Handlers.Database.CopyExistingRebuilds | daemon/src/api/v1/package.rs:358-437 | Copying row by row from the tables that are being extended equals copying from the tables at the start. |
| Handlers.Database.CurrentStatus | daemon/src/api/v1/package.rs:341-356 | The status of a rebuild with the greatest build time, NULL as the smallest; UNKWN if there is none. |
| Handlers.Database.EnqueueUnlessQueued | daemon/src/api/v1/package.rs:285-315 | New tables after the decision to queue, to give up, or to leave the queue alone. |
| Handlers.Database.RequestWork | daemon/src/api/v1/queue.rs:409-534 | Sweeps, then hands out a job of minimal rank among the eligible ones, or nothing exactly if none is eligible. |
| Handlers.Database.PingJob | daemon/src/api/v1/queue.rs:344-376 | Succeeds exactly for the holder, and then renews only that lease. |
| Handlers.Database.RequestRebuild | daemon/src/api/v1/queue.rs:101-257 | Queues every selected build input once although the join repeats it per binary; the answer counts joined rows. |
| Handlers.Database.DropQueuedJobs | daemon/src/api/v1/queue.rs:260-298 | Removes exactly the matching rows and reports their number. |
| Search.SearchIsExactIff | daemon/src/api/v1/util/filters.rs:68-76 | Searches find exactly the names that begin with, or contain, what is searched for, up to the case of letters, if and only if it has no wildcard. |
| Search.WildcardFindsMore | daemon/src/api/v1/util/filters.rs:68-76 | For any search text with a wildcard, a name that is found but does not contain it. |
| Handlers.Database.DropQueuedJob | daemon/src/api/v1/queue.rs:320-341 | Removes one row and tells whether it existed. |
| Handlers.Database.UpsertQueued | daemon/src/models/queue.rs:41-56 | A second upsert changes only the priority: the row keeps its id, time and lease. |
| Handlers.Database.UpsertInput | daemon/src/models/build_input.rs:41-58 | An upsert of a known build input changes nothing, neither retries nor next retry. |
| Handlers.Database.UpsertSource | daemon/src/models/source_package.rs:44-53 | Inserts, or overwrites the row with the same identity in place. |
| Handlers.Database.UpsertBinary | daemon/src/models/binary_package.rs:39-60 | Inserts, or overwrites URL and seen flag of the row with the same key. |
| Handlers.Database.MarkFriendsNonRetriable | daemon/src/api/v1/util/friends.rs:48-66 | Clears the next retry of the class and removes all its jobs, held or not. |
| Handlers.StandardizeArchitectures | daemon/src/api/v1/queue.rs:382-401 | The loop computes the closure under the alias table. |
| Friends.MaxRetries | daemon/src/api/v1/util/friends.rs:80-91 | The result is attained by a friend and exceeded by none. |
| Invariants.RunIsValid | daemon/migrations/2025-06-01-095202_redesign_database/up.sql:15-233 | In every run all unique keys hold and no reference dangles. |
| ImportFacts.ImportOneEffect | daemon/src/api/v1/package.rs:224-315 | Importing one package leaves every queue row as it is and adds at most one fresh, unheld row, exactly when the class needs one. |
| ReportFacts.ReportFansOut | daemon/src/api/v1/build.rs:135-216 | One log, one rebuild per friend, friends times entries artifact rows, and one log row per distinct name whose first entry brings a log. |
| ReportFacts.ReportedArtifact | daemon/src/api/v1/build.rs:157-215 | Whichever friend gets it, an artifact row points at the logs of the first entry of its name. |
| ReportFacts.MemoIdsDistinct | daemon/src/api/v1/build.rs:141-200 | Different names never share a log row. |
| ReportFacts.DiffoscopeRowHasEntry | daemon/src/api/v1/build.rs:162-190 | Every stored diffoscope belongs to the first entry of some name. |
| ReportFacts.FanOutArtifacts | daemon/src/api/v1/build.rs:143-216 | No earlier rebuild gains or loses an artifact row. |
| ReportFacts.FailedAttemptEffect | daemon/src/api/v1/build.rs:218-260 | A failure counts for the whole class; then either all its jobs go, or just the reported row is renewed. |
| ReportEffects.ReportStores | daemon/src/api/v1/build.rs:121-216 | The log, and one rebuild with the report's times and status for each build input with the same URL, backend and architecture, and for no other. |
| ReportEffects.ReportedRowIsGone | daemon/src/api/v1/build.rs:218 | Whatever the result, the reported row has left the queue. |
| ReportEffects.GoodReportEffect | daemon/src/api/v1/build.rs:218-220 | A GOOD result changes nothing else: all other rows, all build inputs and the id counter stay as they are. |
| ReportEffects.FailedReportEffect | daemon/src/api/v1/build.rs:218-260 | Any other result counts for every friend. With m failures at most before, all wait m + 2 base delays and only the reported input is queued again, at retry priority; or, at the limit, none is retried and all their rows go. |
| ReportEffects.ReportedRowIsNeverTaken | daemon/src/api/v1/build.rs:218 | In every run, a row that was reported is never handed out again. |
| RetryBudget.RetriesAreFailedAttempts | daemon/src/api/v1/build.rs:220-242 | In every run, the retry count of a class is the number of failures reported for it, and it exceeds the limit at most by the number of manual requeues that select the class, each counted once. |
| RetryBudget.RetryDelays | daemon/src/api/v1/build.rs:226-252 | The n-th failure makes all friends wait n + 1 base delays, or from the limit on ends all retries and jobs of the class. |
| RetryBudget.RetryDelaysGrow | daemon/src/api/v1/build.rs:241-249 | From one retried failure to the next, the wait of every friend grows by the base delay. |
| Uniqueness.QueueIsUnique | daemon/src/api/v1/package.rs:283-312 | In every run in which no manual requeue meets a queued friend, at most one member of a class is queued. |
| Uniqueness.RequeueKeepsUniqueIff | daemon/src/api/v1/queue.rs:210-253 | A manual requeue keeps that exactly if no two friends are among the queued and the selected inputs. |
| Examples.FriendsQueuedExample | daemon/src/api/v1/queue.rs:236-253 | A run in which one manual requeue queues both members of a class. |
| Leases.LeasesAreCoherent | daemon/src/api/v1/queue.rs:422-440 | Worker, start and last ping of a job are always set or NULL together. |
| Leases.LeaseSafety | daemon/src/api/v1/queue.rs:418-440 | A job that still exists is still held by its worker, unless a request for work found the last ping more than the deadline ago. |
| Leases.PingingKeepsLease | daemon/src/api/v1/queue.rs:344-440 | From the hand-out or any later ping on, a holder keeps its job while the job exists, if every request for work comes within the deadline of some renewal: the hand-out itself, or a ping. |
| Leases.HandOutGivesLease | daemon/src/api/v1/queue.rs:497-505 | The worker that is handed a job holds it. |
| Leases.RemovedStaysRemoved | daemon/migrations/2025-06-01-095202_redesign_database/up.sql:221-233 | A removed job never comes back under its id. |
| Leases.ImportKeepsLeases | daemon/src/api/v1/package.rs:175-204 | An import changes no lease and removes no held job. |
| SharedHistories.FriendsShareHistory | daemon/src/api/v1/package.rs:278-283 | In every run whose imports let no package join late and whose resets treat friends alike, friends have the same multiset of rebuilds: times, log, status and artifacts. |
| SharedHistories.StepKeepsHistoriesIff | daemon/src/api/v1/build.rs:121-216 | A step of any handler keeps equal histories equal exactly under these conditions, which speak of the tables and the request before the step. |
| LateJoins.ImportKeepsHistoriesIff | daemon/src/api/v1/package.rs:221-315 | A whole report keeps histories equal exactly if none of its packages is known under other URLs only while the class of its URL has results. |
| LateJoins.ImportAllKnows | daemon/src/api/v1/package.rs:223-283 | After some packages of a report, exactly the earlier and the listed packages and URLs are known, and no class has gained its first result. |
| Resets.RequeueKeepsHistoriesIff | daemon/src/api/v1/queue.rs:210-234 | A manual requeue keeps histories equal exactly if it changes the same entry for all friends of a class, or nothing for any of them. |
| Resets.RequeueAllHistory | daemon/src/api/v1/queue.rs:210-253 | A reset clears the newest entry of every selected input, rebuild and artifacts alike, and touches no other. |
| Examples.LateJoinExample | daemon/src/api/v1/package.rs:226-283 | A run whose last import gives friends different histories. |
| Examples.ResetExample | daemon/src/api/v1/queue.rs:210-234 | A run whose last requeue resets one of two friends. |
| Histories.CopyHistory | daemon/src/api/v1/package.rs:385-433 | Copies give the new build input the same entries, and no other input changes. |
| Histories.FanOutHistory | daemon/src/api/v1/build.rs:143-216 | A report adds the same entry to the history of each friend and to no other. |
| ImportFlags.ImportSetsFlags | daemon/src/api/v1/package.rs:119-173 | After an import, packages and binaries in scope are seen exactly if the report lists them, and all others are unchanged. |
| ImportReads.CurrentStatusIff | daemon/src/api/v1/package.rs:341-356 | The status read is that of a rebuild that no other was built later than, one with a build time if there is any; UNKWN for an input without rebuilds. |
| ImportReads.ImportReadsDashboardIff | daemon/src/api/v1/dashboard.rs:46-60 | With all build times set, as in every run, the import reads the status that the dashboard shows, whatever row comes first, exactly if no rebuild of the same build time has another status; distinct build times are enough. |
| ImportReads.KnownInputStatus | daemon/src/api/v1/package.rs:284-341 | A package known under its URL is judged by the rebuilds it had before the import, wherever it stands in the report. |
| ImportHistories.ImportGivesHistories | daemon/src/api/v1/package.rs:223-283 | Known build inputs keep their rebuilds; the first build input of a new package starts with those of the oldest friend, and every other new one with none. |
| ImportEffects.ImportEffect | daemon/src/api/v1/package.rs:218-320 | Every row of every table after an import: sources and binaries as last listed or unseen, build inputs with their next retries, which rows leave the queue and which are new, and whose rebuilds a new build input starts with. |
| ImportEffects.NewRowOfOldInput | daemon/src/api/v1/package.rs:284-315 | A build input from before the import is newly queued only if a newest rebuild is not GOOD, or for lack of rebuilds; at retry priority exactly for BAD. |
| Coverage.QueueCoverageIff | daemon/src/api/v1/package.rs:285-317 | A reported package that is not GOOD and below the limit has a queued friend after the import, exactly unless its class was queued before, and only by unheld jobs of unlisted packages in scope. |
| Coverage.QueueCoverageInRuns | daemon/src/api/v1/package.rs:285-317 | The same for an import at any point of any run, with the number of failures as the retry count. |
| Coverage.QueueCoverage | daemon/src/api/v1/package.rs:181-204 | It always has one if no unlisted package of its scope shares its URL. |
| Examples.CoverageGapExample | daemon/src/api/v1/package.rs:181-204 | A run of two imports after which the reported package has no job. |
| WorkSelection.NothingIffNoneEligible | daemon/src/api/v1/queue.rs:442-533 | Nothing is a possible answer exactly if no job is eligible. |
| WorkSelection.PollingDrainsInOrder | daemon/src/api/v1/queue.rs:452-529 | At a fixed time, repeated requests hand out every eligible job exactly once, in non-decreasing rank. |
| WorkEffects.WorkRequestEffect | daemon/src/api/v1/queue.rs:409-529 | Rows whose last ping is more than nine minutes ago are free afterwards, the row handed out belongs to the asking worker, and all others are as before. |
| WorkEffects.WorkRequestAnswer | daemon/src/api/v1/queue.rs:442-533 | The answer is Nothing exactly if no row is free or expired, due, and of a supported backend and architecture; otherwise it is such a row, and none comes before it by priority, day, git time and source. |
| WorkEffects.PingEffect | daemon/src/api/v1/queue.rs:344-376 | A ping of the holder renews the last ping of that row; any other ping changes nothing. |
| RequeueEffects.RequestRebuildEffect | daemon/src/api/v1/queue.rs:101-257 | Exactly the build inputs that fit all filters are due a minute ago and have a row at the requested priority, 0 if none is given; rows that were there keep id, time and lease, and nothing else changes. |
| RequeueEffects.RequestResetEffect | daemon/src/api/v1/queue.rs:210-234 | With reset, exactly the newest rebuilds of these inputs lose their status, and so do their artifacts. |
| RequeueEffects.RequestedIsOffered | daemon/src/api/v1/queue.rs:236-253 | A poll at that time for its backend and architecture is not turned away while the row of a requested input is free. |
| RequeueEffects.DropEffect | daemon/src/api/v1/queue.rs:260-298 | A drop removes exactly the rows of build inputs that fit both filters, held or not. |
| Dashboard.LatestRowIsLatest | daemon/src/api/v1/dashboard.rs:46-60 | With all build times set, the anti-join leaves one row: the greatest build time, then the greatest id. |
| Dashboard.OneLatestRowIff | daemon/src/api/v1/package.rs:41-69 | It leaves exactly one row exactly if all build times are set or there is only one rebuild. |
| Dashboard.SumsCountEveryInputOnceIff | daemon/src/api/v1/dashboard.rs:72-97 | The four sums add up to the seen build inputs in the filter exactly if each of these leaves one row. |
| Dashboard.RunKeepsBuilt | daemon/src/api/v1/build.rs:144-150 | In every run all build times are set. |
| Dashboard.DashboardCountsEveryInputOnce | daemon/src/api/v1/dashboard.rs:45-97 | So in every run the sums count every seen build input in the filter once. |
| Examples.LatestExample | daemon/src/api/v1/queue.rs:148-186 | A run after which the dashboard shows BAD while requests for rebuilds select the same package as GOOD. |
| Dashboard.JobCountsAddUp | daemon/src/api/v1/dashboard.rs:99-142 | Every queued job of a seen package in the filter is running, available or pending, and only one of them. |
| DashboardSums.SumsAre | daemon/src/api/v1/dashboard.rs:72-97 | In every run each sum is the number of seen build inputs in the filter whose last rebuild has that status; inputs without rebuilds count as unknown. |
| DashboardSums.JobCountsAre | daemon/src/api/v1/dashboard.rs:99-142 | Running jobs are held, pending ones are free but wait for their next retry, and the others are available. |
| Pagination.RunPaginated | daemon/src/api/v1/util/pagination.rs:47-173 | Collecting conditions, ordering and limiting gives the first rows, in order, that pass both cursors, whether or not joins repeat ids. |
| Pages.PageIs | daemon/src/api/v1/util/pagination.rs:47-173 | A page is the start, 1000 rows by default, of all rows between the cursors, copies included, by sort value and id: ascending unless descending is asked for, and NULL on the side of the smallest value. |
| Pagination.ListedIsUnique | daemon/src/api/v1/util/pagination.rs:112-127 | The same rows, copies included, have only one list in (sort value, id) order. |
| Pagination.WalkIsCompleteIff | daemon/src/api/v1/util/pagination.rs:66-110 | Asking for page after page lists every row once, in order, exactly if no NULL sort value cuts the walk short and no full page ends between two rows of one id; ids may repeat, but rows of one id have one sort value. |
| Pagination.EveryIdIsSeen | daemon/src/api/v1/util/pagination.rs:129-151 | Unless NULLs cut it short, a walk misses no id altogether: only copies are lost. |
| Pagination.NullsLoseRowsExample | daemon/src/api/v1/util/pagination.rs:66-110 | Two rows of which a walk never sees the second, which has a sort value. |
| Pagination.RepeatedIdExample | daemon/src/api/v1/util/pagination.rs:129-151 | Two rows of one id of which a walk never sees the second. |
| Dashboard.OneRowPerInput | daemon/src/api/v1/package.rs:41-69 | In every run, the listing of source packages has one row per build input, so it repeats packages with several. |
| Examples.SplitListingExample | daemon/src/api/v1/package.rs:440-510 | A run whose listing of source packages has three rows, of which a walk sees two. |
| Pagination.StoppingRulesAgree | daemon/src/api/v1/peers.rs:700-708 | Stopping at an empty page and stopping at a short page see the same rows. |
| Pagination.WalkUntilEmpty | tools/src/main.rs:289-312 | The client loop terminates and sees the whole walk. |
| Pagination.WalkUntilShort | daemon/src/api/v1/peers.rs:657-709 | So does the loop that stops at a short page. |
| Peers.PeerTables.Register | daemon/src/api/v1/peers.rs:77-109 | Exactly the requested URLs stay registered for the distribution and architecture, known peers keep their ids, and checks go with their peers. |
| Peers.PeerTables.StoreChecks | daemon/src/api/v1/peers.rs:422-478 | Either the rows of the compared peers are replaced by the disagreements, once each, or nothing changes; it fails exactly if a row to insert has lost its peer. |
| Peers.CachedIffDisagreement | daemon/src/api/v1/peers.rs:439-460 | A row of a compared peer is cached exactly if both sides have the package and one is GOOD, the other BAD, whatever the order of the peers; rows of other peers stay. |
| Peers.Collect | daemon/src/api/v1/peers.rs:422-456 | The loops collect exactly the disagreements and never two rows with one key. |
| Peers.FetchPackages | daemon/src/api/v1/peers.rs:645-712 | Paging yields every name and version the peer has, each decided by its record with the highest id, even if the answer repeats ids. |
| ProcessCapture.LogIsPrefixAndEnding | worker/src/proc.rs:50-135 | The log is the first bytes of what was read before the first stop, however chunked, then at most one size and one timeout message; it says exactly which. |
| ProcessCapture.LogIs | worker/src/proc.rs:50-135 | The same in terms of sizes and times, with the texts of both messages. |
| ProcessCapture.SilentCutExample | worker/src/proc.rs:52-72 | A chunk that crosses the limit is cut without a message. |
| ProcessCapture.SignalSafety | worker/src/proc.rs:77-118 | At most one SIGTERM is sent, its time is recorded once, and SIGKILL follows it only after more than the delay. |
| ProcessCapture.SignalsAre | worker/src/proc.rs:77-118 | SIGTERM goes out exactly when the capture first stops for a reason that kills and the child is there, and SIGKILL at exactly the later wakeups that find it there more than ten seconds after. |
| ProcessCapture.Capture.PushBytes | worker/src/proc.rs:51-75 | Appends what fits, or truncates: the step of the state machine. |
| ProcessCapture.Capture.NextWakeup | worker/src/proc.rs:98-134 | Sends what is due and returns how long to sleep. |
| ProcessCapture.CaptureOutput | worker/src/proc.rs:170-222 | For any sequence of reads, closes, timeouts and exits, the loop hears every round until both streams have ended or SIGKILL is sent, captures what they deliver and nothing after, and answers with the first exit after that. |
| CompareFiles.CompareContents | worker/src/rebuild.rs:39-97 | True exactly for equal files, for any sizes of the reads; a reported position is the first difference. |
| DebianStanzas.ExtractPackages | tools/src/schedule/debian.rs:226-286 | The line loop with its inner unfolding loop computes the recursive parser. |
| DebianRoundTrip.SourcesRoundTrip | tools/src/schedule/debian.rs:157-178 | Rendered source packages are read back exactly, in order, with fields in any order, other lines in between, and lists folded anywhere; a last stanza without a blank line is ignored. |
| DebianRoundTrip.BinariesRoundTrip | tools/src/schedule/debian.rs:180-218 | The same for binary packages and their source field. |
| DebianRoundTrip.ParseRendered | tools/src/schedule/debian.rs:226-286 | Any rendered stanzas are converted one by one up to the first that lacks a field, for either kind of package. |
| DebianRoundTrip.UnfoldFolded | tools/src/schedule/debian.rs:240-265 | Unfolding restores the list and consumes exactly its lines, wherever it was folded. |
| DebianRoundTrip.SourceFieldRoundTrip | tools/src/schedule/debian.rs:190-204 | A source field with or without a version is read as written. |
| DebianSources.SourcePkgBucket.Get | tools/src/schedule/debian.rs:31-59 | Lookup by name agrees with a linear scan of everything that was pushed. |
| DebianSources.ScanFindsFirst | tools/src/schedule/debian.rs:47-58 | The scan returns the first source with that name and version, with the suffix at the end of its version, and otherwise says whether the name is known. |
| DebianSources.BinNmuIff | tools/src/schedule/debian.rs:33-38 | A version has a suffix exactly if it ends with "+b" and a 64-bit number. |
| DebianGroups.SyncState.Push | tools/src/schedule/debian.rs:298-366 | The new reports, and that groups keep agreeing with all pushes: unique, with exactly their own artifacts, and as many artifacts in all as pushes. |
| DebianGroups.UrlIs | tools/src/schedule/debian.rs:94-117 | The address of the build recipe: under the first letter of the name, or four for libraries, and without the epoch of the version. |
| DebianGroups.PushHasOneGroup | tools/src/schedule/debian.rs:318-348 | Every pushed binary is listed in exactly one group. |
| FreeBsd.CommitTimes | tools/src/schedule/freebsd.rs:206-246 | Each commit gets the earliest of its fetched time and all its build times, and no commit without any gets one. |
| FreeBsd.GroupPackages | tools/src/schedule/freebsd.rs:261-294 | Each origin and version has one group with exactly its packages, named and dated after the first. |
| FreeBsd.FirstMemberHasLeastName | tools/src/schedule/freebsd.rs:254-285 | The first package of a group, whose URL it gets, has the least name. |
| FreeBsd.Sync | tools/src/schedule/freebsd.rs:206-288 | The loops give the earliest commit times and the groups of the list sorted by name. |
| FreeBsd.GroupKeys | tools/src/schedule/freebsd.rs:261-294 | There is a group for exactly the ports and versions in the list. |
| FreeBsd.GroupIs | tools/src/schedule/freebsd.rs:248-294 | A group holds one artifact for each package of its port and version, and has the name, address and times of the first, whose name is least, by prefix or first differing character. |
| FreeBsdOrder.OrderIsIrrelevantIff | tools/src/schedule/freebsd.rs:248-294 | Every reordering of the package list gives the same groups exactly if packages of one port with the same name agree on the architecture and, where theirs is the least name, on commit and build time; commit times never depend on the order. |
| FreeBsdOrder.SwapChangesGroups | tools/src/schedule/freebsd.rs:254-285 | Packages that do not agree change their group when they swap places at the head of any list. |
| FreeBsdOrder.OrderMattersExample | tools/src/schedule/freebsd.rs:254-294 | A list whose reordering changes the groups. |

## Left out

- HTTP, JSON, authentication, worker registration and the workers table: a handler is its arguments and its effect on the tables above.
- `unregister_worker`, schema migrations, and foreign-key actions other than the one on peer checks.
- Atomicity: the report, requeue and drop handlers run several statements outside a transaction; here each handler is one step.
- Clocks: a handler uses one reading of the clock, and timestamps are integers rather than text.
- Row order where the code copies artifact rows with INSERT ... SELECT: taken in id order.
- Integer width: ids, retries and priorities are unbounded. The only width that decides a branch, the 64-bit number after "+b", is modelled.
- The text PLACEHOLDER that the unique index of source packages uses for NULL: a release or component of that very name is not told apart from NULL there.
- Search: LIKE folds the case of ASCII letters only, as SQLite does by default.
- Compression and the contents of logs: opaque bytes.
- The list of binary packages that goes out with a job, and all other read-only listings.
- Pagination.RunPaginated: the sort column is given by its values, one per id, so rows that share an id but differ in the sort column are not modelled, nor is a misspelt column name and its error, nor the SQL text.
- Pagination.WalkIsCompleteIff: the same premise: rows that share an id have the same sort value, as they do for every column of the package itself.
- Peers.FetchPackages: rows that share an id are copies of one record.
- Peers: HTTP fetching and failures of single peers only decide which peers are compared; the query for local packages and the older peer API are left out.
- ProcessCapture.Capture.PushBytes: a log that is already longer than the limit when the capture starts would underflow in the source, and is excluded. Failing signals, echoing to the terminal and process groups are left out.
- ProcessCapture.SignalSafety: SIGKILL may be sent again at later wakeups while the child has not been waited for, as in the source.
- CompareFiles.CompareContents: a second file that is reported as shorter may also differ earlier within the last chunk, as in the source.
- DebianRoundTrip: parts of a list do not contain its separator (a comma and a space), and the last binary does not end with a comma; I/O errors while reading lines are left out.
- DebianGroups.SyncState.Push: names too short for their directory prefix, for which the source panics, are excluded. The maintainer and name filters before it are left out.
- FreeBsd: JSON parsing, name filters and the fetching of commit times, which are an argument here.
- Configuration loading, the other distributions, statistics categories, the command line tools.
