# A verified model of the ASMT monitor

ASMT watches one server: it runs health checks in cycles, follows log files, pulls the system journal, and
serves what it knows to a dashboard. This project models its stateful core in Dafny and proves what that
core keeps over every run. The model has no clock, no files and no network of its own: the instant of a
call, the content of a file and the outcome of a query are arguments, and directories are maps from a day
to the value stored for it.

- `Clock`: integer time in nanoseconds since the epoch, UTC days, and the 900-second buckets with the
  rounding of Go's `%`.
- `LogModel`, `LogBuffer`: the aggregating log buffer, once as a value and once as a class whose slice and map
  share entry objects. Every method of the class is proved against the value.
- `StableSort`, `Ledger`, `Refinement`, `BufferRuns`, `ArrivalOrder`, `Queries`: what the buffer is over
  whole runs. The ledger is the simple aggregate it refines: one history of operations for each live key.
- `Reload`, `Lines`, `LogWatcher`: loading saved days, cutting streams into lines, and the log watcher that feeds
  the buffer.
- `DailySaves`, `SaveRuns`, `DayChanges`, `DayTotals`, `ChangesCancel`: what a restart brings back of a buffer whose
  saves write today only, after one save and over every run, and the counts of each day.
- `Components`, `WeekHistory`, `QuickRecovery`, `Scheduler`, `Streams`, `Cycle`: one component as a state machine, its
  week of history, when that shows the worst of a day, the scheduler class over all components, and the confluence of
  a check cycle.
- `HistoryStore`, `Restart`: the daily history files and what survives a restart.
- `Sync`, `SingleFlight`: the chunked journal sync as a class, any number of its callers interleaved, and one
  call of the class as steps of that protocol.
- `Resync`: start-up, where a first sync follows the loading of the saved days.
- `Metrics`, `MetricFiles`, `MetricRuns`: the ring of readings, its sampler, its daily files, and runs with restarts.
- `Text`, `Nginx`, `NginxTree`, `NginxDomains`, `NginxLines`, `NginxComments`: the nginx scanner, the trees of blocks it
  reads rightly, however they are indented, and the lines it does not.
- `Checks`, `Sequences`: shared types and facts.

Loops and methods that change state in the source are methods here, tied by their postconditions to functions of the
old state; the properties of whole runs are lemmas about those functions.

Where the code does not do what it says, the model follows the code. Each point names the exact condition under which
the two agree and, where that takes more than a glance at the condition, an input on which they do not:

- The bucket comment promises that aggregation is per 15 minutes. Go's remainder rounds toward zero, so before the epoch
  buckets shift, the one around the epoch is twice as wide, and some span two days (`Clock.SameBucketSpansDays`,
  `Clock.EpochBucketSpansDays`).
- Saving and reloading does not reproduce the buffer: a save writes the entries of today only
  (`DailySaves.RestartAfterSave`, `DailySaves.UnsavedDayIsLost`). A day comes back as its last save stored it, so as it
  was only if nothing of it was fed or dropped since (`DayChanges.ComesBackExactly`). An entry whose last sighting is
  the zero time would not come back even if its day were saved (`Reload.ZeroTimeIsLost`), but only a day file with dates
  around year 1 leads to one; entries dated since the epoch never do (`SaveRuns.RunOk`).
- A loaded entry that meets its key adds its count but never makes the entry look worse
  (`Refinement.SeverityIsWorstExactly`, `Refinement.LoadedErrorIsHidden`).
- A day of the history is said to show the worst status seen. A quick recovery resets the whole day to ok, earlier
  outages included (`QuickRecoveries.ShowsWorstExactly`, `QuickRecoveries.LongOutageForgotten`).
- The metrics file of a day is never completed after midnight: the readings after its last save are not on disk
  (`MetricFiles.CompleteExactly`, `MetricFiles.LastReadingsAreLost`).
- Syncing is meant to make the buffer show what really happened, so a window starts where the last one was completed. A
  restart forgets when that was: the first sync goes seven days back, over what the saved days already count
  (`Resyncs.CountsJournalExactly`, `Resyncs.CountedTwice`).
- The recent-points scan stops at the first recent point, so it equals the filter, for every cutoff, exactly when the
  times never decrease (`Metrics.ScanIsFilter`).
- The nginx scanner reads line by line. It misses server blocks on a single line, or with the brace on the next line
  (`NginxDomains.CompleteExactly`, `NginxDomains.DomainMissed`, `NginxDomains.SplitServerMissed`). It reads comments as
  arguments: a listen line is TLS also when its comment says so (`NginxTree.ListenIsSsl`), and a server_name line is
  read rightly only without one (`NginxComments.NamesReadExactly`, `NginxComments.CommentLosesName`). What the scanner,
  and this model, call TLS is a listen argument that contains 443 or ssl, so 14430 as well.

One more point about the sync. What the source calls the most recent successful sync is the completion of the last run,
failed and cancelled chunks included (`SingleFlight.PublishedTogether`); windows of successive runs never overlap, and
meet only in one exact case (`SingleFlight.WindowsMeetExactly`).

## Model

| member | source | states |
|---|---|---|
| Clock.SameBucketSpansDays | logwatch.go:81-88 | two instants of one 900-second bucket lie on different UTC days exactly when the earlier one is before the epoch and the later one is in the first second of a day or past the epoch; so from the epoch on no bucket spans two days |
| Clock.EpochBucketSpansDays | logwatch.go:81-88 | a concrete bucket, around the epoch, that does span two days |
| Clock.BucketSpread | logwatch.go:81-88 | instants at most w seconds apart fall into at most ceil(w/900)+1 consecutive buckets |
| LogBuffers.LogBuffer.constructor | logwatch.go:117-124 | a new buffer is valid and empty |
| LogBuffers.LogBuffer.Aliasing | logwatch.go:102-115 | slice and map hold the same objects: every slot is the object its own key maps to, no object sits in two slots, every key leads to a slot |
| LogBuffers.LogBuffer.AddEvent | logwatch.go:147-195 | the whole new state: count into the entry of the key or insert a new entry in time order, and prune after every 64th insertion |
| LogBuffers.LogBuffer.Aggregate | logwatch.go:152-166 | counting through the map changes exactly that one entry of the slice; severity, line and advice change only for a worse event |
| LogBuffers.LogBuffer.CountEvent | logwatch.go:152-166 | one object becomes the merged entry; by name, its severity becomes the worse of the two among error, warn and info, and its line changes exactly when its severity does |
| LogBuffers.LogBuffer.InsertNew | logwatch.go:172-188 | fast and slow path both place the entry after every entry that is not later than it |
| LogBuffers.LogBuffer.PlaceFor | logwatch.go:176-184 | the append test and the search for the first later entry agree on one position |
| LogBuffers.LogBuffer.SearchAfter | logwatch.go:182-184 | the search for the first later entry finds the sorted position |
| LogBuffers.LogBuffer.SearchNotBefore | logwatch.go:245-247 | the search for the first entry not before an instant finds the lower bound |
| LogBuffers.LogBuffer.AddAggregated | logwatch.go:200-235 | the whole new state after an entry read from disk; it touches neither the insertion counter nor the oldest entries |
| LogBuffers.LogBuffer.AggregateLoaded | logwatch.go:212-218 | merging a loaded entry adds its count and moves the last sighting, and never upgrades the severity |
| LogBuffers.LogBuffer.PruneLocked | logwatch.go:239-264 | keeps the newest maxSize of the entries not older than maxAge, and slice and map still index the same objects |
| LogBuffers.LogBuffer.DropOldest | logwatch.go:255-263 | drops a prefix of the slice and leaves the map the index of the rest |
| LogBuffers.LogBuffer.ForgetOldest | logwatch.go:256-261 | deleting the dropped keys one after the other leaves exactly the index of the entries that stay |
| LogBuffers.LogBuffer.CopyRange | logwatch.go:268-274 | value copies of the run of entries, in order |
| LogBuffers.LogBuffer.Entries | logwatch.go:278-287 | the newest limit entries, or all of them, oldest first |
| LogBuffers.LogBuffer.EntriesSince | logwatch.go:291-299 | the binary search answers exactly the linear filter for entries within the last d |
| LogBuffers.LogBuffer.EntriesForDay | logwatch.go:303-314 | the two binary searches answer exactly the linear filter for one UTC day |
| LogBuffers.LogBuffer.MaxLastSeen | logwatch.go:319-329 | the latest last sighting of any entry, at least the zero time |
| LogBuffers.LogBuffer.Len | logwatch.go:332-336 | the number of entries |
| LogModel.KeptExactly | logwatch.go:239-264 | an entry keeps its key through a prune exactly when it is not older than the cutoff and fewer than maxSize entries come after it |
| LogModel.KeptIsSuffix | logwatch.go:239-264 | filtering by age and capping by size is one cut: a prune of a sorted buffer drops a prefix of the computed length |
| LogModel.StepWellFormed | logwatch.go:147-264 | every operation keeps the entries sorted by first arrival and their keys distinct |
| LogModel.InsertAt | logwatch.go:176-188 | inserting by comparison from the newest end equals splitting at the searched position |
| LogModel.NotBeforeIsSuffix | logwatch.go:291-299 | on a sorted buffer the filter by age is a suffix |
| LogModel.InRangeIsSlice | logwatch.go:303-314 | on a sorted buffer the filter by range is a slice |
| StableSort.SortIsStable | logwatch.go:175-188 | placing entries one by one sorts them by time, keeps the same entries, and keeps the order of arrival among equal times |
| StableSort.SortedUnique | logwatch.go:175-188 | those three facts determine the sequence |
| StableSort.SortMerged | logwatch.go:152-166 | counting an operation into its entry commutes with the sorting |
| StableSort.SortRetain | logwatch.go:255-263 | dropping keys commutes with the sorting |
| Ledger.SummaryAccounts | logwatch.go:147-235 | the entry a history of operations adds up to has their total count, the latest sighting, the worst severity with the line of the first operation that reached it, and the last advice given by an operation that set a record |
| Refinement.RunRefines | logwatch.go:147-264 | over every run of events, loads and prunes, in any order of timestamps, the buffer is the stable sort by first arrival of the summaries of one history per live key |
| Refinement.LedgerIsLive | logwatch.go:147-264 | the history of a key is exactly the operations fed for it since it was last inserted |
| Refinement.EntryAccountsForItsEvents | logwatch.go:147-264 | in every reachable buffer each entry is the exact account of the operations fed for its key since that key was inserted |
| Refinement.NothingElseIsLive | logwatch.go:239-264 | a key has live operations exactly when it is in the buffer |
| Refinement.EventsCountThemselves | logwatch.go:147-195 | an entry built by events alone counts exactly those events |
| Refinement.EntrySeverity | logwatch.go:128-166 | in every reachable buffer an entry shows error if and only if an event of its key, or the operation that inserted it, was an error; warn if and only if none was and one was a warning; info likewise; its line is that of the first with the severity shown |
| Refinement.EventSeverity | logwatch.go:128-166 | the same for an entry that events alone built |
| Refinement.SharesEntry | logwatch.go:81-100 | whatever an entry counts has its title and its source and, from the epoch on, is of the same quarter of an hour |
| Refinement.EntriesApart | logwatch.go:81-100 | two entries differ in title, in source, or, from the epoch on, in the quarter of an hour |
| Refinement.SeverityIsWorstExactly | logwatch.go:200-218 | in every reachable buffer an entry shows the worst severity of everything fed for its key if and only if no entry loaded into it outranks all its events and the operation that inserted it |
| Refinement.LoadedErrorIsHidden | logwatch.go:200-218 | a day file that holds one key twice: an error loaded after a warning stays hidden behind it |
| BufferRuns.Conservation | logwatch.go:147-264 | the counts in the buffer plus the counts ever dropped equal what was fed: one for each event, the normalised count for each loaded entry |
| BufferRuns.LengthBound | logwatch.go:190-264 | over every run the length is at most maxSize plus the event insertions (fewer than 64) and the load insertions since the last prune |
| BufferRuns.MemoryBound | logwatch_bench_test.go:72-79 | memory is bounded by dimensions: at most (ceil(W/900)+1) times the number of distinct (title, source) pairs, however many operations come in a span of W seconds |
| BufferRuns.LastSeenNeverZero | logwatch.go:147-235 | if nothing fed carries the zero time, no entry ever shows it as its last sighting |
| BufferRuns.CountPositive | logwatch.go:168-204 | the count of an entry is at least one in every reachable buffer |
| ArrivalOrder.OrderIrrelevant | logwatch_bench_test.go:169-214 | any two orders of the same events, at any instants, lead to the same keys with the same counts, last sightings and severity ranks, as long as prunes drop nothing |
| ArrivalOrder.OrderIrrelevantFor | logwatch_bench_test.go:169-214 | entry by entry: each entry of one buffer has one of the other with the same title, source and bucket, the same count and last sighting, and the same severity as far as that is error, warn or info |
| ArrivalOrder.AddAllPermuted | logwatch.go:147-195 | what is known of each key does not depend on the order of the events |
| ArrivalOrder.FittingDropsNothing | logwatch.go:239-264 | a condition on the events alone under which prunes drop nothing: all within maxAge of every instant of the run, and at most maxSize keys |
| Queries.WindowsConcatenate | logwatch.go:303-314 | the answers for adjoining windows concatenate to the answer for the whole window |
| Queries.DaysAreTheRange | logwatch.go:303-314 | the answers for consecutive days concatenate to the filter over all of them |
| Queries.ShorterWindowIsSuffix | logwatch.go:291-299 | the answer for a shorter look-back is a suffix of that for a longer one |
| Reload.ReloadReproducesDays | logwatch.go:741-781 | loading day lists whose keys are apart, in any order of days, merges nothing; every day of the new buffer is the list it came from, and every other day is empty |
| Reload.KeysApartSinceEpoch | logwatch.go:81-88 | for entries from the epoch on the keys of different days are apart |
| Reload.ZeroTimeIsLost | logwatch.go:204-218 | two loaded entries around the zero time merge into one that a further reload would change, even if its day were saved in full |
| DailySaves.RestartDays | logwatch.go:741-781 | a restart brings back of each unexpired day what its own file says, normalised, and nothing of any other day |
| DailySaves.RestartAfterSave | logwatch.go:701-781 | a save writes today only: a restart after it brings the buffer back if and only if every entry is canonical and unexpired, every other unexpired day was on disk as it is in the buffer, and no stale file of today is left when there is nothing of today to save |
| DailySaves.LoadableSinceEpoch | logwatch.go:741-781 | from the epoch on the own files are always fit for loading |
| DailySaves.UnsavedDayIsLost | logwatch.go:713-733 | two complete and fresh entries of successive days, saved on the second day: a restart brings back the second alone |
| SaveRuns.RunOk | logwatch.go:701-781 | over every run of feeds, saves and restarts the buffer stays well formed and the own files fit for loading |
| SaveRuns.FileIsLastSave | logwatch.go:713-733 | over every such run the own file of a day is that day of the buffer as of the last save made on it with something of it to save, until it expires |
| SaveRuns.RestartBringsBackLastSave | logwatch.go:701-781 | a restart at the end of any run brings back of each unexpired day exactly what its last save stored |
| SaveRuns.NeverSavedNeverBack | logwatch.go:713-733 | a day that was never saved never comes back |
| DayChanges.FedDay | logwatch.go:147-235 | an operation fed changes its own day alone, as if the buffer held nothing else |
| DayChanges.KeptDay | logwatch.go:239-264 | a prune leaves a day as it is or makes it shorter |
| DayChanges.DayUnchangedExactly | logwatch.go:147-264 | over every run of operations that does not both feed and drop something of a day, the day is unchanged if and only if it did neither |
| DayChanges.BufferFollowsFeeds | logwatch.go:701-737 | between restarts the buffer is what the feeds make of it, whatever is saved in between |
| DayChanges.ComesBackExactly | logwatch.go:701-781 | over every run a saved, unexpired day comes back from a restart as its last save stored it; it is as just before the restart if and only if since the buffer was last rebuilt nothing of it was inserted, merged or dropped, unless both a feed and a drop happened |
| ChangesCancel.FedAndDropped | logwatch.go:188-264 | when both happen the changes can cancel out: a run from an empty host with the limits of the program in which a day is saved, an event of it just too old to stay is later inserted and dropped by the prune it triggers, and a restart brings the day back as it was |
| DayTotals.DayConservation | logwatch.go:147-264 | counts are conserved day by day over every run: what the buffer holds of a day and what prunes dropped of it add up to what was there and what was fed of it |
| DayTotals.NothingLost | logwatch.go:239-264 | where no prune changes a day, nothing of it is lost |
| DayTotals.TotalsSinceRestart | logwatch.go:701-781 | over every run, since a restart a day counts for what its own unexpired file said and everything fed of it, less what prunes dropped |
| DayTotals.CountsComeBackExactly | logwatch.go:701-781 | over every run a saved, unexpired day comes back with the counts it had just before if and only if since the buffer was last rebuilt as much of it was fed as was dropped |
| SaveRuns.HostIsRun | logwatch.go:378-388 | over every run of feeds, saves and restarts the buffer is what some run of events and loads makes of the empty one, so all that is proved of such runs holds after restarts |
| Lines.SplitJoins | logwatch.go:643 | the pieces of a split hold no newline and join to the original text |
| Lines.ReadOn | logwatch.go:640-648 | carrying the partial line over a read boundary sees the same lines as reading everything at once |
| Lines.Deliver | logwatch.go:636-656 | one read delivers, at a strictly increasing sequence of indices, the trimmed lines it completes, exactly those that are not empty once trimmed, and keeps the text after the last newline |
| Lines.Tail | logwatch.go:616-660 | for every way of cutting a stream into reads: the lines delivered are the trimmed ones at a strictly increasing sequence of indices into the complete lines of the whole stream, exactly those that are not empty once trimmed, and the partial line is the text after the last newline |
| Lines.FlatIs | logwatch.go:624-640 | the whole stream is the reads one after the other |
| Lines.ScanSeesSuffix | logwatch.go:425-462 | the lines looked at after seeking to the last 64 KB are a suffix of the lines of the whole file: all of them, or those after the line holding the byte before |
| LogWatchers.LogWatcher.SaveLogs | logwatch.go:701-737 | today's file becomes the entries of today, unless there are none; the buffer does not change |
| LogWatchers.LogWatcher.ReadDay | logwatch.go:757-776 | an expired file is removed, an unreadable or foreign one is skipped, any other is read |
| LogWatchers.LogWatcher.LoadDay | logwatch.go:757-779 | one file is fed to the buffer entry by entry |
| LogWatchers.LogWatcher.LoadLogs | logwatch.go:741-781 | reads the directory in the order of its listing, removes expired files, and feeds every own file |
| LogWatchers.LogWatcher.ScanLine | logwatch.go:465-478 | a line counts if it is dated, not before the cutoff and matches a pattern |
| LogWatchers.LogWatcher.ScanFile | logwatch.go:431-480 | feeds the matching lines of the tail in order and returns their number |
| LogWatchers.LogWatcher.ScanFiles | logwatch.go:416-419 | feeds the files one after the other, each matched as its own source, and adds up their counts |
| LogWatchers.LogWatcher.ScanCutoff | logwatch.go:409-415 | the cutoff is at least a day back and a second past every sighting, and it is one of those |
| LogWatchers.LogWatcher.ScanRecent | logwatch.go:408-423 | a start-up scan feeds exactly the matching lines of every file from that cutoff on, and saves only if it added something |
| LogWatchers.LatestSeenIs | logwatch.go:319-329 | the latest sighting is that of some entry, or the zero time, and no entry was seen later |
| LogWatchers.ScanCountsNothingTwice | logwatch.go:408-423 | over every run: no event a start-up scan feeds has a time at or before the sighting of any live operation of the buffer it started from |
| LogWatchers.LogWatcher.Feed | logwatch.go:567-577 | one event is fed, and every tenth saves the entries of today |
| LogWatchers.LogWatcher.MatchLine | logwatch.go:664-680 | a matching line of the tail is one event dated by its arrival, every tenth of which saves today |
| LogWatchers.LogWatcher.RecordCheckResult | logwatch.go:547-577 | a bad check result becomes one event with the component as title, and every tenth event fed saves today; any other result changes nothing |
| LogWatchers.FileEventsAfter | logwatch.go:465-478 | a scan feeds nothing from before its cutoff |
| LogWatchers.LineEventsAt | logwatch.go:465-478 | the events of a scan are those of exactly the lines that are not empty, dated, not before the cutoff and matched, in order, each dated by its line |
| LogWatchers.FileEventsAre | logwatch.go:416-419 | the files are scanned one after the other, each as its own source |
| LogWatchers.RecordIs | logwatch.go:547-572 | exactly warn and critical results become events: critical an error, warn a warning, with the component as title, source check, the message as line, and the time of the check, or of the recording if that is unknown |
| LogWatchers.RecordShows | logwatch.go:547-572 | once a bad result is fed, and before any prune, the buffer has an entry of its component and source check, which shows error if the result is critical |
| LogWatchers.ForeignIgnored | logwatch.go:771-776 | a file of another machine counts as one that cannot be read |
| LogWatchers.OwnIsRead | logwatch.go:757-779 | an own file is read in full exactly when it is not older than the cutoff |
| LogWatchers.SavedOk | logwatch.go:701-737 | saving keeps every own file well formed and within its day |
| LogWatchers.RestartReadsBack | logwatch.go:701-781 | after a restart each day of the buffer is the list that was saved for it |
| Components.PrevIsLast | scheduler.go:288-315 | the remembered status is that of the last result |
| Components.AlertsAreTransitions | scheduler.go:288-315 | the alerts of a component are exactly the changes of its status, the first result counting as a change only when bad |
| Components.FirstAlert | scheduler.go:288-296 | the first result of a component raises an alert exactly when it is warn or critical |
| Components.TransitionsChain | scheduler.go:288-315 | alerts are the status stream without repeats, each naming the status of the one before, and the last change is the last status |
| Components.RunStartIsStart | scheduler.go:282-287 | the start of an unbroken critical run: everything from it on is critical, the result before it is not |
| Components.SinceIsRunStart | scheduler.go:282-314 | a component is tracked as critical exactly while its last result is critical, since the first result of that run |
| Components.WorstIsMaximal | scheduler.go:87-100 | the worst status ranks at least as high as all and is one of them |
| Components.WorstNamed | scheduler.go:87-100 | by name: critical if there is one, else warn if there is one, else ok if there is one, else unknown |
| WeekHistory.HistoryIsWorst | scheduler.go:106-139 | over every stream in time order: at most 7 days, dates strictly increasing, none unknown, and every day shows the worst status since it began or since its last quick recovery |
| WeekHistory.DayByName | scheduler.go:87-139 | over every stream in time order a tracked day shows critical if and only if a critical counts for it, warn if and only if no critical and some warn does, ok if and only if only ok does, unknown if and only if nothing does |
| WeekHistory.OtherDaysFixed | scheduler.go:106-139 | a result never changes what another day shows |
| WeekHistory.RecordDays | scheduler.go:120-139 | recording a status worsens today and leaves every other tracked day alone |
| WeekHistory.DowngradeDays | scheduler.go:106-116 | a downgrade turns a critical today into ok and leaves everything else alone |
| WeekHistory.WeekIsTracked | scheduler.go:127-132 | seven kept days always reach back over the last seven dates |
| WeekHistory.ViewIsWorst | scheduler.go:143-171 | each of the seven days shown is the worst of what counts for it |
| WeekHistory.WeekByName | scheduler.go:143-171 | the week shown holds the last seven dates in order, each with that status by name |
| QuickRecoveries.AfterLastQuickIs | scheduler.go:299-307 | the cut is one past the last quick recovery of the day, a critical-to-ok step within 10 minutes of the start of its outage |
| QuickRecoveries.CountingIs | scheduler.go:106-116 | what counts for a day is everything known of it, or ok and what follows its last quick recovery |
| QuickRecoveries.ShowsWorstExactly | scheduler.go:106-139 | a tracked day shows the worst of everything known of it if and only if it had no quick recovery, or nothing before its last one ranked higher than the worse of ok and what follows |
| QuickRecoveries.LongOutageForgotten | scheduler.go:299-307 | critical for 20 minutes and later for 5: the day ends up ok |
| QuickRecoveries.TenMinutes | scheduler.go:20-24 | an outage of ten minutes is forgotten, and one that is any longer is not |
| Schedulers.Scheduler.constructor | scheduler.go:46-74 | a scheduler starts with the history read from disk and nothing else |
| Schedulers.Scheduler.Open | scheduler.go:127-132 | opens today at the end, keeping the newest seven days |
| Schedulers.Scheduler.UpdateHistory | scheduler.go:120-139 | the history of that one component is the old one with the status recorded, all others unchanged; by name, a known status makes the entry of today, which is the last one, the worse of what it was and the new status |
| Schedulers.Scheduler.DowngradeHistory | scheduler.go:106-116 | the first critical entry of today becomes ok, nothing else changes |
| Schedulers.Scheduler.ProcessResult | scheduler.go:281-316 | the whole new state of the component and the alert raised, no other component touched |
| Schedulers.Scheduler.TakeResult | scheduler.go:233-241 | one result, recorded and then processed |
| Schedulers.Scheduler.TakeBatch | scheduler.go:233-241 | the results of one checker in order, with their alerts and the bad ones |
| Schedulers.Scheduler.Collect | scheduler.go:229-243 | the loop over all checkers: results by name, new state, alerts and bad results |
| Schedulers.Scheduler.Pad | scheduler.go:155-168 | fills the seven dates with the recorded statuses or unknown |
| Schedulers.Scheduler.GetHistory | scheduler.go:143-171 | the padded week of every component |
| Schedulers.RunConcat | scheduler.go:229-243 | results taken in two portions give the same state, alerts and records as taken at once |
| Schedulers.BadAt | scheduler.go:233-237 | the results recorded are exactly the warn and critical ones, in order |
| Schedulers.FlatIs | scheduler.go:229-243 | the results of a cycle are those of its checkers, one checker after the other |
| Schedulers.ResultsOfLast | scheduler.go:229-232 | each name has the results of its last batch |
| Schedulers.ResultsElsewhere | scheduler.go:229-232 | the results of a name without a batch stay |
| Streams.Projection | scheduler.go:229-316 | what happens to a component, and its alerts, depend on its own results alone |
| Streams.EveryComponent | scheduler.go:281-316 | for every component and every interleaving in time order: alerts are the status changes, the last status is remembered, critical runs are tracked from their start, and each day shows the worst that counts |
| Streams.EveryWeekByName | scheduler.go:87-171 | for every component and every interleaving in time order: each of the seven days shown is by name the worst that counts for it among the results of that component |
| Cycles.RunCycle | scheduler.go:190-267 | one cycle: the collected results and state, the alerts to send, the bad results fed to the log watcher and today saved in the history |
| Cycles.RecordAll | scheduler.go:251-260 | the bad results are fed to the log watcher in order, each counting towards the next save |
| Cycles.FeedAllBuffer | scheduler.go:251-260 | those saves leave the buffer as feeding alone would |
| Cycles.CycleRecords | scheduler.go:233-260 | a cycle records its bad results and nothing else, in the order in which they were collected |
| Cycles.EveryTenthSaves | logwatch.go:573-576 | every tenth event fed saves today, counted across calls, and no other does |
| Cycles.CycleConfluent | scheduler.go:190-276 | whatever order the checkers finish in, a cycle leads to the same results, statuses, critical runs and history, and the same alerts for each component |
| Cycles.CycleRecordsConfluent | scheduler.go:251-260 | and, while prunes drop nothing, to the same aggregates in the log buffer |
| HistoryStores.HistoryStore.FindToday | history.go:159-166 | the first known status of today |
| HistoryStores.HistoryStore.Save | history.go:151-192 | today's file becomes the known statuses of today; with none nothing is written |
| HistoryStores.SavedIs | history.go:151-192 | a save writes the file of today under this machine, with every component that has a known status today and that status, and leaves the others; while there is none it writes nothing |
| HistoryStores.FirstKnownIs | history.go:159-166 | the status saved is that of the first entry of the day that is known |
| HistoryStores.HistoryStore.AppendFile | history.go:123-128 | one file adds one day to each component it names |
| HistoryStores.HistoryStore.Collect | history.go:95-129 | reads the listing in order, removing expired files and skipping unreadable and foreign ones |
| HistoryStores.HistoryStore.Load | history.go:85-139 | the lists of all components sorted by date, and the expired files gone |
| Restarts.LoadedDays | history.go:85-139 | loaded days are in order and show for each listed unexpired day what its own file says |
| HistoryStores.ForeignIgnored | history.go:118-121 | a file of another machine counts as one that cannot be read |
| Restarts.CycleInStep | scheduler.go:262-267 | a cycle with its save keeps the week on disk equal to the week in memory |
| Restarts.RestartInStep | history.go:85-139 | and so does a restart |
| Restarts.AlwaysInStep | scheduler.go:262-267 | over every run of cycles and restarts the week on disk is the week in memory |
| Restarts.BootInStep | scheduler.go:66-71 | a host that boots on existing files, none of them from the future, starts in step |
| Restarts.RestartKeepsTheWeek | history.go:85-192 | after any run a restart shows the same seven days for every component with a record in the window, and no other component |
| Syncs.TilingAt | sync.go:215-221 | chunk i starts i days into the window and ends a day later or at the end of the window; it exists exactly when its start lies in the window |
| Syncs.TilingCount | sync.go:215-221 | there are ceil((now-from)/24h) chunks |
| Syncs.TilingCovers | sync.go:215-221 | the chunks are non-empty, at most a day long, meet without gap or overlap, and cover the window exactly |
| Syncs.SevenChunks | sync.go:205-221 | a window has at most seven chunks |
| Syncs.StopsOnce | sync.go:217-239 | how many chunks run is determined: all, or up to the first after which the caller is cancelled |
| Syncs.FailedAreListed | sync.go:223-235 | the failures are listed in order and are exactly the chunks that failed |
| Syncs.QueriesTile | sync.go:215-221 | for any number of chunks run, what is asked of the journal tiles the window in whole seconds |
| Syncs.ParsedAt | sync.go:337-344 | the events fed are those of exactly the lines that were parsed, in order |
| Syncs.CountersAddUp | sync.go:222-305 | failures <= chunks <= queries <= 2 * chunks, and events added <= lines parsed |
| Syncs.TallyIsRight | sync.go:217-239 | counting chunk by chunk gives the totals over all chunks run, and the buffer was fed their events in order |
| Syncs.Syncer.StreamJournal | sync.go:317-368 | every parsed line is fed as it comes; lines and events are counted |
| Syncs.Syncer.SyncChunk | sync.go:266-309 | the userspace query asks from the second of the start of the chunk to that of its end, the kernel query for the same span, and it runs exactly when the userspace query succeeded; counters, failure and buffer follow |
| Syncs.Syncer.CountChunk | sync.go:217-235 | one chunk counted in |
| Syncs.Syncer.RunChunks | sync.go:215-239 | the chunk loop: how many chunks run, what they add up to, and what the buffer was fed |
| Syncs.Syncer.Sync | sync.go:184-258 | a call is refused exactly when there is no journal or a run is under way, and a refusal changes nothing; otherwise the window from the last sync or seven days back, at most seven chunks, the counters, the buffer, and the published result, with the time of the last sync equal to its completion; the queries tile the window: the userspace ones, one for each chunk run, start at the second of its start, each where the one before ended, the last at the second of its end once all chunks ran, and a kernel query for the same span follows each that did not fail |
| Resyncs.NewLogWatcher | logwatch.go:372-388 | a new watcher holds exactly what the own unexpired files say |
| Resyncs.StartLogSystem | main.go:395-430 | start-up reads the saved days back and runs the first sync, whose window is the last seven days whatever was synced before; then every day counts for what its own file says and what the journal says, less what prunes dropped meanwhile |
| Resyncs.StartedTotals | sync.go:205-239 | that account, for any events fed after a restart |
| Resyncs.CountsJournalExactly | sync.go:205-239 | while prunes drop nothing of a day, it counts exactly what the journal says if and only if its own file has expired, or is absent or empty |
| Resyncs.SyncedTwice | sync.go:205-209 | a host that synced, saved, was restarted and synced again counts of the day of the save what both syncs delivered, less what was dropped |
| Resyncs.CountedTwice | sync.go:184-258 | the program run that way on a journal with a single event, which answers every chunk from within the window: the event is counted twice |
| SingleFlight.NextKeepsInv | sync.go:184-258 | the invariant of the protocol is kept by every atomic step of any caller |
| SingleFlight.TraceKeepsInv | sync.go:184-258 | so it holds throughout every interleaving of any number of callers |
| SingleFlight.AtMostOneInside | sync.go:189-204 | exactly the holder of the lock is past TryLock, and inFlight is set only while the lock is held |
| SingleFlight.PublishedTogether | sync.go:253-257 | last result and time of the last sync are published in one step, the time being the completion of the result |
| SingleFlight.WindowsFollow | sync.go:205-209 | under a clock that never goes back, each run's window starts no earlier than every earlier run completed |
| SingleFlight.WindowsMeetExactly | sync.go:205-255 | successive windows meet if and only if the earlier run took no time and its window ended at most seven days before the later one does; otherwise there is a gap |
| SingleFlight.HolderCanStep | sync.go:191-204 | in every reachable state the holder of the lock can take its next step |
| SingleFlight.HolderAdvances | sync.go:191-204 | every such step brings the release of the lock nearer and no other caller's event delays it |
| SingleFlight.CallRuns | sync.go:184-258 | while the lock is free a caller can take its ten steps one after the other, and publishes the window from the last sync or seven days back to now |
| SingleFlight.Call | sync.go:184-258 | one call of the syncer class has the effect of exactly those ten steps of the protocol |
| Metrics.MetricsBuffer.constructor | metrics.go:36-42 | a buffer starts with the newest 20160 stored points of the last seven days |
| Metrics.MetricsBuffer.Push | metrics.go:45-63 | the buffer always holds the newest 20160 of everything loaded and then pushed; every 20th push stores today's points |
| Metrics.MetricsBuffer.SaveToday | metrics.go:120-159 | today's file becomes the points since midnight, unless there are none |
| Metrics.MetricsBuffer.Filter | metrics.go:120-129 | the points at or after a time, in order |
| Metrics.MetricsBuffer.Load | metrics.go:161-206 | own readable files, filtered by age, sorted by time, cut to the newest 20160 |
| Metrics.MetricsBuffer.Since | metrics.go:67-94 | everything from the first point at or after the cutoff on, as it is when it fits into maxPoints, else thinned out to exactly maxPoints |
| Metrics.MetricsBuffer.Get | metrics.go:97-117 | the whole buffer, as it is when it fits into maxPoints, else thinned out to exactly maxPoints |
| Metrics.MetricsBuffer.Thin | metrics.go:82-93 | the sampling loop with its real-valued step picks the points at indices floor(i*n/m) |
| Metrics.StepIsIndex | metrics.go:85-92 | in exact arithmetic i*(n/m) rounded down is floor(i*n/m) |
| Metrics.SamplesAreEven | metrics.go:85-92 | the sampled indices start at 0, strictly increase, stay in range, and are floor(n/m) or ceil(n/m) apart |
| Metrics.WindowHasSample | metrics.go:85-92 | of any ceil(n/m) consecutive indices at least one is sampled |
| Metrics.ThinnedCovers | metrics.go:80-93 | thinning leaves exactly maxPoints points and one of every ceil(n/m) consecutive ones |
| Metrics.ScanIsFilter | metrics.go:71-80 | the scan for the first recent point returns exactly the recent points, for every cutoff, if and only if the times never decrease |
| Metrics.FromFirstIs | metrics.go:71-80 | the scan leaves out exactly the points before the first recent one |
| Metrics.AtLeastAt | metrics.go:120-129 | the filter keeps exactly the points at or after the cutoff, in order |
| Metrics.SortPointsIs | metrics.go:196-200 | loaded points are sorted by time, none added or lost |
| Metrics.ForeignIgnored | metrics.go:161-206 | a file of another machine counts as one that cannot be read |
| Metrics.PushStep | metrics.go:45-63 | trimming at every push equals trimming once at the end |
| MetricFiles.FileIsLastSave | metrics.go:45-159 | over every run of pushes in time order the file of a day is exactly the newest 20160 of the points of that day covered by its last save, or what it was before if there was none |
| MetricFiles.LastSaveIs | metrics.go:53-62 | that save is the last push that is a multiple of 20 and fell on the day |
| MetricFiles.CompleteExactly | metrics.go:45-159 | the file of a day is complete if and only if no reading of the day came after its last save and, if there was a save, the day has no more points than the buffer holds; at most 19 readings come after it |
| MetricFiles.AtMost19Unsaved | metrics.go:53-62 | the readings of a day after its last save are at most 19, and while the day lasts at most the pushes since the last save |
| MetricFiles.LastReadingsAreLost | metrics.go:45-63 | one reading late on a day and one on the next: nothing of the first day ever reaches the disk |
| MetricFiles.FilesStayInOrder | metrics.go:120-159 | files only ever hold points of their own day, in order of time |
| MetricFiles.RestartReadsBack | metrics.go:161-206 | a restart brings back of each day the newest of what its file holds from the cutoff on, as much as the points of later days leave room for among 20160 |
| MetricFiles.RestartBringsBackLastSave | metrics.go:45-206 | after any run of pushes a restart brings back of each day of the window what its last save stored, as much as later days leave room for |
| MetricRuns.FileIsLastSaveOfRun | metrics.go:45-206 | over every run of pushes and restarts the file of a day is that day of the buffer as of the last save made on it |
| MetricRuns.RestartReadsLastSave | metrics.go:45-206 | and each further restart brings back exactly that, cut by age and by the room that later days leave |
| Nginx.ParseNginxDomains | nginx_domains.go:80-140 | the line loop computes the fold of the scanner step over the trimmed lines and collects the domains of its blocks |
| NginxLines.ParseConfiguration | nginx_domains.go:80-183 | end to end, on the lines as they stand in the file: for every tree of blocks, whatever white space stands around its lines, the domains returned are the valid names of the server blocks read with a TLS listen, each once, in order of first appearance, and a name is returned if and only if such a block bears it and it is valid |
| NginxLines.TrimIs | nginx_domains.go:88 | what is trimmed of a line is exactly the white space around it |
| NginxLines.WhiteSpace | nginx_domains.go:88 | blanks and tabs are white space, letters, digits and punctuation are not |
| NginxLines.IndentedExample | nginx_domains.go:80-140 | a TLS server block indented with blanks and a tab is found |
| NginxDomains.ValidExactly | nginx_domains.go:164-183 | a valid name is one with a dot that is no address and does not start with a wildcard; the placeholders have no dot |
| Text.ContainsAt | nginx_domains.go:114 | the substring test finds every place |
| Nginx.CollectNames | nginx_domains.go:150-159 | the names of one block, each valid one added unless seen |
| Nginx.CollectSSLDomains | nginx_domains.go:143-162 | the first occurrences of the valid names of the blocks with a TLS listen |
| Nginx.UniqueMembers | nginx_domains.go:144-162 | deduplication keeps exactly the names that occur |
| Nginx.UniqueOrder | nginx_domains.go:144-162 | each once, in the order of first appearance |
| NginxTree.ListenIsSsl | nginx_domains.go:111-117 | a listen line counts as TLS exactly when one of its arguments, or the comment after it, contains 443 or ssl |
| NginxTree.NamesAreWords | nginx_domains.go:120-124 | a server_name line yields exactly its arguments, whatever the spacing |
| NginxTree.Inside | nginx_domains.go:87-132 | inside a server block, lines at any depth of nesting only add to that block |
| NginxTree.Outside | nginx_domains.go:87-132 | outside, any tree of blocks adds exactly its server blocks, in order, and leaves the depth as it was |
| NginxComments.NamesReadExactly | nginx_domains.go:120-124 | a server_name line is read as its arguments if and only if nothing, not even a comment, follows its semicolon |
| NginxComments.FoundCommented | nginx_domains.go:80-162 | a TLS server block whose names have a comment after them is found under the names read together with the comment |
| NginxComments.CommentLosesName | nginx_domains.go:120-124 | with server_name a.b; # x the scanner returns the domain "a.b;" and not a.b |
| NginxTree.ScanOneLine | nginx_domains.go:103-132 | a server block written on one line is closed as soon as it is opened, so whatever it lists goes unread |
| NginxTree.ScanHead | nginx_domains.go:103-109 | the word server without a brace on its line starts no block |
| NginxDomains.ScannerIsRight | nginx_domains.go:80-162 | for every tree of blocks, comments, one directive, header or closer on a line, one-line server blocks, and server blocks with the brace on the next line, the result is the valid names of the multi-line server blocks with a TLS listen and their brace on the first line, each once, in order of first appearance; TLS means that some listen argument contains 443 or ssl |
| NginxDomains.FoundExactly | nginx_domains.go:80-183 | a name is returned if and only if it is a valid domain and some multi-line server block with its brace on the first line bears it and has a listen argument that contains 443 or ssl |
| NginxDomains.CompleteExactly | nginx_domains.go:80-183 | the scanner finds all domains of server blocks with a listen argument that contains 443 or ssl, and nothing else, if and only if every valid name of such a block on one line, or with its brace on the next line, is also borne by one that the scanner reads |
| NginxDomains.DomainMissed | nginx_domains.go:103-132 | server { listen 443; server_name a.b; } on one line: a.b is served with TLS and never found |
| NginxDomains.SplitServerMissed | nginx_domains.go:103-109 | the same block with its brace on the line after the word server: a.b is never found either |

## Left out

- Concurrency inside the buffer, the scheduler and the metrics ring: their methods run under a mutex and are atomic here; only the single flight of the syncer is modelled step by step.
- The clock: one instant stands for all readings within one buffer operation, one result, one save and one load; a check cycle has one instant.
- Integers: Go's 64-bit counts, seconds and durations are unbounded integers here.
- Floating point: the sampler's step is an exact real, so rounding of float64 is not captured.
- sort.Search is a method that finds the position its predicate determines, and sort.Slice is an insertion sort; how the library orders entries that compare equal is not captured.
- Input, output and JSON: a file that cannot be read or decoded is the value Unreadable; failing writes, the temporary file and the rename, permissions and directory creation are not modelled.
- Syncs.Syncer.StreamJournal: journalctl itself, its time limits, line limits and output decoding are left out; a query is an arbitrary sequence of rejected or parsed lines that ends well or badly.
- LogWatchers.LogWatcher.ScanLine: trimming, reading a timestamp and matching patterns are arbitrary functions passed in; so are line truncation and the entry a pattern builds.
- LogWatchers.LogWatcher.ScanFile: a file that cannot be opened or read, which the source skips, is the empty content.
- Lines.Tail: file rotation, the ticker and the retry loop around the tail are left out; it takes the reads as they come.
- Cycles.RunCycle: running the checkers, their time limits and durations, sending the alerts, and the reading pushed to the metrics ring are left out.
- Metrics.MetricsBuffer.Push: a ring without a store, which neither loads nor saves, is left out.
- Nginx.ParseNginxDomains: reading the configuration files, the line length limit of the scanner and the parsing of IP addresses are left out; what counts as an address is a function passed in.
- NginxDomains.ScannerIsRight: outside the trees are comments that the scanner reads as arguments (after server_name always, after listen when only the comment names 443 or ssl), two directives on one line, a server_name continued on the next line (whose later names are lost), quoted text that holds braces, semicolons or a line break, and server blocks inside server blocks.
- Resyncs.StartLogSystem: the start-up scan of the log files and the tails, which run beside the first sync, and its time limit are left out; DayTotals.TotalsSinceRestart accounts for feeds in any order.
- SaveRuns.RunOk: speaks of entries dated since the epoch, because earlier buckets can span two days, so that two day files can hold the same key.
- The checkers, service detection, alert delivery, the HTTP server, configuration, translations and the dashboard: plumbing around the core.
- OverallStatus, CriticalChecksPassing, GetStatus and the other getters: each says what its body says.
- Memory effects: garbage collection, slices cleared for it, and capacity.
- The directory listing holds only files of the kind being read, one for each day. The log and metrics files skip other names; the history opens every .json file, so also those of the log and the metrics, and finds no components in them.
