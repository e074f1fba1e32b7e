# GetOffline: coordination, pipeline and accounting, verified

GetOffline downloads podcasts and videos, converts them, transcribes them, screens them and serves them. Its
workers run in many containers and share one database and one media directory. This project models the parts
whose correctness depends on interleavings, on the order of effects, or on two computations agreeing, and
proves what those parts are for.

`dafny verify dfyconfig.toml` checks everything.

## What is modelled

**Coordination.** `SlotStore` is the abstract table of CPU-slot leases: one function gives the effect of each
backend call. `SlotBackends` holds the two implementations as classes (a dictionary with a purge loop, a table
of rows), each method proved equal to that function. `SlotProtocol` runs any number of workers on it, with
heartbeat threads, crashes and a free clock. `TranscodeLock` is the lease lock around an FFmpeg target. `Jobs`
is the job life cycle under duplicate messages, with the table as a class. `TranscodeWorkers` puts jobs and
lock together. `RecurringJobs` turns schedules into jobs.

**Rows and files.** `TranscodeFiles` is FFmpeg post-processing: a row moves to the converted file before the
inputs go, with any number of executions and a crash possible between any two effects. `ExplicitScreening` is
the path of a video that must be screened before its row is written, on both routes; media files have versions, and
a transcript remembers which one it was made from. In both modules the handler itself is also a method, and its
effects are proved to be a run of the shared system. `RecordedItems` is the check that keeps a filtered item from
being fetched again.

**Subtitles and transcripts.** `SrtTime` (stamps), `SrtFile` (files, shifting, loading), `WrittenCues` (what a
written or shifted file says of each segment), `LooseSubtitles` (loading other people's files), `Transcription`
(chunks).

**Accounting.** `MediaRange` (range requests), `Library` (next item, pages), `Multipart` (request bodies),
`MultipartReader` (a reader written from the standards, which gets back what was sent), `PdfLines` (lines and
sentences). `Text` and `Sets` hold shared functions and facts.

Conventions. A database transaction is one step. Where the code reads the clock twice in a transaction the
step takes both readings, the second not before the first. All processes read one clock that never goes
back; times are `real` or microseconds. A run is a sequence of actions, each enabled where it is
taken; a result about runs holds for every sequence. Results whose names say `Iff` give an exact condition.

## What turned out not to hold

Each of these has a lemma with a concrete input or run, and a result that says exactly when the property holds, or
the theorem under the condition that excludes the case.

- A handler that misses its heartbeats keeps running without a slot, so more handlers than slots can execute
  (`SlotProtocol.LateHeartbeatsOverAdmit`; an executing worker is covered exactly while its renewals were timely,
  `SlotProtocol.ExecutingIsCoveredIff`).
- A waiter whose wait lease has lapsed keeps asking, but nothing renews the lease: FFmpeg work loses its priority
  until it is admitted (`SlotProtocol.LapsedWaiterHasNoPriority`).
- The two slot backends count differently when a stored type is not spelt canonically
  (`SlotStore.BackendsDifferOnSpacedType`, `SlotStore.BackendsAgreeIff`).
- A stale job is reset between two claims, but not always between two handler starts
  (`Jobs.TwoStartsAfterOneReset`): a reset separates the starts exactly when it finds no execution stalled between
  its claim and its handler (`Jobs.ResetSeparatesStartsIff`, `Jobs.ResetBetweenStarts`).
- Conversions of one row under different lock keys can leave the row without its file
  (`TranscodeFiles.TwoLocksLoseTheFile`), exactly when one deletes what the other writes
  (`TranscodeFiles.FileIsLostIffCrossed`); so can a repeated download that saves the row during the clean-up
  (`TranscodeFiles.RegisteringDuringCleanUpLosesTheFile`), exactly when its file is one of those being deleted
  (`TranscodeFiles.RegisteredFileIsLostIff`).
- Two items whose names agree up to the first ".f", which a title may contain, are merged into one file
  (`TranscodeFiles.TwoItemsShareATarget`, `TranscodeFiles.MergedPathsMeetIff`). Converting the one again then takes
  the file that the other one's row names (`TranscodeFiles.SharedTargetLosesTheFile`); an execution takes another
  row's file exactly when it deletes it as an input (`TranscodeFiles.OtherRowLosesFileIff`).
- A duplicate conversion without a row passes both checks for duplicates, and converts again, over a file that is
  perhaps being screened, exactly while all its inputs are still there (`TranscodeFiles.DeferredDuplicateIff`).
- A missing subtitle counts as clean, and an existing one is reused whatever it was made from; the code's check
  that a subtitle is not older than its video is never reached then. So two overlapping screenings can expose a
  video that one of them has just filtered (`ExplicitScreening.MissingTranscriptExposesVideo`), a crash while writing
  lets the next execution screen a beginning only (`ExplicitScreening.TornTranscriptExposesVideo`), and one
  undisturbed execution exposes a video nobody has transcribed when a video of the same name has left its subtitle
  (`ExplicitScreening.StaleTranscriptExposesVideo`). An execution can insert an unscreened file exactly when the
  transcript it is about to read is missing, not whole, or of another file (`ExplicitScreening.UnscreenedRowIff`).
- A video written over one that was screened is exposed unscreened: by a duplicate conversion before the row is
  written (`ExplicitScreening.DuplicateConversionExposesVideo`) or by a repeated download after it
  (`ExplicitScreening.RepeatedDownloadExposesVideo`; exactly when, `ExplicitScreening.OverwritingExposesIff`).
- Screening an item again can delete the video of a row that stays DOWNLOADED: if it fails
  (`ExplicitScreening.FailedRescreeningLosesMedia`; exactly when, `ExplicitScreening.ScreeningKeepsFileIff`), or if
  the worker dies between deleting for a match and recording it (`ExplicitScreening.DyingOnMatchLosesMedia`).
- Two subtitle shifts do not always compose to their sum, because each rounds (`SrtFile.TwoSmallShiftsDiffer`);
  `SrtTime.ShiftsComposeIff` and `SrtFile.ShiftsOfCuesComposeIff` give the exact condition on the offsets'
  fractions of a millisecond. Shifting an empty file adds a line (`SrtFile.ShiftKeepsLines`).
- A range on an empty file can announce one byte that does not exist (`MediaRange.EmptyFileAnnouncesAByte`,
  `MediaRange.AnnouncedLengthIsSentIff`); an unsatisfiable range is answered with one byte instead of being refused
  (`MediaRange.UnsatisfiableRangeIsAnswered`, `MediaRange.AgreesWithStandard`).
- Nothing escapes a quotation mark in a field's key or file name, so a reader gets another key or name back, exactly
  then (`MultipartReader.PartIsReadBack`).
- The boundary of a request body is fixed, so a part that contains the delimiter breaks the cutting
  (`Multipart.BodyDecodesIff`).
- Inserting a job does not by itself keep idempotency keys unique (`Jobs.DuplicateInsertBreaksUniqueness`,
  `Jobs.InsertKeepsUniqueIff`).
- A pass over the schedules leaves one due when its `now` is ahead of the clock by a grid instant
  (`RecurringJobs.AheadOfTheClock`, `RecurringJobs.NextRunPassesNowIff`).

## Model

| member | source | states |
|---|---|---|
| SlotStore.RunningNeverExceedsCapacity | src/workers/scheduler.py:100-138 | for every sequence of calls at any times, RUNNING leases and every reported count stay within the capacity |
| SlotStore.OtherEntriesStay | src/workers/scheduler.py:60-163 | a call leaves the live entries of all other requests exactly as they are |
| SlotStore.WaitFinishDropsTheWaiter | src/workers/scheduler.py:91-98 | after giving up a wait the request is not WAITING any more and not counted; a RUNNING lease of that id stays |
| SlotStore.RenewalMovesTheExpiry | src/workers/scheduler.py:147-158 | a renewal succeeds exactly on a live lease of its kind, and then moves its expiry and nothing else |
| SlotStore.RequestsAndReleases | src/workers/scheduler.py:100-145 | a wait is WAITING and an admitted request RUNNING for one lease, a refused request changes nothing, a released lease is gone, and the reasons say which |
| SlotStore.CountsPartitionTheTable | src/workers/scheduler.py:206-219 | on canonical job types the three counts add up to the table, and each is zero exactly when there is no such request |
| SlotStore.OnlyRequestsCreateSlots | src/workers/scheduler.py:140-158 | a lease id that no wait-start or acquire mentions never appears in the table |
| SlotStore.LateHeartbeatNeverRecreates | src/workers/scheduler.py:313-324 | after a release, with any calls of others in between, a late heartbeat renews nothing and leaves no lease |
| SlotStore.LazyPurgeIsUnobservable | src/workers/scheduler.py:236-240 | stores with the same live leases answer every later call alike, wherever further purges are inserted |
| SlotStore.CanonicalRecognisersAgree | src/models/domain.py:58-62 | on canonical job types, parsing and exact comparison recognise the same requests |
| SlotStore.BackendsSimulateEachOther | src/workers/scheduler.py:50-219 | on canonical job types both backends give the same decisions, renewals, stats and tables on every call sequence |
| SlotStore.BackendsAgreeIff | src/workers/scheduler.py:206-219 | their stats agree if and only if every live waiter that parses as FFmpeg is stored exactly as `ffmpeg` |
| SlotStore.BackendsDifferOnSpacedType | src/workers/scheduler.py:206-219 | a waiter typed ` FFmpeg ` is counted by one backend only |
| SlotStore.AdmissionRule | src/workers/scheduler.py:272-305 | a request is admitted if and only if a slot is free and, unless it is FFmpeg work, no other live FFmpeg request waits |
| SlotStore.BackendsAreCautious | src/workers/scheduler.py:107-113 | neither backend takes a waiter for FFmpeg work that admission would not |
| SlotStore.FreeSlotAdmitsSomeWaiter | src/workers/scheduler.py:100-138 | on either backend, whenever a slot is free and somebody live waits, some live waiter's acquire succeeds |
| SlotBackends.InMemorySlotBackend.PurgeExpired | src/workers/scheduler.py:236-240 | the loop removes exactly the leases whose time has come |
| SlotBackends.InMemorySlotBackend.CountStats | src/workers/scheduler.py:331-352 | the reported counts are those of the abstract table |
| SlotBackends.InMemorySlotBackend.WaitStarted | src/workers/scheduler.py:242-250 | new dictionary and answer are those of the abstract step |
| SlotBackends.InMemorySlotBackend.WaitHeartbeat | src/workers/scheduler.py:252-263 | likewise; a wait lease is renewed only if it is live and WAITING |
| SlotBackends.InMemorySlotBackend.WaitFinished | src/workers/scheduler.py:265-270 | likewise; exactly the expired leases and the WAITING request of that id go |
| SlotBackends.InMemorySlotBackend.Acquire | src/workers/scheduler.py:272-305 | likewise, with decision and reason |
| SlotBackends.InMemorySlotBackend.Release | src/workers/scheduler.py:307-311 | likewise; the lease is gone |
| SlotBackends.InMemorySlotBackend.Heartbeat | src/workers/scheduler.py:313-324 | likewise; only a live RUNNING lease is renewed |
| SlotBackends.InMemorySlotBackend.Snapshot | src/workers/scheduler.py:326-329 | likewise; only expired leases go |
| SlotBackends.DatabaseSlotBackend.PurgeExpired | src/workers/scheduler.py:188-192 | the table read as a dictionary loses exactly the expired leases |
| SlotBackends.DatabaseSlotBackend.CountStats | src/workers/scheduler.py:206-219 | counting rows gives the counts of the dictionary the table stands for |
| SlotBackends.DatabaseSlotBackend.WaitStarted | src/workers/scheduler.py:63-76 | table, read as a dictionary, and answer are those of the abstract step |
| SlotBackends.DatabaseSlotBackend.WaitHeartbeat | src/workers/scheduler.py:78-89 | likewise |
| SlotBackends.DatabaseSlotBackend.WaitFinished | src/workers/scheduler.py:91-98 | likewise |
| SlotBackends.DatabaseSlotBackend.Acquire | src/workers/scheduler.py:100-138 | likewise, with decision and reason |
| SlotBackends.DatabaseSlotBackend.Release | src/workers/scheduler.py:140-145 | likewise |
| SlotBackends.DatabaseSlotBackend.Heartbeat | src/workers/scheduler.py:147-158 | likewise |
| SlotBackends.DatabaseSlotBackend.Snapshot | src/workers/scheduler.py:160-163 | likewise |
| SlotBackends.TableStats | src/workers/scheduler.py:206-219 | row counts equal dictionary counts when lease ids are unique |
| SlotBackends.WaitersAgree | src/workers/scheduler.py:107-113 | the row query for another FFmpeg waiter answers as the dictionary does |
| SlotProtocol.OthersAreOnlyPurged | src/workers/scheduler.py:60-163 | a call changes no other worker's lease except that an expired one may go |
| SlotProtocol.RunKeepsInv | src/workers/scheduler.py:391-454 | the protocol invariant holds in every reachable state |
| SlotProtocol.ExecutingIsCoveredIff | src/workers/scheduler.py:399-454 | an executing worker owns a live RUNNING lease if and only if its renewals came in time |
| SlotProtocol.AtMostCapacityExecute | src/workers/scheduler.py:399-454 | covered handlers inject into live RUNNING leases, so with timely heartbeats at most `capacity` execute; if more do, one let its lease expire |
| SlotProtocol.LateHeartbeatsOverAdmit | src/workers/scheduler.py:441-454 | a run with capacity 1 in which two handlers execute after missed heartbeats |
| SlotProtocol.FinishedStaysReleased | src/workers/scheduler.py:355-374 | once released, a worker has no lease in any later state although its heartbeat thread may still call |
| SlotProtocol.TranscriptsYieldToFfmpeg | src/workers/scheduler.py:403-439 | no other work is admitted while an FFmpeg worker waits with a timely wait lease |
| SlotProtocol.SomeWaiterWouldBeAdmitted | src/workers/scheduler.py:403-439 | on either backend, whenever a slot is free and a timely waiter exists, some waiter's acquire succeeds |
| SlotProtocol.CrashedWaiterBlocksAtMostOneLease | src/workers/scheduler.py:403-439 | a crashed FFmpeg waiter counts as waiting for at most one lease after its last renewal |
| SlotProtocol.LapsedWaiterHasNoPriority | src/workers/scheduler.py:403-439 | a waiter whose wait lease has lapsed stays out of the table, and so without priority, until it is admitted |
| SlotProtocol.AbandonedWaitIsGone | src/workers/scheduler.py:411-433 | in every state after a worker gave up waiting on an error it has no WAITING request, takes priority from nobody and is not counted |
| SlotProtocol.TimelyPollKeepsTheRequest | src/workers/scheduler.py:411-413 | a poll in time keeps the request WAITING for another lease |
| SlotProtocol.PollsBetweenDecisions | src/workers/scheduler.py:411-430 | a refused worker renews its wait lease before it asks again |
| SlotProtocol.ExecutingCanRenew | src/workers/scheduler.py:434-454 | while a handler executes, its heartbeat thread can renew a lease that has not lapsed at any time |
| SlotProtocol.AtMostOneBeatAfterLeaving | src/workers/scheduler.py:441-454 | after its handler is over a worker's heartbeat thread makes at most the one call it had decided on |
| TranscodeLock.OwnershipPassesOnlyWhenFreeOrExpired | src/workers/handlers.py:527-597 | the owner of a lock row changes if and only if an execution tries on it while it is empty, unreadable or expired, or its owner releases it |
| TranscodeLock.TryGetsInIff | src/workers/handlers.py:527-558 | a try gets in if and only if the row is empty, own, unreadable or expired; then the row is its own for five minutes, otherwise nothing changes and it tries again |
| TranscodeLock.BeatRenewsTheOwnRow | src/workers/handlers.py:569-581 | a heartbeat gives the holder of the row another five minutes and leaves any other row alone |
| TranscodeLock.ReleasedLockIsFree | src/workers/handlers.py:587-597 | once its holder has left, the next execution to try gets in at once |
| TranscodeLock.RunKeepsExpiriesNear | src/workers/handlers.py:519-597 | in every reachable state no row is kept for more than five minutes from now |
| TranscodeLock.DeadHolderBlocksAtMostOneLease | src/workers/handlers.py:519-597 | a dead execution blocks its key at most until the expiry it wrote last, at most five minutes after its death, whatever the run does |
| TranscodeLock.SuccessorIsUntouched | src/workers/handlers.py:569-597 | heartbeat and release by an execution whose lease was taken over change no row |
| TranscodeLock.OldHolderChangesNothing | src/workers/handlers.py:569-597 | after a takeover no later step of the old holder changes any row, whatever the run does in between |
| TranscodeLock.TimelyHoldersExclude | src/workers/handlers.py:519-597 | two holders of one key, both before their deadline, are the same execution |
| TranscodeLock.AtMostOneTimelyHolder | src/workers/handlers.py:519-597 | in every run with distinct owners at most one execution per key is inside before its deadline |
| TranscodeLock.TransactionsFindTheirRow | src/workers/handlers.py:509-516 | no transaction of the lock misses its row |
| TranscodeLock.SharedOwnerBreaksExclusion | src/workers/handlers.py:541-545 | a run showing that two executions with one owner name break the exclusion |
| TranscodeWorkers.RunProjects | src/workers/handlers.py:708-710 | a run of workers is a run of the job table and a run of the lock |
| TranscodeWorkers.OwnersAreDistinct | src/models/jobs.py:33-47 | owners in the lock are distinct because a conversion job has one execution |
| TranscodeWorkers.OneConversionPerTarget | src/workers/handlers.py:519-597 | whatever is duplicated or crashes, at most one conversion per target key runs before its deadline |
| Jobs.JobTable.CreateJob | src/models/jobs.py:10-30 | an active job with the same non-empty key is returned and nothing changes; otherwise one QUEUED job is added |
| Jobs.JobTable.ClaimJob | src/models/jobs.py:33-47 | exactly a QUEUED job becomes RUNNING |
| Jobs.EndedStaysEnded | src/models/jobs.py:33-56 | a job that was finished never becomes active again and is never claimed again, whatever messages arrive |
| Jobs.JobTable.MakeStaleJobQueued | src/workers/handlers.py:1623-1658 | a job goes back to QUEUED if and only if there is a timeout, it is RUNNING and it began that long ago; then only status, message and times change |
| Jobs.ResetsIff | src/workers/handlers.py:1623-1658 | the same for the shared system, where otherwise nothing changes |
| Jobs.ResetSparesFreshClaims | src/workers/handlers.py:1623-1658 | whatever happens after a claim, no reset touches the job before the timeout has passed since |
| Jobs.JobTable.ProcessDelivery | src/workers/runner.py:166-238 | a duplicate delivery changes nothing and is acknowledged; otherwise job, error and verdict follow the handler |
| Jobs.DeliveryIsARun | src/workers/runner.py:166-238 | claim, handler and outcome of the shared system leave the job as one handled delivery does |
| Jobs.SupersededJobHasFailed | src/api/services/dashboard_actions.py:336-350 | a regeneration request fails exactly the active transcript job it replaces |
| Jobs.IdentityStays | src/models/jobs.py:10-56 | in every run a job keeps its type, key and creation time, and its last change never runs ahead of the clock or back |
| Jobs.HandlerStartsAreBounded | src/workers/runner.py:166-222 | handler starts are at most the claims, claims at most one plus the resets, with a reset between any two claims |
| Jobs.ResetBetweenStarts | src/workers/runner.py:192-222 | in every run whose resets find no execution stalled before its handler there is a reset between any two handler starts of a job |
| Jobs.ResetSeparatesStartsIff | src/workers/handlers.py:1635-1658 | after a reset, two starts without another reset are possible if and only if the reset found such a stalled execution |
| Jobs.TwoStartsIff | src/workers/runner.py:192-222 | from any state, two starts of a job without a reset are possible if and only if two are pending: stalled executions, and one if the job is QUEUED |
| Jobs.OtherJobsRunOnce | src/workers/handlers.py:1612-1658 | a job whose key is not one the episode check looks for has at most one execution ever, whatever its type |
| Jobs.ConversionsRunOnce | src/workers/handlers.py:1489-1525 | in particular a conversion job, whose key is never one of those |
| Jobs.AtMostOneActivePerKey | src/models/jobs.py:10-30 | at most one job per non-empty idempotency key is QUEUED or RUNNING in every reachable state |
| Jobs.TwoStartsAfterOneReset | src/workers/runner.py:192-222 | a run in which a worker stalls past the timeout and two handlers start after the only reset |
| Jobs.InsertKeepsUniqueIff | src/models/jobs.py:10-30 | an insert keeps keys unique if and only if no active job has the key at that moment |
| Jobs.DuplicateInsertBreaksUniqueness | src/models/jobs.py:10-30 | two inserts under one key leave two active jobs |
| RecurringJobs.NextRunAfter | src/models/scheduler.py:29-35 | the catch-up loop returns the least grid instant after the due one and after the clock |
| RecurringJobs.NextRunIsLeast | src/models/scheduler.py:29-35 | the closed form is the least `due + k * interval`, `k >= 1`, after the clock |
| RecurringJobs.LeastIsUnique | src/models/scheduler.py:29-35 | there is only one such instant |
| RecurringJobs.NextRunPassesNowIff | src/models/scheduler.py:38-80 | it lies after a pass's `now` if and only if no grid instant lies between the clock and `now` |
| RecurringJobs.AheadOfTheClock | src/models/scheduler.py:38-80 | with `now` one interval ahead of the clock the schedule that has just run is due again |
| RecurringJobs.ProcessedAdvances | src/models/scheduler.py:47-80 | a processed row moves forward on its grid past the clock, or stays if it did not fire |
| RecurringJobs.ProcessedFields | src/models/scheduler.py:29-80 | a row that is disabled or not due stays; one of an unknown type is switched off; any other notes the pass and moves by whole intervals of its setting, by one if the pass is punctual |
| RecurringJobs.RunFiresIff | src/models/scheduler.py:47-78 | a transaction fires if and only if the schedule is enabled, of a known type and its time has come, and for that time |
| RecurringJobs.KnownTypesAre | src/models/domain.py:58-62 | the eight plain names of job types are known and no other |
| RecurringJobs.KnownInAnySpelling | src/models/domain.py:58-62 | capitals and white space around a job type do not matter |
| RecurringJobs.ScheduleTable.SelectDue | src/models/scheduler.py:38-47 | the first due rows in order, all of them if they fit the limit |
| RecurringJobs.ScheduleTable.RunSchedule | src/models/scheduler.py:47-78 | one transaction: re-read, disable or fire, reschedule, nothing else |
| RecurringJobs.ScheduleTable.EnqueueDue | src/models/scheduler.py:38-80 | exactly the selected rows change; none is due afterwards if the limit covers them and the clock has reached `now` |
| RecurringJobs.PassLeavesNothingDue | src/models/scheduler.py:38-80 | among other passes, settings changes and ticks, a pass that has come to every schedule due at its `now` leaves none of them due at `now` |
| RecurringJobs.StaysUndue | src/models/scheduler.py:47-80 | no step makes a schedule due again at an instant that has passed |
| RecurringJobs.EachDueInstantFiresOnce | src/models/scheduler.py:38-80 | over all passes of all processes and interval changes, the instants a schedule fires for strictly increase |
| RecurringJobs.StaysOnGrid | src/models/scheduler.py:29-80 | with unchanged settings `next_run_at` never goes back and stays on its grid, as do all instants fired for |
| RecurringJobs.SavingSettings | src/api/services/dashboard_actions.py:961-1015 | saving no minutes switches off; saving minutes keeps a future run of the same interval and puts any other one interval away; saving twice is saving once |
| TranscodeFiles.Host.TargetPath | src/workers/handlers.py:333-342 | the loop ends at the first candidate name that is free |
| TranscodeFiles.CandidatesAreDistinct | src/workers/handlers.py:333-342 | candidate names are pairwise different |
| TranscodeFiles.ConvertedName | src/workers/handlers.py:333-342 | a converted file stays beside its source, is named after it and has the extension asked for, the source's own if none |
| TranscodeFiles.FetchedFilesAreApart | src/workers/media_fetch.py:83 | two downloads never share a fetched file |
| TranscodeFiles.Host.DeleteSourceFiles | src/workers/handlers.py:242-330 | exactly the existing deletable inputs other than the target go; the list returned is theirs, each once, in order |
| TranscodeFiles.Host.Postprocess | src/workers/handlers.py:600-954 | when the handler stops early, when it converts, what row and files are then; its effects are a run of the shared system |
| TranscodeFiles.StepKeepsInv | src/workers/handlers.py:708-954 | every effect of every execution, and a crash after it, keeps the invariant of rows, files and executions |
| TranscodeFiles.RunKeepsInv | src/workers/handlers.py:708-954 | so does every run |
| TranscodeFiles.DownloadedRowsHaveTheirFile | src/workers/handlers.py:921-944 | in every reachable state a DOWNLOADED row names an existing file, if no conversion deletes the file of another row, conversions share their lock key or do not delete what the other writes, and no download is registered for a file being cleaned up |
| TranscodeFiles.OtherRowLosesFileIff | src/workers/handlers.py:921-944 | an execution on its own with its inputs there takes the file of another row if and only if that file is one of the inputs it deletes |
| TranscodeFiles.DeletedIff | src/workers/handlers.py:242-330 | clean-ups under way can take a file if and only if one of them has it among its inputs still to delete |
| TranscodeFiles.RegisteredFileIsLostIff | src/workers/handlers.py:1385-1389 | a row saved for a download can lose its file to the clean-ups under way if and only if the file is one of theirs |
| TranscodeFiles.CrossedJobsLoseTheFile | src/workers/handlers.py:1489-1512 | two conversions of one row with different lock keys, one writing what the other deletes, can always end in a row without its file |
| TranscodeFiles.FileIsLostIffCrossed | src/workers/handlers.py:1489-1512 | and they can only then: otherwise no run of the two loses the file |
| TranscodeFiles.MergedPathsMeetIff | src/workers/handlers.py:1360-1369 | two downloads of one folder get the same converted file if and only if their names agree up to the first ".f" |
| TranscodeFiles.TwoItemsShareATarget | src/workers/handlers.py:1360-1428 | two videos of different items, with rows or to be screened, whose jobs as the download worker builds them have one target |
| TranscodeFiles.SharedTargetLosesTheFile | src/workers/handlers.py:1360-1428 | a run of such jobs, one after the other, in which converting the first row again leaves the second without its file |
| TranscodeFiles.SettledStep | src/workers/handlers.py:711-724 | once the target is current, a duplicate that has a row and that explicit target changes neither rows nor files |
| TranscodeFiles.SettledForGood | src/workers/handlers.py:711-737 | and this stays so through any run of such duplicates and other work; duplicates without a row are the subject of `DeferredDuplicateIff` |
| TranscodeFiles.FinishSettles | src/workers/handlers.py:921-944 | the execution that finishes brings this about |
| TranscodeFiles.DeferredDuplicateIff | src/workers/handlers.py:711-745 | inside the lock a duplicate without a row can run FFmpeg over its target if and only if all its inputs are there; otherwise it changes neither rows nor files |
| TranscodeFiles.TwoLocksLoseTheFile | src/workers/handlers.py:1360-1428 | a run from nothing, with an audio and a video conversion of one item as the download worker builds them, that ends in a row without its file |
| TranscodeFiles.RegisteringDuringCleanUpLosesTheFile | src/workers/handlers.py:1385-1389 | a run in which a repeated download saves the row during the clean-up |
| ExplicitScreening.NothingIsExposedUnscreened | src/workers/handlers.py:2280-2445 | on both routes, with crashes, duplicates and files left by other videos, an item is DOWNLOADED only with a file whose own transcript was found clean, no unscreened file comes to be under its row, and it is FILTERED only after a match, if screenings take turns, a subtitle found is whole and of the file it lies beside, and nobody replaces a file being screened or in the library |
| ExplicitScreening.RunScreensFirst | src/workers/handlers.py:2280-2398 | the same whenever every screening reads a whole transcript of the file that is there and no file is replaced between its verdict and its row or under a row |
| ExplicitScreening.TurnsScreenOwnFiles | src/workers/subtitles.py:226-275 | under the conditions on turns every screening reads a whole transcript of the file that is there, although executions crash while writing |
| ExplicitScreening.UnscreenedRowIff | src/workers/content_filter.py:82-85 | an execution about to screen a file nobody has found clean can insert it with its next two steps if and only if the transcript is missing, not whole, or made from another file |
| ExplicitScreening.OverwritingExposesIff | src/workers/handlers.py:1360-1428 | writing a media file brings an unscreened file into the library if and only if the row names its path |
| ExplicitScreening.TornTranscriptExposesVideo | src/workers/subtitles.py:287-345 | a run in which the remains of a crashed writer are screened as the transcript |
| ExplicitScreening.StaleTranscriptExposesVideo | src/workers/subtitles.py:66-90 | a run of one undisturbed execution that screens the subtitle another video left under that name and inserts a file nobody has transcribed |
| ExplicitScreening.MissingTranscriptExposesVideo | src/workers/content_filter.py:82-85 | a run in which overlapping screenings expose a filtered video |
| ExplicitScreening.DuplicateConversionExposesVideo | src/workers/handlers.py:711-737 | a run in which a second conversion writes over the file between its verdict and its row |
| ExplicitScreening.RepeatedDownloadExposesVideo | src/workers/handlers.py:2280-2398 | a run in which a repeated download puts an unscreened file under the row |
| ExplicitScreening.FailedRescreeningLosesMedia | src/workers/handlers.py:2310-2332 | a run in which a failing second screening leaves a DOWNLOADED row without its video |
| ExplicitScreening.DyingOnMatchLosesMedia | src/workers/handlers.py:2333-2352 | a run in which a worker dies between deleting for a match and recording it |
| ExplicitScreening.ItemsKeepTheirMedia | src/workers/handlers.py:2310-2378 | whatever is screened again, a DOWNLOADED row's video exists whenever nobody acts on a match, if work goes one by one and no execution that endangers the row fails or dies acting on a match |
| ExplicitScreening.ScreeningKeepsFileIff | src/workers/handlers.py:2310-2445 | one screening takes the file of the row it finds if and only if it fails and the file is its media, a companion or an input |
| ExplicitScreening.ScreeningOutcomes | src/workers/handlers.py:2310-2398 | a match leaves a filtered row and no media, a failure no media and the old row, a clean transcript row, media and transcript; other files stay |
| ExplicitScreening.SparesOtherStems | src/workers/content_filter.py:88-106 | for stems without a dot, deleting a video spares exactly the files of other directories and other stems that are not its inputs |
| ExplicitScreening.NeighboursStay | src/workers/content_filter.py:88-106 | in every run a file that is no media, input or namesake of the items under way is still there, whatever is filtered, fails or crashes |
| ExplicitScreening.MediaLibrary.DeleteMediaArtifacts | src/workers/content_filter.py:88-106 | of the files that can be deleted exactly the media and those in its directory named after it with a dot go, and are returned |
| ExplicitScreening.MediaLibrary.ScreenBeforeInsert | src/workers/handlers.py:2280-2398 | row, files and answer are those of the outcome function |
| ExplicitScreening.MediaLibrary.GenerateDeferredScreening | src/workers/handlers.py:2401-2445 | the conversion's inputs go whatever the screening does, the screened media does not |
| ExplicitScreening.ScreenedIsARun | src/workers/handlers.py:2280-2398 | on either route the outcome function, followed by the clean-up, is what a run of the shared system does |
| RecordedItems.RecordedItemIsSeenIff | src/workers/handlers.py:1570-1580 | a new item recorded with any status, FILTERED included, is found by the next check if and only if its source has a trimmed non-empty name and a canonical type and it has a number, address or title |
| RecordedItems.NameIsKeptIff | src/workers/handlers.py:1091-1117 | a source's name is stored as it is if and only if it is trimmed and not empty |
| RecordedItems.StoredNameIs | src/workers/handlers.py:1102-1117 | a source without a name gets the one its site gave, or its type, or "GetOffline" |
| RecordedItems.TypeInAnySpelling | src/models/domain.py:58-62 | a source type is read in any spelling |
| RecordedItems.ParsedTypeIsKept | src/models/domain.py:58-62 | a source type is stored as it is if and only if it is canonical |
| RecordedItems.SeenForGood | src/workers/handlers.py:1570-1580 | an item with a number stays recorded whatever is recorded later |
| RecordedItems.RowTakesTheFirst | src/workers/handlers.py:1570-1580 | the row keeps what the check knew of the item, and where it knew nothing what the site or the download gave |
| RecordedItems.FoundByTheSitesNumber | src/workers/handlers.py:1570-1580 | an item recorded without a number is found again by the one its site gave it |
| RecordedItems.UpdateReplacesOrAdds | src/workers/handlers.py:1385-1389 | the row replaces the first one with its key, in place, or is added |
| SrtTime.FormatSrtTimestamp | src/workers/subtitles.py:102-121 | field-by-field rendering with carries equals one half-even rounding of the clamped value |
| SrtTime.ParseOfStampOf | src/workers/subtitles.py:96-99 | parsing reads hours, minutes, seconds and milliseconds exactly |
| SrtTime.ParseOfFormat | src/workers/subtitles.py:96-121 | parsing a rendered stamp differs from the clamped value by at most half a millisecond |
| SrtTime.FormatOfParse | src/workers/subtitles.py:96-121 | rendering a parsed canonical stamp gives it back |
| SrtTime.FormatIsMonotone | src/workers/subtitles.py:102-121 | a later time never renders as an earlier stamp |
| SrtTime.ShiftClampsIff | src/workers/subtitles.py:134-147 | a shifted cue is where the offset puts it, but starts no earlier than zero and ends no earlier than ten milliseconds later, exactly when the offset would break that |
| SrtTime.ShiftKeepsCueOrder | src/workers/subtitles.py:124-151 | shifted cues last at least 10 ms after rounding and keep the order of their starts |
| SrtTime.ShiftsComposeIff | src/workers/subtitles.py:124-151 | unclamped shifts compose to their sum on all stamps if and only if the first rounding is invisible to the second |
| SrtFile.ShiftSrtTimestamps | src/workers/subtitles.py:124-151 | the loop shifts each line on its own and joins them with a final line break |
| SrtFile.ShiftOneLine | src/workers/subtitles.py:124-151 | a line that starts with a timing is rewritten, any other is kept |
| SrtFile.MatchTimingIff | src/workers/subtitles.py:128-136 | the scan recognises exactly the lines of two stamps, white space, an arrow, white space and any tail, and reads them in the one way there is |
| SrtFile.ShiftRewritesOnlyCues | src/workers/subtitles.py:124-151 | non-timing lines stay; rewritten cues have non-negative stamps at least 10 ms apart, in the order of their starts |
| SrtFile.ShiftKeepsLines | src/workers/subtitles.py:124-151 | the shifted file has exactly the shifted lines; their number is kept if and only if the file is not empty or the offset is negligible |
| SrtFile.ShiftsOfCueCompose | src/workers/subtitles.py:124-151 | on such a cue, with offsets of any size, two shifts equal the shift by the sum when the first rounding is invisible |
| SrtFile.ShiftsOfCuesComposeIff | src/workers/subtitles.py:124-151 | two shifts by at most a day agree with the shift by their sum on all cues that nothing clamps or takes beyond 100 hours, if and only if the first rounding is invisible to the second |
| SrtFile.TwoSmallShiftsDiffer | src/workers/subtitles.py:124-151 | two shifts by 0.4 ms leave a cue where it is that a shift by 0.8 ms moves |
| SrtFile.WriteSegments | src/workers/subtitles.py:250-263 | the file is the blocks of the segments with text, each with its number among all segments |
| SrtFile.RenderBlock | src/workers/subtitles.py:251-263 | three writes give number, start and end to the millisecond, text and an empty line; a missing start is 0, an end that is missing or not after it is start + 0.01 |
| WrittenCues.WrittenFileTells | src/workers/subtitles.py:250-263 | read back line by line, the written file gives each segment with text its number, its start and end within half a millisecond, its text and an empty line |
| WrittenCues.ShiftedFileTells | src/workers/subtitles.py:124-151 | so does the shifted file, with start and end moved and clamped, within a millisecond; offsets below a microsecond change nothing |
| SrtFile.LoadSegments | src/workers/handlers.py:2262-2277 | the loop keeps the non-empty bodies of the blocks |
| SrtFile.BodyText | src/workers/handlers.py:2268-2274 | a block's body is found behind its timing line |
| SrtFile.LoadOfFile | src/workers/handlers.py:2262-2277 | loading a file of blocks gives their texts in order |
| LooseSubtitles.LoadOfLooseFile | src/workers/handlers.py:2262-2277 | files with several lines to a text, any blank lines between entries and white space around load to the texts in order, lines joined |
| LooseSubtitles.JoinSpacesAdds | src/workers/handlers.py:2268-2274 | the lines of a text are joined by single blanks |
| SrtFile.ShiftOfFile | src/workers/subtitles.py:124-151 | shifting a file of blocks is the file of the shifted blocks |
| SrtFile.LoadOfShiftedFile | src/workers/handlers.py:2262-2277 | loading after a shift gives what loading before it gives |
| SrtFile.WriteShiftLoad | src/workers/subtitles.py:250-263 | writing, shifting by any offset and loading returns exactly the non-empty texts in order |
| Transcription.NormalizeResult | src/workers/transcription.py:165-201 | every raw segment is kept in order with its text trimmed; the joined text skips empty ones |
| Transcription.NormalizedTextTells | src/workers/transcription.py:165-201 | the text of a normalised result carries the trimmed text of every segment that has one, in order, one blank apart |
| Transcription.OffsetResult | src/workers/transcription.py:153-162 | every segment is moved by the offset, text and order stay |
| Transcription.TranscribeInChunks | src/workers/transcription.py:204-276 | the loop's result is the moved results of all chunks in order; its early exit is unreachable |
| Transcription.ChunkIsNotEmpty | src/workers/transcription.py:239-247 | each chunk before the count starts inside the audio and is not empty |
| Transcription.ChunksTile | src/workers/transcription.py:239-267 | the chunks are contiguous, at most `chunk_seconds` long, start at zero, end at the end and sum to the duration |
| Transcription.TranscriptIsOrdered | src/workers/transcription.py:239-267 | if each chunk's segments are ordered and inside it, all segments are ordered, inside the audio, and none is lost |
| Transcription.EverySegmentIsThere | src/workers/transcription.py:239-267 | every segment of every chunk is in the transcript at its place, with its text, later by its chunk's start |
| Transcription.TranscriptTextTells | src/workers/transcription.py:239-276 | the whole text carries the text of every chunk that has one, in order, one blank apart |
| MediaRange.RangeOf | src/api/streaming/media.py:95-123 | the branches give an interval inside every non-empty file, whatever the header says |
| MediaRange.FileRangeIterator | src/api/streaming/media.py:83-92 | chunks are non-empty, at most 64 KiB, and concatenate to the stretch asked for as far as the file goes |
| MediaRange.RangeResponse | src/api/streaming/media.py:83-123 | on a non-empty file the bytes sent are exactly the bytes announced |
| MediaRange.AnnouncedLengthIsSentIff | src/api/streaming/media.py:95-123 | the announced length can be sent if and only if the file is not empty or the header asks for nothing beyond it |
| MediaRange.EmptyFileAnnouncesAByte | src/api/streaming/media.py:95-123 | `0-0` on an empty file announces one byte and there is none |
| MediaRange.UnsatisfiableRangeIsAnswered | src/api/streaming/media.py:95-123 | `9-` on a file of one byte is answered with that byte |
| MediaRange.AgreesWithStandard | src/api/streaming/media.py:95-123 | satisfiable int-ranges and suffix-ranges get the interval of section 14.1.2 of RFC 9110, others one byte; numerals beyond 4300 digits, which `int` refuses, the whole file |
| MediaRange.UnderscoresAndSigns | src/api/streaming/media.py:95-123 | numerals are read as `int` reads them, with single underscores and a sign |
| MediaRange.MalformedGetsWholeFile | src/api/streaming/media.py:95-123 | a header with any character no integer has is answered with the whole file |
| Library.Sorted | src/api/services/library.py:15-21 | the listing holds exactly the rows, in order, each once |
| Library.OrderedListingIsUnique | src/api/services/library.py:15-21 | there is only one such listing |
| Library.NextLibraryDownload | src/api/services/library.py:159-181 | the first of the later playable items, nothing for an unknown item or at the end |
| Library.LaterItemsAre | src/api/services/library.py:159-181 | later items on their fields: downloaded, of the profile, seen earlier or with a lower number, no PDF by extension or path |
| Library.WalkVisitsLaterItemsOnce | src/api/services/library.py:159-181 | iterating ends and visits exactly the later playable items, once each, in order, even with equal timestamps |
| Library.InOrder | src/api/services/library.py:15-21 | picking the first of the rest until none is left gives the one ordered listing |
| Library.PaginatedDownloads | src/api/services/library.py:130-156 | the slice of the ordered filtered list for the clamped page and size |
| Library.FiltersAre | src/api/services/library.py:130-156 | no filter shows a FILTERED row or another profile's; played and unplayed share out the downloaded rows, favourites are some of them, a blank search finds all |
| Library.SearchFinds | src/api/services/library.py:147-149 | a search finds the rows that have the words in title or source, in any case |
| Library.PagesCoverTheListing | src/api/services/library.py:130-156 | the pages concatenate to the whole list, and pages outside the range show the nearest one |
| Multipart.IterFields | src/packages/getoffline_sdk/transports.py:296-303 | nested lists are flattened in order |
| Multipart.FieldsAreInOrder | src/packages/getoffline_sdk/transports.py:296-303 | the j-th value of the i-th entry comes behind all earlier ones, under its key |
| Multipart.MultipartBody | src/packages/getoffline_sdk/transports.py:241-260 | the streamed pieces concatenate to the framed parts and the closing line |
| Multipart.MultipartContentLength | src/packages/getoffline_sdk/transports.py:263-289 | nothing if and only if some upload lacks a valid size; otherwise the body's length plus what the sizes overstate |
| Multipart.HonestSizesHaveNoExcess | src/packages/getoffline_sdk/transports.py:263-289 | sizes that equal the sum of the chunks overstate nothing |
| Multipart.BodyInterleaves | src/packages/getoffline_sdk/transports.py:241-260 | the body is the parts with the delimiter of section 5.1.1 of RFC 2046 between them |
| Multipart.BodyDecodes | src/packages/getoffline_sdk/transports.py:241-260 | a reader that cuts at the delimiter recovers every header and content in order when no part contains it |
| Multipart.BodyDecodesIff | src/packages/getoffline_sdk/transports.py:241-260 | it recovers them if and only if no part contains it |
| MultipartReader.PartIsReadBack | src/packages/getoffline_sdk/transports.py:241-260 | a reader of sections 4 of RFC 7578 and 5.1 of RFC 2046 gets key, file name, type and content back if and only if no quotation mark is in key or file name |
| MultipartReader.BodyIsReadBack | src/packages/getoffline_sdk/transports.py:241-260 | cutting the body and reading the pieces gives back every field in order and nothing else |
| MultipartReader.DecodeOfEncode | src/packages/getoffline_sdk/transports.py:241-260 | decoding as RFC 3629 says gives every encoded text back |
| PdfLines.GroupLines | src/workers/pdf_ocr.py:44-70 | the running length equals the joined length; the groups are a proper grouping of exactly the lines |
| PdfLines.StartsHardIff | src/workers/pdf_ocr.py:41 | a line starts hard if and only if a bullet, a number with a mark or a capital with a mark stands before white space |
| PdfLines.GroupingIff | src/workers/pdf_ocr.py:44-70 | proper groupings in plain words, with the limit of 800 characters |
| PdfLines.GroupingIsUnique | src/workers/pdf_ocr.py:44-70 | only one proper grouping exists: hard starts open, sentence ends close, two or more lines fit 800 characters, and no group could take one line more |
| PdfLines.GroupsAreDetermined | src/workers/pdf_ocr.py:44-70 | so the lines determine the groups returned |
| PdfLines.SplitGroups | src/workers/pdf_ocr.py:71-80 | sentences are trimmed, non-empty, have no boundary left inside, and carry the groups' visible characters in order |
| PdfLines.PiecesAreSentences | src/workers/pdf_ocr.py:18-24 | cutting at every boundary leaves none inside a piece and loses no visible character |
| PdfLines.BreakAtIff | src/workers/pdf_ocr.py:18-24 | reading ahead greedily finds a boundary if and only if there is any way to read one |
| PdfLines.PiecesAreCuts | src/workers/pdf_ocr.py:71-80 | the pieces rejoin to the text, none is empty, and every cut is at a boundary |
| PdfLines.InkOfVisible | src/workers/pdf_ocr.py:71-80 | what the results on visible characters compare: all of a text without white space |
| PdfLines.SplitSentences | src/workers/pdf_ocr.py:44-80 | from lines to sentences no visible character is lost, added or moved |

## Left out

- AtMostOneActivePerKey: takes `create_job` as one step, although its lookup and its insert are two statements without a lock; `Jobs.InsertKeepsUniqueIff` says exactly when the insert alone is safe.
- HandlerStartsAreBounded: the stale reset is one step; it may meet any job whose key begins like those of the episode check, whatever the job's type.
- CreateJob: the rendering of idempotency keys from templates and hashes is not modelled; keys are arbitrary strings, except that no conversion job has a key of the kind the episode check makes, and equal keys stand for equal hashes.
- DownloadedRowsHaveTheirFile: assumes what `Orderly` states of a conversion when it starts or has looked for its inputs, and of a download when it is registered; each condition has its exact counterpart (`FileIsLostIffCrossed`, `OtherRowLosesFileIff`, `RegisteredFileIsLostIff`). Nobody else deletes files: the inputs of a screened video, which its transcript job deletes later, stay. The lease of the lock counts as kept; `TranscodeWorkers.OneConversionPerTarget` covers that.
- Postprocess: the FFmpeg command, its arguments, sizes and `file_path_relative` are left out; FFmpeg either writes its target or fails, and does not touch its inputs. The three checks inside the lock see every listed file as a regular file.
- NothingIsExposedUnscreened: the words of a transcript are not modelled; reading a whole transcript gives any verdict. A transcript made while its file was being replaced counts as made from none. Removing subtitle files in other languages is left out. One item is followed at a time; other items act only through the files they leave or write.
- GenerateDeferredScreening: jobs whose payload lacks a lookup, defaults or a media path are skipped by the code and are left out. The clean-up loop here is the one of `TranscodeFiles.Host.DeleteSourceFiles` on the files of one item.
- RecordedItemIsSeenIff: compares characters exactly, where the database may fold case; the name resolver is taken to return trimmed names, as it strips what it finds.
- RunKeepsInv: `acquire_slot` and `_heartbeat_loop` are modelled as steps of a state machine, not as methods, since their loops only make sense with other workers in between; the sleep times are arbitrary.
- SelectDue: the database's ordered query is modelled as a loop that picks the least due row.
- PaginatedDownloads: the search is a case-insensitive match on ASCII letters.
- FormatSrtTimestamp: floats are exact reals, `round` is half-even on them.
- ShiftSrtTimestamps: `\n` is the only line break and white space and digits are ASCII; cues of 100 hours and more are not recognised by the pattern and stay, as in the code.
- LoadSegments: the checks that the file exists and ends in `.srt` are left out.
- WrittenFileTells: segments end before 100 hours and texts are single lines that are no timing lines; `LooseSubtitles.LoadOfLooseFile` covers several lines.
- PartIsReadBack: keys, file names and types contain no carriage return.
- SplitGroups: white space, capitals and digits are ASCII.
- SplitSentences: `_clean_text` is left out; the lines arrive stripped and non-empty, as the code makes them.
- FileRangeIterator: a file is a sequence of bytes that does not change while it is read.
- ShiftsOfCuesComposeIff: offsets are bounded by a day so that cues are left that no shift takes out of the range of the pattern.
- EnqueueDue: the method is a pass that nothing interrupts; `RecurringJobs.PassLeavesNothingDue` is about passes among others.
- EachDueInstantFiresOnce: the jobs made from a firing, the worker messages and the publishing are left out. A change of settings is one step, although `src/api/services/dashboard_actions.py:961-1015` reads a schedule and saves it without a lock, so that it can overwrite what a pass has saved in between.
- Message broker, retries, routing and priorities, and the requeueing of existing jobs at worker start: plumbing.
- Views, templates, settings, authentication, the command line and the player: user interface.
- Feed parsing, video discovery and file-name cleaning: they depend on the shape of external data.
- `decorate_download`, labels for sizes and durations: settled by reading single branches.
- Paths are compared as given; home directories, symbolic links and relative paths are not resolved.
