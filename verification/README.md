# Oxy: verified models of the stateful cores

This project models the parts of Oxy, a photo browser, whose correctness depends on
state, time or interleaving, and proves what they promise. It is written in Dafny 4.11;
`dafny verify dfyconfig.toml` checks all of it.

| files | what they model |
|---|---|
| `Registry` | the leased LRU store of published resources, a class over a monotone clock |
| `Reservations` | the lock-free two-counter reservation, interleaved at every atomic operation |
| `Publisher`, `PublisherOutcomes`, `PublisherProgress`, `Subscribers` | the bounded persistence queue with its workers, what a publication comes to, what can hold it up, and who hears of a completion |
| `DecodeGate` | the admission gate with priorities, ageing and two capacities, a class over a clock |
| `HeifSession`, `HeifOutcomes` | sessions, tiles and completions under two locks, interleaved at every lock operation, and what a begin, a report and a cancel come to |
| `Tiling`, `TileCrops` | tile coordinates, cropping and sharpening |
| `Burst`, `Calendar` | burst grouping against a declarative specification, civil dates and EXIF stamps |
| `HeifBoxes`, `Iptc`, `Bytes` | box and dataset parsers with their printers |
| `DirectoryTree`, `TreeSession`, `TreeProtocol`, `TreeRuns` | the lazy directory tree: its edits, its critical sections, every interleaving, and runs its comments do not expect |
| `Paging`, `Comparison` | filters, orders and cursors of an asset listing |
| `Sorting`, `Collections`, `Machine`, `Wrappers` | shared vocabulary |

How the models are built:

- Code that updates fields becomes a class whose methods are proved against functions of
  the old state. Critical sections that interleave become a step function over a value;
  the theorems then speak of every schedule.
- The clock is an arbitrary value that never runs backwards and may move between any two
  readings. Decoders, caches, file-system answers and scans are arbitrary parameters.
- `usize` and `u64` arithmetic is unbounded with the saturating, checked and truncating
  operations written out. Where the source relies on an operation not overflowing or
  saturating, that is proved; where it can, the condition is.

Where code and comments of the repository differ, the models follow the code:

- `burst.rs` line 64 says that a repeated index ends a run. Lines 83 to 86 skip the frame
  and keep the run (`Burst.ACopyDoesNotEndTheRun`).
- `lib.rs` of `oxy-fs`, lines 232 to 234, says that a collapse revokes an admission. The
  revocation lasts until the directory is granted again; a load then in flight commits
  under the new admission, and a failure report asks for no admission at all
  (`TreeProtocol.WhatEachFenceStops`, `TreeRuns.ALoadCommitsUnderALaterAdmission`,
  `TreeRuns.AFailureCancelsALaterLoad`).
- The comment at line 314 of `lib.rs` expects a scanned level to have been read. A directory
  that vanishes and returns within one generation counts as scanned though it is unread
  (`TreeRuns.AScannedLevelCanBeUnread`); `TreeSession.MarksAreKeptUnlessADirectoryReturns`
  says exactly when a commit does this.
- A subscriber that finds the record between the two lock acquisitions at lines 1008 and
  1009 of `publication.rs` hears nothing (`Subscribers.ALateSubscriberHearsNothing`);
  `Subscribers.SubscribersOfADoneJob` says exactly who does.
- A worker that waits for a reader (lines 979 to 989) waits inside its job, so the reader of one
  entry can block queued jobs nobody reads (`PublisherProgress.AReaderCanBlockAnotherJob`).
- The parser of `heif.rs` has no error for a 64-bit size that overflows; it panics, in
  debug builds by the addition and in release builds by the slice
  (`HeifBoxes.PanicsExactlyOnTooLong`, `HeifBoxes.SixteenBytesArePanic`).
- The `u32` stride of a tile overflows from a width of 2^30 pixels on (`TileCrops.Stride`).

## Model

| member | source | states |
|---|---|---|
| Registry.Registry.EvictFor | crates/oxy-media/src/publication.rs:737-788 | terminates under any monotone clock; what is still protected at the end survives, what survives was protected at the start; an item that fits beside what the sweep leaves costs nothing more, and beyond the sweep the last entry evicted had to go; success exactly when the item now fits both budgets; failure means that at some reading during the call every remaining entry was protected |
| Registry.Registry.EvictionPass | crates/oxy-media/src/publication.rs:754-786 | one pass drops the front of the list or turns the list; it is stuck only if everything was protected at one reading, and otherwise the list is shorter or a free id is nearer |
| Registry.Registry.KeepFront | crates/oxy-media/src/publication.rs:767-784 | a protected candidate goes to the back; the closing scan says whether every id is protected, or which one is free |
| Registry.Registry.EvictFront | crates/oxy-media/src/publication.rs:754-785 | the front candidate leaves list, entries and byte counter together |
| Registry.Registry.AllProtected | crates/oxy-media/src/publication.rs:769-775 | the scan answers for every id on the list, although the clock moves while it runs |
| Registry.Registry.RemoveExpired | crates/oxy-media/src/publication.rs:716-735 | exactly the protected entries stay, in their order |
| Registry.Registry.RemoveEntries | crates/oxy-media/src/publication.rs:716-735 | removing a list of ids is removing them one by one |
| Registry.Registry.ExpiredIds | crates/oxy-media/src/publication.rs:719-731 | collects exactly the unprotected ids |
| Registry.Registry.RemoveEntry | crates/oxy-media/src/publication.rs:790-795 | entry, list position and bytes of one id, whether or not it is there |
| Registry.Registry.Register | crates/oxy-media/src/publication.rs:533-587 | an item that fits is never refused; on success a fresh id at the end of the list, with its publication grace and a fresh lease, beside what an eviction left; on failure only the evictions happened and the budget that is blamed is exhausted |
| Registry.Registry.Admit | crates/oxy-media/src/publication.rs:569-576 | the insertion: budgets hold, peaks are raised, nothing else changes |
| Registry.Registry.Resolve | crates/oxy-media/src/publication.rs:663-705 | an unknown id changes nothing; a stale file entry is removed; otherwise the entry moves to the end and a fresh read lease protects it |
| Registry.Registry.AcquireLocked | crates/oxy-media/src/publication.rs:653-661 | the token is new |
| Registry.Registry.DropLease | crates/oxy-media/src/publication.rs:105-109 | ends exactly one lease |
| Registry.Registry.Renew | crates/oxy-media/src/publication.rs:461-481 | renews exactly when the entry exists and its artifact lease agrees; a refused renewal removes the entry; a renewal moves it to the end and sweeps |
| Registry.Registry.Release | crates/oxy-media/src/publication.rs:485-496 | the UI lease ends now and the entry becomes the first candidate |
| Registry.Registry.RefreshPublicationGrace | crates/oxy-media/src/publication.rs:446-459 | extends the UI lease and never shortens it |
| Registry.Registry.TransitionToManagedFile | crates/oxy-media/src/publication.rs:404-442 | switches exactly the existing entries no reader holds, gives back their bytes, and returns the artifact lease it did not take |
| Registry.Registry.Run | crates/oxy-media/src/publication.rs:113-121 | over any run of calls the registry stays valid and both peaks are the maxima of all values taken |
| Registry.Registry.Perform | crates/oxy-media/src/publication.rs:404-713 | each call keeps the registry valid and raises the peaks to the present |
| Registry.Registry.constructor | crates/oxy-media/src/publication.rs:262-273 | an empty registry is valid |
| Registry.RemovalIsSound | crates/oxy-media/src/publication.rs:790-795 | the saturating subtraction never saturates; counter, list and budgets stay exact |
| Registry.InsertionIsSound | crates/oxy-media/src/publication.rs:569-576 | the saturating addition never saturates; counter, list, budgets and peaks stay exact |
| Registry.UpdateIsSound | crates/oxy-media/src/publication.rs:429-436 | replacing a payload by a smaller one keeps counter, list and budgets exact |
| Registry.MoveIsSound | crates/oxy-media/src/publication.rs:485-496 | moving an id to either end keeps the list a permutation of the ids |
| Registry.TurnIsSound | crates/oxy-media/src/publication.rs:754-768 | turning the list keeps it a permutation of the ids |
| Registry.SweepOutcome | crates/oxy-media/src/publication.rs:716-735 | removing all expired ids one by one is the sweep |
| Registry.EvictedTurn | crates/oxy-media/src/publication.rs:754-768 | turning the list keeps the eviction relation while time passes |
| Registry.EvictedDrop | crates/oxy-media/src/publication.rs:754-785 | dropping an unprotected front keeps the eviction relation |
| Registry.StoppedClockEvictionIsTheSweep | crates/oxy-media/src/publication.rs:737-788 | with a clock that stands still an eviction is exactly one sweep, whatever the list order |
| Registry.WhoSurvivesAnEviction | crates/oxy-media/src/publication.rs:737-788 | an entry someone reads, or whose deadline lies past the end, survives as it was; a survivor was read or had a deadline past the start |
| Registry.FewerLeaveRoom | crates/oxy-media/src/publication.rs:743-752 | where an item fits, it fits beside any part of the entries |
| Registry.BytesAreWhatIsEncoded | crates/oxy-media/src/publication.rs:556-576 | the byte counter is the sum of the encoded payloads, files counting nothing |
| Reservations.ReservationsStayWithinLimits | crates/oxy-media/src/publication.rs:590-650 | in every interleaving of the atomic steps, live reservations respect both limits and the counters never fall below them |
| Reservations.QuiescentCountersAreExact | crates/oxy-media/src/publication.rs:590-650 | with no thread between two steps both counters equal the live totals |
| Reservations.AdmissionCountsEveryoneInside | crates/oxy-media/src/publication.rs:596-618 | a request passes the count test exactly when fewer threads than the limit are inside, rejected ones on their way out included |
| Reservations.RejectedThoughNothingIsLive | crates/oxy-media/src/publication.rs:596-618 | a schedule in which a request is turned away while nothing is reserved |
| Reservations.StepIsBalanced | crates/oxy-media/src/publication.rs:1401-1415 | each atomic step moves a counter by what the stepping thread holds more or less |
| Reservations.StepKeepsInv | crates/oxy-media/src/publication.rs:590-650 | every atomic step keeps both counters equal to the threads' contributions |
| Reservations.RunKeepsInv | crates/oxy-media/src/publication.rs:590-650 | every run keeps both counters equal to the threads' contributions |
| Reservations.ARequestIsGrantedExactlyWhenItFits | crates/oxy-media/src/publication.rs:596-640 | a request no one interrupts ends live, with both counters raised, exactly when fewer threads than the limit are inside and its bytes fit beside the live ones; otherwise both counters are as before |
| Reservations.BytesAreRefusedExactlyWhenTheyDoNotFit | crates/oxy-media/src/publication.rs:1401-1415 | in every interleaving a thread at its byte test is turned away exactly when its bytes do not fit beside the live ones at that step |
| Reservations.AReleaseGivesBackBoth | crates/oxy-media/src/publication.rs:642-651 | a release lowers both counters by what the reservation held |
| Publisher.PendingBytesAreConserved | crates/oxy-media/src/publication.rs:1401-1415 | in every run the pending bytes are the bytes of the jobs between reservation and return, within the maximum; the queue stays within its capacity |
| Publisher.EveryEndIsSettledOnce | crates/oxy-media/src/publication.rs:1182-1231 | a finished job sent one message and returned its bytes once; a skipped one sent none and returned what it had reserved |
| Publisher.PersistedWasSwitched | crates/oxy-media/src/publication.rs:979-1007 | a job that will say Persisted had its unleased registry entry switched to that path, at a step that is exhibited |
| Publisher.PersistedMessagesAreTrue | crates/oxy-media/src/publication.rs:990-1010 | every Persisted message that was sent names such a switch |
| Publisher.OnlyASwitchPersists | crates/oxy-media/src/publication.rs:979-989 | no other step gives a job a Persisted outcome |
| Publisher.MovesAdvance | crates/oxy-media/src/publication.rs:945-1030 | every step takes a publication strictly further, at most ten times |
| Publisher.StepKeepsWorkers | crates/oxy-media/src/publication.rs:934-953 | a worker is taken only where one is free: never more jobs in work than workers |
| PublisherProgress.NothingElseBlocks | crates/oxy-media/src/publication.rs:945-1030 | while its managed file can be observed, an unfinished publication can move exactly when no reader holds its entry, no earlier job is queued before it, and a worker is free for it |
| PublisherProgress.OnlyReadersStopThePipeline | crates/oxy-media/src/publication.rs:934-1030 | when no unfinished publication can move, every job in work waits for a lease to end, and if jobs are queued, that is so for every worker |
| PublisherProgress.HeldWorkersBlockTheQueue | crates/oxy-media/src/publication.rs:979-989 | head of line: while readers keep the entries of all jobs in work, no queued job moves, whatever else happens and whoever holds its own entry |
| PublisherProgress.TheEndOfALeaseFreesTheQueue | crates/oxy-media/src/publication.rs:979-1030 | once the last lease of one such job ends, a run that is exhibited makes it tell its outcome, give back its bytes and let its worker take the front of the queue |
| PublisherProgress.AReaderCanBlockAnotherJob | crates/oxy-media/src/publication.rs:250-257 | a run of the production setting, one worker, in which a reader of one entry blocks a queued job that nobody reads |
| PublisherOutcomes.APublicationIsQueuedExactlyWhenItFits | crates/oxy-media/src/publication.rs:1182-1231 | a publication no one interrupts is queued at the end, with its bytes pending and its record listed, exactly when its bytes fit beside the held ones and the queue has room; otherwise it is skipped, with nothing pending and no record |
| PublisherOutcomes.AWorkedJobEnds | crates/oxy-media/src/publication.rs:945-1030 | a job no one interrupts comes to exactly one end, for every answer of cache, file system and registry: its message, its bytes, and the entry it switched; a reader of the entry stops it with nothing told and nothing given back |
| PublisherProgress.AGoneEntryIsNeverReadAgain | crates/oxy-media/src/publication.rs:653-713 | whatever happens, an entry that is gone and unread never gets a reader again, so it holds up no worker |
| PublisherProgress.ALeaseIsOnARegisteredEntry | crates/oxy-media/src/publication.rs:653-713 | a fresh token leases exactly a registered entry |
| PublisherProgress.TheFrontIsTakenExactlyWhenAWorkerIsFree | crates/oxy-media/src/publication.rs:934-953 | the front of the queue is taken exactly when fewer jobs are being worked than there are workers, of whom one there always is |
| Subscribers.SubscribersOfADoneJob | crates/oxy-media/src/publication.rs:1008-1027 | every subscriber of a done job came at one exhibited step; it was told the job's outcome exactly when that lookup found the job not yet notified and no reaping found the resource gone while it waited, and was dropped unheard exactly otherwise |
| Subscribers.SubscribedOnce | crates/oxy-media/src/publication.rs:1268-1278 | that step is unique |
| Subscribers.RunTells | crates/oxy-media/src/publication.rs:1241-1382 | in every run the stage its lookup found and the losses since tell how each subscription stands |
| Subscribers.ALateSubscriberHearsNothing | crates/oxy-media/src/publication.rs:1008-1009 | every run that reaches a switch extends to one in which a subscriber between notification and removal is dropped unheard |
| Subscribers.ALookupFindsExactlyTheScheduled | crates/oxy-media/src/publication.rs:1241-1382 | in every run a lookup subscribes exactly when its resource is registered and its job is between recording and removal of the record, or the mark of a failed cache; it reaps exactly the records of resources that are gone |
| Subscribers.RunKeepsRecords | crates/oxy-media/src/publication.rs:1241-1382 | in every run a registered publication has a record that says Scheduled exactly in those stages |
| Subscribers.SwitchThenNotify | crates/oxy-media/src/publication.rs:990-1008 | switch and notification leave the active record in place |
| Publisher.StepConserves | crates/oxy-media/src/publication.rs:1182-1231 | each step keeps the pending bytes equal to what the jobs hold |
| Publisher.StepKeepsQueue | crates/oxy-media/src/publication.rs:1214-1230 | the queue lists exactly the queued jobs, each once |
| Publisher.StepKeepsJobs | crates/oxy-media/src/publication.rs:1010-1029 | messages and refunds of a job agree with its stage |
| Publisher.StepKeepsActive | crates/oxy-media/src/publication.rs:1314-1382 | active records say Scheduled exactly as long as their job allows |
| Publisher.StepKeepsSubscriptions | crates/oxy-media/src/publication.rs:1324-1382 | every subscription agrees with the stage of its job |
| Publisher.RunKeepsInv | crates/oxy-media/src/publication.rs:1077-1231 | bytes, queue, workers, jobs, records and subscriptions agree with one another in every run |
| DecodeGate.DecodeGate.Enqueue | crates/oxy-media/src/decode_control.rs:128-149 | an oversized request is refused and changes nothing; any other is queued last under a fresh ticket |
| DecodeGate.DecodeGate.SelectedTicket | crates/oxy-media/src/decode_control.rs:186-191 | the waiter that beats every other by effective priority, then by older ticket, although the clock moves between the readings |
| DecodeGate.DecodeGate.PollOnce | crates/oxy-media/src/decode_control.rs:149-168 | cancellation removes the caller's own waiter; a grant goes to the best waiter within both capacities; sleeping means that one of the three conditions fails, and with no permit outstanding that another waiter was the best |
| DecodeGate.DecodeGate.Admit | crates/oxy-media/src/decode_control.rs:158-162 | a grant takes one slot and the bytes, and the waiter out of the queue |
| DecodeGate.DecodeGate.DropPermit | crates/oxy-media/src/decode_control.rs:193-204 | neither subtraction underflows, and slot and bytes come back |
| DecodeGate.DecodeGate.constructor | crates/oxy-media/src/decode_control.rs:97-112 | an idle gate is valid |
| DecodeGate.NothingPassesForeground | crates/oxy-media/src/decode_control.rs:172-191 | while a Foreground waiter queues only Foreground waiters with older tickets are granted |
| DecodeGate.WhoGoesFirst | crates/oxy-media/src/decode_control.rs:172-191 | the selection order in full: Foreground, then Visible and whoever has queued a second, then fresh Background; the older ticket within a class |
| DecodeGate.FreshBackgroundGoesLast | crates/oxy-media/src/decode_control.rs:172-191 | a fresh Background waiter is granted only when no one Foreground, Visible or aged queues beside it |
| DecodeGate.BackgroundAgesInOneSecond | crates/oxy-media/src/decode_control.rs:172-184 | a waiter counts as aged exactly when it is not Background or has waited a second |
| DecodeGate.AgedWaiterIsPassedOnlyByOlder | crates/oxy-media/src/decode_control.rs:172-191 | an aged waiter is passed only by Foreground waiters and older tickets |
| DecodeGate.AgedWaiterStep | crates/oxy-media/src/decode_control.rs:122-191 | no step adds an older ticket, and every other grant uses one up |
| DecodeGate.AgedWaiterIsOvertakenBoundedly | crates/oxy-media/src/decode_control.rs:122-191 | over any run, whoever arrives, no more non-Foreground grants go before an aged waiter than older tickets queued when it had aged |
| DecodeGate.SomeoneIsBest | crates/oxy-media/src/decode_control.rs:186-191 | a waiting queue always has one best waiter |
| DecodeGate.TheBestWaiterIsNeverBlocked | crates/oxy-media/src/decode_control.rs:122-162 | with no permit outstanding there is a best waiter and the grant of what it asked for is enabled, however large |
| DecodeGate.DecodeGate.Leave | crates/oxy-media/src/decode_control.rs:150-153 | a cancelled caller takes its own waiter out of the queue |
| DecodeGate.WithoutTicketInOrder | crates/oxy-media/src/decode_control.rs:158-158 | cancellation and grants keep the queue in ticket order |
| HeifSession.NoCallbackAfterReplacement | crates/oxy-media/src/heif_service.rs:451-510 | in every interleaving, once a newer session is installed no tile or completion callback of an earlier one runs |
| HeifSession.InstalledOnce | crates/oxy-media/src/heif_service.rs:147-175 | a session is installed at most once |
| HeifSession.NoCheckPassesAfterCancel | crates/oxy-media/src/heif_service.rs:512-525 | after a successful cancel no currency check of that session succeeds |
| HeifSession.TilesBelongToTheActiveSession | crates/oxy-media/src/heif_service.rs:165-175 | the tile map only ever holds keys of the active session |
| HeifSession.SomeoneCanMove | crates/oxy-media/src/heif_service.rs:151-158 | the two locks cannot deadlock: while a thread is busy some thread can move |
| HeifSession.StepKeepsLocks | crates/oxy-media/src/heif_service.rs:451-510 | each lock is held by the one thread whose position says so |
| HeifSession.StepKeepsJobs | crates/oxy-media/src/heif_service.rs:451-542 | between a currency check and its callback the session stays the active one |
| HeifSession.StepKeepsHistory | crates/oxy-media/src/heif_service.rs:151-175 | every mark of the trace agrees with the session installed last before it |
| HeifSession.RunKeepsInv | crates/oxy-media/src/heif_service.rs:113-542 | the invariants of locks, jobs and history hold in every run |
| HeifOutcomes.AReportIsMadeExactlyWhenCurrent | crates/oxy-media/src/heif_service.rs:451-510 | from any reachable state with free locks: a report no one interrupts calls back, and leaves a tile in the map, exactly when its session is the one installed last and its flag is unset; otherwise nothing changes |
| HeifOutcomes.ABeginInstallsExactlyWhenUnset | crates/oxy-media/src/heif_service.rs:113-200 | likewise a begin installs its session, unsetting nothing else, exactly when its own flag is unset |
| HeifOutcomes.ACancelSucceedsExactlyForTheLatest | crates/oxy-media/src/heif_service.rs:512-525 | likewise a cancel succeeds, and sets the session's flag, exactly for the id installed last |
| HeifOutcomes.ReportFromOutside | crates/oxy-media/src/heif_service.rs:451-510 | whatever the state, the seven steps of a report end in the callback or leave the state alone, by the check made inside the locks |
| HeifOutcomes.BeginFromOutside | crates/oxy-media/src/heif_service.rs:147-175 | the same for the six steps of a begin: a flag set before the locks are taken turns it back |
| Tiling.TileCoordinates | crates/oxy-media/src/heif_service.rs:787-803 | the two stepping loops and the sort yield the grid of corners, nearest to the centre first |
| Tiling.EveryPixelOnce | crates/oxy-media/src/heif_service.rs:787-794 | every pixel lies in exactly one tile of the list |
| Tiling.TileMembers | crates/oxy-media/src/heif_service.rs:787-794 | the list holds exactly the corners at multiples of the tile size |
| Tiling.TilesAreOrdered | crates/oxy-media/src/heif_service.rs:795-801 | the list is strictly ordered by distance from the centre, ties in row-major order |
| Tiling.NearerMiddlesComeFirst | crates/oxy-media/src/heif_service.rs:795-801 | the order in a caller's terms: the squared distances of the middles of the tiles from the middle of the image never fall |
| Tiling.TileCount | crates/oxy-media/src/heif_service.rs:787-794 | one tile for every started tile height and width |
| Tiling.DistanceFits | crates/oxy-media/src/heif_service.rs:795-801 | the 64-bit distance does not overflow for any 32-bit size |
| TileCrops.CropRgba | crates/oxy-media/src/heif_service.rs:709-719 | the tile at a corner is the rest of the image there, at most a tile each way; below a tile size of 2^30 its stride is four times its width |
| TileCrops.CropRgbaRect | crates/oxy-media/src/heif_service.rs:721-780 | the bytes are those of the rectangle, pixel by pixel, sharpened or not |
| TileCrops.Stride | crates/oxy-media/src/heif_service.rs:776-776 | the 32-bit stride is four times the width exactly below a width of 2^30 |
| TileCrops.CopyRows | crates/oxy-media/src/heif_service.rs:733-737 | slices of the source rows make the rectangle |
| TileCrops.SharpenRows | crates/oxy-media/src/heif_service.rs:738-771 | the nested loops make the sharpened rectangle |
| TileCrops.SharpenPixel | crates/oxy-media/src/heif_service.rs:739-769 | one pixel: neighbours clamped to the image, not to the tile |
| TileCrops.CropShows | crates/oxy-media/src/heif_service.rs:721-780 | the bytes of a tile at a row and column are the whole image's pixel at that place |
| TileCrops.TilesRebuildTheImage | crates/oxy-media/src/heif_service.rs:709-803 | all tiles of the list drawn on any canvas give the whole image, sharpened or plain: no pixel missing, no seam |
| TileCrops.PlainWholeIsTheSource | crates/oxy-media/src/heif_service.rs:733-737 | unsharpened, that whole image is the source byte for byte |
| TileCrops.DrawnAllPixel | crates/oxy-media/src/heif_service.rs:709-803 | overlapping or repeated tiles never disagree |
| TileCrops.SharpeningIsBounded | crates/oxy-media/src/heif_service.rs:744-769 | alpha is unchanged, no channel moves by more than 204, channel order is kept, and channel differences too where nothing is cut off |
| TileCrops.LaplacianIsBounded | crates/oxy-media/src/heif_service.rs:744-757 | the 32-bit expression stays between -1020 and 1020 |
| TileCrops.PixelLuma | crates/oxy-media/src/heif_service.rs:783-785 | a luma is at most 255 |
| TileCrops.FlatStaysFlat | crates/oxy-media/src/heif_service.rs:744-769 | a pixel whose neighbours have its luma is unchanged |
| TileCrops.SharpeningMovesByAFifth | crates/oxy-media/src/heif_service.rs:744-769 | every channel but alpha moves by one fifth of how far the pixel's luma stands above its neighbours', toward zero, and is cut off at 0 and 255 |
| TileCrops.SharpeningDeepensContrast | crates/oxy-media/src/heif_service.rs:744-769 | a pixel no neighbour outshines gets darker in no channel, one that outshines none gets brighter in none |
| TileCrops.PeaksRise | crates/oxy-media/src/heif_service.rs:744-769 | where every neighbour lies d below, each channel rises by a fifth of all of that, unless it is cut off |
| TileCrops.LaplacianIsAboveAll | crates/oxy-media/src/heif_service.rs:744-757 | the 32-bit expression is the sum of the pixel's heights above its neighbours, none above the image border |
| TileCrops.LumaWeights | crates/oxy-media/src/heif_service.rs:783-785 | eight more of red, green or blue make two, five or one more; alpha makes nothing |
| TileCrops.GreyIsItsOwnLuma | crates/oxy-media/src/heif_service.rs:783-785 | a grey pixel has its own value |
| Sorting.SortIsStable | crates/oxy-media/src/heif_service.rs:795-801 | a stable sort orders by key and leaves ties as they came |
| Calendar.NextDayCountsOne | crates/oxy-domain/src/burst.rs:139-146 | the successor of every valid date, month ends, leap days and century rules included, counts one more |
| Calendar.EpochIsZero | crates/oxy-domain/src/burst.rs:138-146 | 1970-01-01 is day 0 |
| Calendar.DaysFromMarch | crates/oxy-domain/src/burst.rs:139-146 | the era decomposition with truncating division is the flooring leap-year count, negative years included |
| Calendar.LaterDatesCountMore | crates/oxy-domain/src/burst.rs:139-146 | the day number is strictly monotone |
| Calendar.DayNumbersAreUnique | crates/oxy-domain/src/burst.rs:139-146 | the day number determines the date and its order |
| Calendar.NextSecondCountsOne | crates/oxy-domain/src/burst.rs:125-136 | a second later is one more, across midnight and month ends |
| Calendar.EpochSecondsAreUnique | crates/oxy-domain/src/burst.rs:125-136 | the epoch seconds determine the stamp |
| Calendar.ParseInvertsPrint | crates/oxy-domain/src/burst.rs:125-136 | reading back a printed stamp gives its epoch seconds |
| Calendar.GapIsElapsedTime | crates/oxy-domain/src/burst.rs:113-121 | for valid stamps the gap test holds exactly when at most ten seconds pass between them |
| Calendar.GapFailsOnlyBetweenReadableStamps | crates/oxy-domain/src/burst.rs:111-121 | the gap test fails exactly between two stamps that can be read and lie more than ten seconds apart |
| Calendar.ReadableStampsAreRead | crates/oxy-domain/src/burst.rs:125-136 | a stamp is read exactly when it has 19 bytes and a number in each of its six fields |
| Calendar.NumbersAreRead | crates/oxy-domain/src/burst.rs:125-136 | a field is a number exactly when it is digits behind at most one plus or minus sign |
| Burst.GroupBursts | crates/oxy-domain/src/burst.rs:67-96 | the loop yields exactly the maximal chains of two or more |
| Burst.GroupBy | crates/oxy-domain/src/burst.rs:67-96 | the loop yields exactly the maximal chains for any notion of taking part and continuing |
| Burst.FlushFinishes | crates/oxy-domain/src/burst.rs:98-109 | flushing the open run completes the groups of all maximal stretches found so far |
| Burst.TurnKeeps | crates/oxy-domain/src/burst.rs:71-93 | one turn keeps groups and open run in step with the maximal stretches found so far |
| Burst.RangesAreExact | crates/oxy-domain/src/burst.rs:67-96 | the stretches found from left to right are all the maximal ones and no others |
| Burst.RangesAreOrdered | crates/oxy-domain/src/burst.rs:67-96 | they are disjoint and in order |
| Burst.GroupingIsUnique | crates/oxy-domain/src/burst.rs:67-96 | the specification determines the groups |
| Burst.GroupingIsChains | crates/oxy-domain/src/burst.rs:32-109 | every group is a chain of frames that take part, each continuing the one before; groups share no frame and follow the input |
| Burst.ACopyDoesNotEndTheRun | crates/oxy-domain/src/burst.rs:83-86 | a copy of a shot may be left out of any input: a frame that repeats the number of the frame kept last changes no group |
| Burst.MembersCountUp | crates/oxy-domain/src/burst.rs:83-91 | in every group the counter goes up one by one from the first frame, no frame is a bracketing one, and neighbours pass the gap test |
| Burst.TwoFramesAreAGroupExactlyWhenTogether | crates/oxy-domain/src/burst.rs:32-121 | two frames are one group exactly when both take part, the second has the next number, and a readable pair of stamps lies within ten seconds; otherwise there is no group |
| Burst.UnreadableStampsDoNotSplit | crates/oxy-domain/src/burst.rs:111-121 | with one stamp missing or unreadable, consecutive frames are one group |
| Burst.ACopyIsSkipped | crates/oxy-domain/src/burst.rs:83-86 | a copy between two frames that belong together is left out of their group |
| Burst.TogetherContinues | crates/oxy-domain/src/burst.rs:36-91 | taking part and continuing, in terms of the fields of the frames |
| HeifBoxes.ParseBoxes | crates/oxy-metadata-parser/src/heif.rs:89-139 | the loop terminates on any bytes and collects the boxes, or overflows |
| HeifBoxes.ReadBox | crates/oxy-metadata-parser/src/heif.rs:93-131 | one turn: end, overflow, or the box at this offset |
| HeifBoxes.ParseIsTheChain | crates/oxy-metadata-parser/src/heif.rs:89-139 | a parse succeeds with a list exactly when the list is the chain of boxes at its offsets |
| HeifBoxes.ChainByPosition | crates/oxy-metadata-parser/src/heif.rs:118-135 | offsets chain by size and every payload is a slice inside the data, whole or cut off at the end |
| HeifBoxes.PanicsExactlyOnTooLong | crates/oxy-metadata-parser/src/heif.rs:100-118 | on data a machine can hold the parse overflows exactly when it comes to a 64-bit size too large to address past |
| HeifBoxes.SixteenBytesArePanic | crates/oxy-metadata-parser/src/heif.rs:101-117 | sixteen bytes on which the parse overflows |
| HeifBoxes.ParseInvertsPrint | crates/oxy-metadata-parser/src/heif.rs:89-139 | any printed list with 32-bit sizes, 64-bit sizes and a final size-0 box is read back |
| HeifBoxes.PrintedBox | crates/oxy-metadata-parser/src/heif.rs:93-131 | one printed box is collected as it was and the parse goes on behind it |
| HeifBoxes.SomeBoxes | crates/oxy-metadata-parser/src/heif.rs:89-139 | one box of each kind of size, byte by byte |
| HeifBoxes.ShortBox | crates/oxy-metadata-parser/src/heif.rs:111-129 | a whole box with a 32-bit size, by its bytes |
| HeifBoxes.LongBox | crates/oxy-metadata-parser/src/heif.rs:101-129 | a whole box with a 64-bit size, by its bytes |
| HeifBoxes.TinyBox | crates/oxy-metadata-parser/src/heif.rs:114-129 | a size smaller than the header: empty payload, and the parse goes on at the claimed end |
| HeifBoxes.CutOffBox | crates/oxy-metadata-parser/src/heif.rs:114-129 | a size past the end of the data: the payload is what is there |
| HeifBoxes.LastBox | crates/oxy-metadata-parser/src/heif.rs:107-129 | a box of size 0 runs to the end of the data |
| Bytes.BigEndian | crates/oxy-metadata-parser/src/heif.rs:93-104 | two, four and eight bytes, the first counting most |
| Iptc.ParseIptc | crates/oxy-metadata-parser/src/iptc.rs:199-233 | the datasets from the start of the data, with the encoding the first character set decides |
| Iptc.ScanDatasets | crates/oxy-metadata-parser/src/iptc.rs:200-227 | the loop collects the datasets up to the first place where none starts |
| Iptc.DetectEncoding | crates/oxy-metadata-parser/src/iptc.rs:236-251 | the first coded character set decides, Latin-1 without one |
| Iptc.ParseInvertsPrint | crates/oxy-metadata-parser/src/iptc.rs:199-233 | any printed list with values up to 65535 bytes is read back |
| Iptc.ParseRecovers | crates/oxy-metadata-parser/src/iptc.rs:203-227 | a printed list is read back at any position, whatever incomplete bytes follow |
| Iptc.PrintIsPrefix | crates/oxy-metadata-parser/src/iptc.rs:203-227 | on any bytes, printing the result gives a prefix, and nothing complete follows it |
| Iptc.SplitIsUnique | crates/oxy-metadata-parser/src/iptc.rs:199-233 | a list is the result exactly when the data are its printed form and an incomplete rest |
| Iptc.ExtractFromApp13 | crates/oxy-metadata-parser/src/iptc.rs:129-196 | without the header None, otherwise the first IPTC payload behind it |
| Iptc.ReadBlock | crates/oxy-metadata-parser/src/iptc.rs:141-192 | one block: give up, answer, or go on behind its padding |
| Iptc.ExtractIsTheFirstPayload | crates/oxy-metadata-parser/src/iptc.rs:139-195 | on any bytes a payload is returned exactly when it belongs to the first 0x0404 block behind well-formed others |
| Iptc.PrintedPayloadIsExtracted | crates/oxy-metadata-parser/src/iptc.rs:129-196 | from end to end: header, any printed list of other blocks, then an IPTC block, gives its payload, whatever follows |
| Iptc.PrintedBlocks | crates/oxy-metadata-parser/src/iptc.rs:141-192 | a printed list of blocks lies where it was printed |
| Iptc.PrintedBlockIsThere | crates/oxy-metadata-parser/src/iptc.rs:141-192 | any block can be written down at any place and is found there |
| Iptc.ScanOverBlocks | crates/oxy-metadata-parser/src/iptc.rs:153-192 | the scan passes over any other blocks, with odd or even names and sizes |
| Iptc.FirstCharacterSetDecides | crates/oxy-metadata-parser/src/iptc.rs:236-251 | the first dataset 1:90 decides: UTF-8 for ESC % G, unknown for anything else |
| Iptc.NoCharacterSetMeansLatin1 | crates/oxy-metadata-parser/src/iptc.rs:236-251 | without a dataset 1:90 the text is Latin-1 |
| Iptc.SomeDatasets | crates/oxy-metadata-parser/src/iptc.rs:199-227 | two datasets and a stray byte, byte by byte |
| Iptc.SomeBlocks | crates/oxy-metadata-parser/src/iptc.rs:141-192 | a named block with a padding byte before the IPTC block, byte by byte |
| Iptc.OtherBlocks | crates/oxy-metadata-parser/src/iptc.rs:141-192 | an even name before the IPTC block, byte by byte |
| Paging.PageAssets | crates/oxy-fs/src/lib.rs:850-933 | filter loop, the two sorts, reversal and slice give the page of the listing at the offset |
| Paging.Passes | crates/oxy-fs/src/lib.rs:858-894 | the five filters as the loop applies them |
| Paging.AnyLabel | crates/oxy-fs/src/lib.rs:873-892 | labels match as OR, without regard to ASCII case |
| Paging.FilteredCounts | crates/oxy-fs/src/lib.rs:857-896 | an asset is kept as often as it was scanned if it passes, and never otherwise |
| Paging.AssetsAreOrdered | crates/oxy-fs/src/lib.rs:1127-1138 | the comparator is a total preorder that ties only assets of one name |
| Paging.WhatTheOrderMeans | crates/oxy-fs/src/lib.rs:1127-1138 | sizes and times ascend, kinds go by the alphabet, names by their lower-case form, and the exact name breaks ties |
| Paging.KindsAreAlphabetical | crates/oxy-fs/src/lib.rs:1135-1135 | kinds are ordered Heif, Jpeg, Png, Raw, Tiff, Webp |
| Paging.ColorsAreAlternatives | crates/oxy-fs/src/lib.rs:873-882 | asking for two lists of colors is asking for one or the other |
| Paging.FlagsAreAlternatives | crates/oxy-fs/src/lib.rs:883-894 | asking for two lists of flags is asking for one or the other |
| Paging.FiltersCombine | crates/oxy-fs/src/lib.rs:858-894 | a query passes what each of its filters passes alone |
| Paging.KindFilter | crates/oxy-fs/src/lib.rs:858-860 | a kind passes the assets of that kind |
| Paging.SearchFilter | crates/oxy-fs/src/lib.rs:861-866 | a search passes the names in which the text occurs somewhere, both in lower case |
| Paging.RatingFilter | crates/oxy-fs/src/lib.rs:867-872 | a minimum passes ratings from there on; an asset without a rating passes a minimum of zero only |
| Paging.ColorFilter | crates/oxy-fs/src/lib.rs:873-882 | a color passes the labels that read the same but for the case of ASCII letters |
| Paging.FlagFilter | crates/oxy-fs/src/lib.rs:885-894 | a flag is rejected, pending or accepted in any ASCII case, and passes exactly those so marked |
| Paging.ContainsIsOccurrence | crates/oxy-fs/src/lib.rs:861-866 | containing is occurring at some position |
| Paging.IgnoringCase | crates/oxy-fs/src/lib.rs:873-882 | equal length, and letters that differ at most by 32 within the alphabet |
| Paging.KeyedSortAgrees | crates/oxy-fs/src/lib.rs:898-908 | sorting by precomputed lower-case keys agrees with the comparator |
| Paging.DescendingIsBackwards | crates/oxy-fs/src/lib.rs:912-914 | the descending listing is the ascending one backwards |
| Comparison.LessIsLexicographic | crates/oxy-fs/src/lib.rs:1127-1138 | a string is less exactly when it is a proper prefix or has the smaller character at the first difference |
| Paging.ListingArranges | crates/oxy-fs/src/lib.rs:898-914 | the listing holds the filtered assets, each once, in the order and direction asked for |
| Paging.ListingIsUnique | crates/oxy-fs/src/lib.rs:898-914 | with distinct names neither scan order nor the unstable sort shows in it |
| Paging.UnfilteredListsEverything | crates/oxy-fs/src/lib.rs:857-896 | without filters everything scanned is listed |
| Paging.PagesJoin | crates/oxy-fs/src/lib.rs:916-932 | from any cursor a caller may send, following it ends, the pages joined are the rest of the listing, and every page tells the same total |
| Paging.PagesAreFull | crates/oxy-fs/src/lib.rs:916-932 | only the last page may be short, and only it has no cursor |
| Paging.PagesAreTheListing | crates/oxy-fs/src/lib.rs:850-933 | the pages from cursor 0 hold exactly the assets that pass the filters, in order |
| Paging.PageSize | crates/oxy-fs/src/lib.rs:917-920 | 250 assets by default, otherwise as many as asked for, between 1 and 1000 |
| Paging.ThePromiseCanBeKept | crates/oxy-fs/src/lib.rs:898-911 | both comparators are total orders, so the sort calls' promise can be kept |
| DirectoryTree.ReplaceTreeChildren | crates/oxy-fs/src/lib.rs:560-594 | the loop over the scan, taking survivors out of a map by path, builds the replaced node |
| DirectoryTree.TakeChild | crates/oxy-fs/src/lib.rs:572-587 | a survivor takes the scanned name; a new child is collapsed and unread |
| DirectoryTree.ReplacedShowsTheScan | crates/oxy-fs/src/lib.rs:568-594 | the level is the scan in its order; survivors keep subtree and expansion; new children are collapsed and unread |
| DirectoryTree.ReplacedFinds | crates/oxy-fs/src/lib.rs:568-588 | every scanned path finds its child |
| DirectoryTree.ReplacedLacks | crates/oxy-fs/src/lib.rs:568-588 | a path that was not scanned has no child any more |
| DirectoryTree.ReplacedKeepsBelow | crates/oxy-fs/src/lib.rs:573-579 | below a survivor every node is found as before |
| DirectoryTree.ReplacedKeepsShape | crates/oxy-fs/src/lib.rs:560-594 | reading a level keeps the shape |
| DirectoryTree.PathsAreDistinct | crates/oxy-fs/src/lib.rs:528-549 | no path occurs twice in a tree in shape |
| DirectoryTree.Found | crates/oxy-fs/src/lib.rs:541-549 | what is found has the path looked for |
| DirectoryTree.EditFinds | crates/oxy-fs/src/lib.rs:528-539 | an edit at a path changes what is found from that path on; above it the rows, beside it whole subtrees, stay |
| DirectoryTree.EditKeepsShape | crates/oxy-fs/src/lib.rs:528-539 | an edit that keeps a node's path and shape keeps the tree's |
| DirectoryTree.CollapsedFinds | crates/oxy-fs/src/lib.rs:551-558 | collapsing keeps every node, its entry and the levels read, and unsets every expansion |
| DirectoryTree.CollapsedPaths | crates/oxy-fs/src/lib.rs:551-558 | collapsing keeps every level as it lists |
| DirectoryTree.CollapsedKeepsShape | crates/oxy-fs/src/lib.rs:551-558 | collapsing keeps the shape |
| TreeSession.Session.SetDirectoryExpanded | crates/oxy-fs/src/lib.rs:200-216 | one section: the flag, the admission and a new revision; a missing directory changes nothing |
| TreeSession.Session.KnownDirectoryTreePath | crates/oxy-fs/src/lib.rs:180-190 | answers with the stored path exactly when the tree holds it |
| TreeSession.Session.CollapseDirectoryTree | crates/oxy-fs/src/lib.rs:220-230 | everything collapsed, every admission revoked, a new revision |
| TreeSession.Session.BeginLoad | crates/oxy-fs/src/lib.rs:242-248 | the answer is the one fence with which a commit would go ahead now, and there is none without an admission |
| TreeSession.Session.FinishLoad | crates/oxy-fs/src/lib.rs:263-273 | commits with the generation unchanged and an admission, which it uses up; fails exactly when the directory has gone |
| TreeSession.Session.BeginPrefetch | crates/oxy-fs/src/lib.rs:295-303 | reads the generation when the level is unread or not scanned |
| TreeSession.Session.FinishPrefetch | crates/oxy-fs/src/lib.rs:309-321 | commits with the generation unchanged if no one read the level meanwhile |
| TreeSession.Session.StartRefresh | crates/oxy-fs/src/lib.rs:343-349 | a new generation, nothing scanned, nothing admitted |
| TreeSession.Session.FinishRefresh | crates/oxy-fs/src/lib.rs:359-370 | commits with the generation unchanged |
| TreeSession.Session.FailDirectoryLoad | crates/oxy-fs/src/lib.rs:508-525 | with the generation unchanged: not loading, collapsed, a new revision |
| TreeSession.Session.ReadLevel | crates/oxy-fs/src/lib.rs:267-272 | find, replace, mark scanned, new revision |
| TreeSession.Session.NextTreeRevision | crates/oxy-fs/src/lib.rs:491-495 | larger than every revision drawn before |
| TreeSession.Session.constructor | crates/oxy-fs/src/lib.rs:93-132 | a collapsed, unread root under a new revision |
| TreeSession.CommitChangesOneLevel | crates/oxy-fs/src/lib.rs:267-272 | a commit changes the rows from its level on and no other |
| TreeSession.ExpandShowsTheDirectory | crates/oxy-fs/src/lib.rs:203-213 | a directory is shown as asked unless it is a known leaf; an unread one is being loaded from then on, and the caller wins the load exactly when no one was loading |
| TreeSession.MarksAreKeptUnlessADirectoryReturns | crates/oxy-fs/src/lib.rs:267-272 | where every scanned-marked level is read, a commit keeps that exactly when no scanned-marked directory of its scan is new to the level |
| TreeSession.AReturningDirectoryIsNotPrefetched | crates/oxy-fs/src/lib.rs:314-321 | a directory that two commits of one generation lose and find again is unread but counts as scanned, so no prefetch of that generation reads it |
| TreeSession.CommitReplaces | crates/oxy-fs/src/lib.rs:267-272 | after a commit the directory's node is the replaced one, and the tree is in shape |
| TreeSession.ExpandChangesOneFlag | crates/oxy-fs/src/lib.rs:203-213 | expanding a directory changes nothing but its own flag |
| TreeSession.FailureTouchesOneDirectory | crates/oxy-fs/src/lib.rs:508-525 | a failure report collapses its directory, keeps its entry and level, and stops its load; every other row, every other mark and admission stay |
| TreeSession.ARefreshStartsOver | crates/oxy-fs/src/lib.rs:343-349 | from the start of a refresh no earlier operation goes ahead and no load does before a new grant, while every known level may be read again; what is shown stays |
| TreeSession.CollapseClosesEverything | crates/oxy-fs/src/lib.rs:220-230 | every directory stays with its entry and level, none is expanded, none is admitted, the marks stay |
| TreeProtocol.StaleOperationsChangeNothing | crates/oxy-fs/src/lib.rs:235-370 | over all interleavings: an operation that read its generation before a refresh began changes nothing when it ends |
| TreeProtocol.WhatEachFenceStops | crates/oxy-fs/src/lib.rs:263-370 | the exact condition under which each kind of operation changes nothing |
| TreeProtocol.AnOperationTouchesOneDirectory | crates/oxy-fs/src/lib.rs:235-370 | whatever an operation does when it ends, it does to one directory: rows elsewhere, subtrees beside it, and the marks and admissions of all others stay |
| TreeProtocol.WhenOperationsStart | crates/oxy-fs/src/lib.rs:235-349 | a load starts exactly when it could commit at once, under the generation it reads; a prefetch exactly at a known level that is unread or unscanned; a refresh always, under the generation it makes |
| TreeProtocol.RevokedLoadsCommitNothing | crates/oxy-fs/src/lib.rs:232-266 | after its admission was revoked and until the directory is granted again a load commits nothing |
| TreeProtocol.ALevelIsPrefetchedOnce | crates/oxy-fs/src/lib.rs:314-321 | in one generation a level is read ahead once: after any commit of it a prefetch changes nothing |
| TreeProtocol.CollapsedLoadsCommitNothing | crates/oxy-fs/src/lib.rs:210-273 | a load in flight when its directory is collapsed commits nothing unless the directory is granted again |
| TreeProtocol.CommitsArePaidFor | crates/oxy-fs/src/lib.rs:192-273 | over every run the committed loads of a directory are at most its admissions |
| TreeProtocol.AFailureCancelsEveryLoad | crates/oxy-fs/src/lib.rs:508-525 | a failure report is fenced by the generation alone: it changes the state exactly when no refresh began, and then cancels every other load of the directory |
| TreeProtocol.ReachableWorlds | crates/oxy-fs/src/lib.rs:93-370 | from an opened folder on: no path twice, every node in shape, and exactly the levels committed in the current generation count as scanned |
| TreeProtocol.LoadsAreGranted | crates/oxy-fs/src/lib.rs:192-273 | from an opened folder on, the committed loads of a directory are at most its admissions |
| TreeProtocol.RevisionsTellTheLatest | crates/oxy-fs/src/lib.rs:93-370 | from an opened folder on, revisions order the snapshots and a consumer keeps the latest delivered one |
| TreeRuns.AScannedLevelCanBeUnread | crates/oxy-fs/src/lib.rs:288-370 | a run from an opened folder after which a directory is scanned-marked, known and unread, and no prefetch reads it |
| TreeRuns.ALoadCommitsUnderALaterAdmission | crates/oxy-fs/src/lib.rs:235-273 | a run in which a load commits although its admission was revoked, under one granted later |
| TreeRuns.AFailureCancelsALaterLoad | crates/oxy-fs/src/lib.rs:249-262 | a run in which the failure of a revoked load cancels the load admitted later |
| TreeProtocol.RunKeepsInv | crates/oxy-fs/src/lib.rs:192-370 | every run keeps the tree in shape and the scanned set at exactly the levels committed in the current generation |
| TreeProtocol.StepKeepsShape | crates/oxy-fs/src/lib.rs:192-370 | each section keeps the shape |
| TreeProtocol.StepKeepsScanned | crates/oxy-fs/src/lib.rs:263-370 | each section keeps the scanned set to the current generation |
| TreeProtocol.StepMovesRevision | crates/oxy-fs/src/lib.rs:491-495 | a section that changes a snapshot gives it a revision above every one drawn before |
| TreeProtocol.RevisionsOrderSnapshots | crates/oxy-fs/src/lib.rs:192-370 | over every run later snapshots never have smaller revisions and equal revisions are equal snapshots |
| TreeProtocol.ConsumerKeepsTheLatest | crates/oxy-fs/src/lib.rs:192-370 | a consumer that keeps the highest revision holds the latest delivered state, whatever the order of delivery |

## Left out

- Wrap-around of tickets, revisions, lease tokens, resource ids and session numbers: the counters are unbounded.
- Poisoned locks, thread start and shutdown, condition-variable wake-ups and sleeping: a waiting caller may poll at any time.
- `DecodeGate.DecodeGate.Enqueue`: queueing and the first poll are two steps here and one lock hold in the source, so more interleavings are covered than can happen.
- `Registry.Registry.Register`: the id is drawn inside the call as a number; descriptors (dimensions, origin, media type) and staged-file deletion are left out.
- `Registry.Registry.Resolve`: what the file system answers about the source file is a parameter.
- Materializing a response, and the read lease it consumes, beyond its reservation.
- Reaping is one step; in the source each record's check of the registry is a step of its own under one lock.
- Which active record a lookup finds: `lookup_active` is modelled as a subscription to a given resource; `cache::satisfies` and `candidate_rank` are not part of this model.
- The list of persistence failures and the staging directory.
- HEIF backend selection, cache writes after a decode, and the diagnostics a completion carries; a failed `begin` before its locks changes nothing and has no step.
- `TileCrops.CropRgbaRect`: JPEG tiles, decoders and colour conversion are not part of this model.
- Box finders and `parse_heif`, and the tables of IPTC names.
- `Iptc.ParseIptc`: the extended dataset sizes of IPTC-IIM are read as plain 16-bit sizes, as the source does.
- Unicode lower-casing in searches: an arbitrary function.
- `Paging.PageAssets`: the unstable sorts are arbitrary functions that permute and order; nothing is said about ties.
- `DirectoryTree.ReplaceTreeChildren`: nodes are values, so the update of a nested node in place is the rebuilding of the path to it; a scan lists distinct children.
- The directory cache and its own generation check (`lib.rs` lines 453 to 489): a scan is an arbitrary list, so freshness is stated against the generation an operation read and not against the disk.
- Symbolic links and the resolution of paths: directories are canonical.
- Other sessions: they appear only as draws from the shared revision counter.
- SQLite stores, projections, relocation, trash, process launch, the user interface and metadata display.
