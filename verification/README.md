# MetroFlow backend: verified model

A Dafny model of the stateful parts of the MetroFlow backend, with proofs of what they keep over
every run. Values are datatypes and functions; what the Python updates in place is a class whose
methods are proved against those functions. Each protocol is a machine whose steps interleave in
any order, so its theorems hold of every reachable state.

| area | modules |
|---|---|
| Leader election: Redis lease, lock-file fallback | `Election`, `ElectionProcess`, `ElectionSafety`, `ElectionFailover`, `ElectionOutage` |
| Bounded caches | `Lru`, `LocalCache` |
| WebSocket fan-out: coalescing, relay, late joiners | `Messages`, `Coalescing`, `Relay`, `LateJoin`, `ConnectionManager` |
| CSV replay and occupancy | `CsvReplay`, `CsvLoad`, `CsvSimulator`, `Occupancy` |
| Train movement and ETA | `TrainTracking`, `EtaWalk`, `TrainMotion` |
| Report scheduler | `Calendar`, `ReportSchedule`, `ReportRuns`, `ReportOverlap`, `ReportScheduler` |
| Durable notifications | `Dispatch`, `DispatchRuns`, `DispatchProcesses`, `DispatchRaces`, `DispatchQueue` |
| Train-position feed | `TrainFeed` |
| Retention roll-up and traffic report | `Compaction`, `Retention` |
| Check-in and check-out locking | `JourneyLocks`, `JourneyRuns`, `JourneyService` |

`Wrappers` and `Arith` hold what several modules share. Times are `int` or `real` in the unit of
the code they model, counts are `int`, ratios are `real`.

## What the code does not keep

Several promises hold only under a condition. Each is proved as an exact condition or shown to
fail by a run or a concrete input.

- Entering a Redis outage is safe exactly when two tick gaps are *strictly* less than the lease;
  the fallback compares with `>=`, so at equality two workers can run at one instant
  (`ElectionOutage.OutageEntrySafeExactly`).
- Two workers can run when a process starts, or is started again, during an outage, when a peer
  takes the key before the lock-file leader's next tick, and under a partial partition
  (`StartupHole`, `RestartHole`, `RecoveryHole`, `PartitionHole` of `ElectionOutage`). A worker goes
  from lease to lock file without stopping exactly when a reading says "unreachable" a lease after
  the last good one and the lock file is free (`ElectionSafety.CarriesOverExactly`).
- A direct broadcast (every simulator tick, every relayed event) over an older update still in the
  coalescing buffer is undone by the flush: clients and latest state end at the older one. The last
  write of a key wins exactly when it was a notice or met a buffer with nothing else for the key
  (`Coalescing.CoalescingKeepsLastWrites`, `Coalescing.DirectIsUndone`).
- Keyless updates share the coalescing key `None`, so an update whose key is explicitly `None` can
  vanish (`Coalescing.NullKeyExactly`). A buffer has no flush on its way exactly when the last
  submission failed and nothing was notified since (`Coalescing.StrandedExactly`).
- Replay is cyclic exactly when a station has 64 rows or its last row ends its chunk; the size of
  the chunks does not matter (`CsvLoad.ReplayExactly`).
- A delay below -10 minutes, which the API accepts, makes the speed factor negative: progress falls
  below 0 and the train never arrives while it lasts. Progress stays in [0,1) exactly when no
  station of the route is that early (`TrainMotion.ProgressExactly`). A delay of exactly -10 divides
  by zero and fails the tick.
- With a second scheduler a delivery that finishes after stuck recovery takes attempts past the
  maximum, for every configuration (`ReportOverlap.TwoWorkersExceed`); after a crashed retry the
  round starts over.
- With one process a notification is sent twice only if a crash *or an exception* falls between
  sending and logging (`DispatchRuns.EverySendIsAccounted`). An exception alone is enough when
  recording it fails too (`DispatchRuns.FailedLogSendsTwice`).
- With several processes, as deployed (docker-compose.prod.yml:47), none of that is needed. Each
  recovers pending jobs when it starts (app/main.py:74) and no row is locked, so two of them send and
  log the same message twice in a run without any fault (`DispatchRaces.TwoProcessesSendTwice`), and
  a failed job runs again elsewhere (`DispatchRaces.FailedRunsAgain`). With n processes a job is
  attempted at most max(limit, 1) + n - 1 times, and that is reached
  (`DispatchProcesses.AttemptsAreBounded`, `DispatchRaces.BoundIsReached`).
- The retention document calls the roll-up's upsert idempotent and safe over overlapping windows
  (docs/crowd-live-state-and-retention.md:71-74). The code overwrites: a pass keeps all reports
  exactly when no bucket it rolls up has an hourly row already (`Compaction.PassKeepsExactly`).
  The cutoff is "now minus some days", not a whole hour, so two passes an hour apart lose data
  (`Compaction.UnalignedPassesLose`); so does a retry after a bucket was deleted in part
  (`Compaction.RetryAfterDeletesExactly`). Between roll-up and delete the rows count twice.
- Check-ins and check-outs cannot deadlock with each other or with live-count writers that go by
  ascending station; a writer in another order can (`JourneyRuns.DescendingWriterDeadlocks`). The
  crowd feed writes its stations in order of observation. Sessions do not flush early
  (app/database/session.py:5-10), so a check-in inserts its journey, and may wait on the unique
  index, only after it holds its station row; that is the lock order modelled.

## Model

Results first, then the operations proved against the functions the results are about.

| member | source | states |
|---|---|---|
| `Election.SecondStopGivesBack` | app/simulator/leader_election.py:69-79 | whatever a first stop raised, a second one gives both locks back |
| `Election.TickExactly` | app/simulator/leader_election.py:106-169 | a tick over the fields it saw: the file decides with the cache off, or while Redis reads unreachable and was never reached or is down a full lease, and is won when its own or free and available; else the key decides and is won when the call is answered and it is free, expired or its own; worker, counters, key and file follow from that |
| `ElectionSafety.TickIsPolite` | app/simulator/leader_election.py:106-169 | a tick touches only its own claims, and a worker runs after it only with the file held or the key renewed for a full lease |
| `ElectionSafety.Untouched` | app/simulator/leader_election.py:106-169 | no step of one process takes away another's fields, file or unexpired key |
| `ElectionSafety.EveryWorkerIsJustified` | app/simulator/leader_election.py:110-169 | in every run with ticks less than a lease apart, starts, restarts, stops and kills included, each worker holds its host's file or the unexpired key, and no two hold the same one |
| `ElectionSafety.WorkersAreBounded` | app/simulator/leader_election.py:110-169 | so at most one worker on the key plus one a host on its file |
| `ElectionSafety.NoCarryOver` | app/simulator/leader_election.py:110-169 | while the status reading and the script call agree, no worker goes from lease to file without stopping |
| `ElectionSafety.CarriesOverExactly` | app/simulator/leader_election.py:110-142 | in general it does exactly on an unreachable reading a lease or more after the last connected tick with the file free |
| `ElectionFailover.WorksAfterTickExactly` | app/simulator/leader_election.py:106-169 | in every reached world, exactly when the ticking process works afterwards: by its host's file alone if its last connected reading is a full lease old or missing, else by the key, then on a full new lease |
| `ElectionFailover.FailoverInTime` | app/simulator/leader_election.py:154-169 | failover: whoever held the key and whatever became of it, while no answer is lost and some process goes on electing with Redis answering it, within a lease and a tick gap some process wins the key and works |
| `ElectionOutage.OneLeaderAfterRecovery` | app/simulator/leader_election.py:144-169 | once every electing process ticked after a global recovery, at most one worker runs, on the key, and no process that is electing, or ticked or started since, holds a file |
| `ElectionOutage.EntryIsSafe` | app/simulator/leader_election.py:110-169 | if every tick reads "connected" up to some instant and from then on no script call is answered, whatever a tick reads (a cached client still reads "connected"), all had read Redis at their last tick and share a host, and two gaps fit strictly in a lease, then at most one worker at every instant of every run |
| `ElectionOutage.EntryIsUnsafe` | app/simulator/leader_election.py:120-127 | otherwise some run has two |
| `ElectionOutage.OutageEntrySafeExactly` | app/simulator/leader_election.py:110-169 | entering an outage, met by readings or by failed calls, is safe in all runs if and only if 2 * gap < lease |
| `ElectionOutage.StartupHole` | app/simulator/leader_election.py:125-128 | two workers: a process starting during an outage falls back at once |
| `ElectionOutage.RestartHole` | app/simulator/leader_election.py:64-67 | two workers: a process started again during an outage with an old last reading |
| `ElectionOutage.RecoveryHole` | app/simulator/leader_election.py:151-162 | two workers: a peer takes the key before the file leader's next tick |
| `ElectionOutage.PartitionHole` | app/simulator/leader_election.py:120-142 | two workers: only one process loses Redis |
| `ElectionOutage.CarryOverHappens` | app/simulator/leader_election.py:110-142 | a reachable carry-over when reading and call disagree |
| `Coalescing.CoalescingKeepsLastWrites` | app/websocket/manager.py:321-436 | for any interleaving of notices, direct broadcasts and flushes: the latest state overlaid with the buffer holds the last write of a key if and only if that was a notice, or a direct one over a buffer with nothing else for the key; with no buffer, the latest state alone does |
| `Coalescing.NoticesKeepLastWrites` | app/websocket/manager.py:385-436 | with notices alone it is the last write per key of all of them, in lock order |
| `Coalescing.DirectIsUndone` | app/websocket/manager.py:321-329 | whatever a direct broadcast says of a key that is buffered, the flush puts the buffered item back |
| `Coalescing.DirectIsOvertaken` | app/simulator/csv_replay_simulator.py:399-407 | a run that ends at the older of two updates |
| `Coalescing.ExactlyOneFlush` | app/websocket/manager.py:407-426 | while no submission fails, a buffer has exactly one flush on its way |
| `Coalescing.StrandedExactly` | app/websocket/manager.py:416-426 | in every run a buffer has no flush on its way if and only if the last submission failed and no notice came since |
| `Coalescing.FailureStrands` | app/websocket/manager.py:421-426 | such a run |
| `Coalescing.BroadcastOrSuperseded` | app/websocket/manager.py:407-436 | every popped update was broadcast or the last one with its key in its batch was |
| `Coalescing.BatchesAreStamped` | app/websocket/manager.py:414-435 | every broadcast batch carries the last stamp given among the notices it was made from, none if none gave one |
| `Coalescing.NullKeyExactly` | app/websocket/manager.py:411-420 | for the key None, when exactly the last keyed update survives the keyless ones |
| `Coalescing.NullKeyLost` | app/websocket/manager.py:411-420 | a keyed update lost to a keyless one |
| `Relay.OriginRunsOnce` | app/websocket/manager.py:164-166 | an event's body runs once at its origin, elsewhere only for a message handled, and is published at most once |
| `Relay.BodyRunsExactly` | app/websocket/manager.py:216-229 | a handled message runs the body exactly when it is foreign and not among the last `cap` run here |
| `Relay.AtMostOnce` | app/websocket/manager.py:148-229 | an instance whose repeats of an event come within the window runs it at most once, whatever happens to other events and elsewhere |
| `Relay.ExactlyOnce` | app/websocket/manager.py:148-229 | and then exactly once if it is the origin or ever got the message, else never; drops, late joiners and other events do not matter |
| `LateJoin.LateJoinerConverges` | app/websocket/manager.py:231-286 | a client whose snapshot is complete holds, once its sends drain, exactly the server's latest state, whatever was broadcast before or during its join |
| `LateJoin.LatestStampIs` | app/websocket/manager.py:242-243 | in every run the latest state keeps the last stamp broadcast for a merged event |
| `ConnectionManager.Manager.SnapshotAt` | app/websocket/manager.py:245-259 | one payload for every event with items, in order, with all its items and its last stamp, and none for the others |
| `Messages.AbsorbFinds` | app/websocket/manager.py:407-420 | a buffer holds the last update for each key |
| `Messages.AbsorbKeepsOrder` | app/websocket/manager.py:410-413 | in the order in which the keys first came |
| `Messages.RememberFinds` | app/websocket/manager.py:231-243 | the latest state holds the last keyed update for each key |
| `Messages.ValuesLast` | app/websocket/manager.py:428-436 | flushing a buffer's values carries exactly its keyed entries |
| `Messages.LearnAt` | app/websocket/manager.py:231-243 | an event changes the latest state of its own type and keys only, and its stamp when it brings one; only the two merged events do |
| `Lru.TrimKeeps` | app/websocket/manager.py:222-229 | an id survives the trimming exactly when fewer than the capacity are more recent |
| `Lru.AfterIsSince` | app/websocket/manager.py:216-229 | the ids behind an id in the order are the other ids marked since |
| `Lru.SeenIsTheLastCap` | app/websocket/manager.py:216-229 | for any history of marks the set is the last `cap` distinct ids, in order of last mark |
| `Lru.SeenExactly` | app/websocket/manager.py:216-229 | an id is remembered if and only if it was marked and fewer than `cap` other ids since |
| `LocalCache.AgreesAlways` | app/core/cache.py:34-71 | the bounded cache and an unbounded map agree on a key that `cap` other uses never displaced, recency included; reads that find nothing and refused set-if-absents of keys still there are no uses |
| `LocalCache.AnswersLikeUnbounded` | app/core/cache.py:34-71 | so every read of it answers as an unbounded map with expiry would |
| `LocalCache.ReadsBack` | app/core/cache.py:34-67 | a key not displaced reads back the value last set, or stored by a set-if-absent that found nothing, exactly until its time to live is over; for ever without one |
| `LocalCache.ReadsNothing` | app/core/cache.py:34-71 | and reads nothing when it was never offered, or not since it was deleted |
| `CsvReplay.NextIsCyclic` | app/simulator/csv_replay_simulator.py:194-230 | with the buffer holding the rows before the cursor, a pop returns the row at the place, keeps that, and moves the place on by one around the station's rows |
| `CsvReplay.NthIsCyclic` | app/simulator/csv_replay_simulator.py:194-230 | so the n-th row is the one n places on, modulo the count |
| `CsvLoad.AddRunKeeps` | app/simulator/csv_replay_simulator.py:115-141 | each run keeps index, buffer and cursor right for the part of the file read so far |
| `CsvLoad.IndexIsTheFile` | app/simulator/csv_replay_simulator.py:115-141 | the index covers exactly the stations of the file, and a row is in its range exactly when it is the station's |
| `CsvLoad.IndexIgnoresChunks` | app/simulator/csv_replay_simulator.py:115-141 | the index is the same for every cutting into chunks |
| `CsvLoad.ReplayExactly` | app/simulator/csv_replay_simulator.py:115-141 | replay is cyclic from row 0 for every n exactly when the station has 64 rows or its last row ends its chunk |
| `Occupancy.WalkClosedForm` | app/simulator/csv_replay_simulator.py:241-244 | the walk is the net flow minus the least prefix sum |
| `Occupancy.WalkIsLeast` | app/simulator/csv_replay_simulator.py:241-244 | and the least non-negative path absorbing the flows, at every row |
| `Occupancy.FlowIs` | app/simulator/csv_replay_simulator.py:241-244 | the net flow is everyone who entered less everyone who left |
| `Occupancy.OccupancyIsTodaysWalk` | app/simulator/csv_replay_simulator.py:232-244 | the gauge is the walk over the rows since the last change of day |
| `Occupancy.OccupancyClosedForm` | app/simulator/csv_replay_simulator.py:232-244 | the gauge in closed form |
| `Occupancy.SeedAgrees` | app/database/seed_real_data.py:76-84 | replaying a seeded day counts what was seeded |
| `TrainTracking.FirstStopsAre` | app/services/train_tracking.py:54-65 | a route visits exactly the train's stations, each once |
| `TrainTracking.FirstStopsExactly` | app/services/train_tracking.py:54-65 | and they are, in row order, exactly the rows that are their train's first at their station |
| `TrainTracking.RouteIsInOrder` | app/services/train_tracking.py:48-65 | in order of arrival |
| `TrainTracking.ArriveAdvances` | app/simulator/train_simulator.py:91-102 | after the first arrival from anywhere, each arrival advances the phase by one modulo 2(n-1) |
| `TrainTracking.ArrivesAdvances` | app/simulator/train_simulator.py:91-102 | k arrivals advance it by k |
| `TrainTracking.EveryStationVisited` | app/services/train_tracking.py:152-170 | fewer than 2(n-1) arrivals reach any station |
| `EtaWalk.SegmentIsAhead` | app/services/train_tracking.py:121-125 | on a turned heading the clamp never fires and the segment is the one ahead |
| `EtaWalk.TravelIsTimetabled` | app/services/train_tracking.py:127-172 | the time of any number of hops is the timetable's time for them over the speed; a speed of zero counts as one |
| `TrainMotion.MotionIsZigZag` | app/simulator/train_simulator.py:77-115 | from anywhere, by any steps: index on the route, progress below 1 (and not below 0 by forward steps), phase advanced by exactly the arrivals after the first |
| `TrainMotion.NoStationSkipped` | app/simulator/train_simulator.py:91-102 | within 2(n-1) arrivals every station is the current one |
| `TrainMotion.TrackedIsRide` | app/simulator/train_simulator.py:71-115 | any sequence of ticks, each with its own delays, is a ride |
| `TrainMotion.NextExactly` | app/simulator/train_simulator.py:82-102 | a tick over the tables: progress grows by 10 seconds / (duration (10 + delay)), with the timetable's duration of the segment ahead and the delay at the station; at 1 the train arrives, turning at the ends |
| `TrainMotion.UpdateExactly` | app/simulator/train_simulator.py:104-139 | the update names both stations, segment, delay and direction, and its ETA is the rounded rest of the segment, a tenth more for every minute late |
| `TrainMotion.SegmentTakes` | app/services/train_tracking.py:127-133 | however the time is cut into ticks, a train late by more than -10 minutes arrives exactly when duration (1 + delay/10) times the rest of the segment has passed, and until then that time left shrinks by the seconds gone |
| `TrainMotion.StepSignExactly` | app/services/train_tracking.py:127-128 | a tick goes forward exactly when the delay at the station is above -10, backward exactly when below |
| `TrainMotion.ProgressExactly` | app/simulator/train_simulator.py:85-102 | progress stays in [0,1) from every start by all ticks if and only if no station of the route has a delay below -10 |
| `TrainMotion.EarlyTrainGoesBack` | app/simulator/train_simulator.py:85-91 | route [1,2], a 60 s segment, delay -20, a 60 s tick: progress -1 |
| `TrainMotion.EarlyTrainNeverArrives` | app/simulator/train_simulator.py:85-102 | while its station stays that early a train never arrives |
| `TrainMotion.RowRecoversHeading` | app/simulator/train_simulator.py:82-83 | on a route without repeats `route.index` gives back the heading the last tick left |
| `Calendar.NextRunIsFirst` | app/services/report_schedule_service.py:21-35 | an answer exactly for a valid slot, and it is the first instant after now on that slot |
| `Calendar.WeekdayTurns` | app/services/report_schedule_service.py:34 | the weekday moves on by one a day, with a Monday on 1 January 2024 |
| `ReportSchedule.ServedIsLater` | app/services/report_schedule_service.py:149-245 | a claimed and delivered row is due strictly later, not processing, within its attempts |
| `ReportSchedule.ServedExactly` | app/services/report_schedule_service.py:161-240 | a row a pass picks: a failure with attempts left is due again after exactly max(retry, 60) seconds, anything else at the first instant after now on its slot; attempts go on in a retry, start over otherwise, and are 0 after a success |
| `ReportSchedule.RecoverExactly` | app/services/report_schedule_service.py:134-147 | exactly a row processing for more than max(stuck, 60) seconds has failed once more, and is due after the retry delay while it has attempts left, else when it was |
| `ReportSchedule.PassExactly` | app/services/report_schedule_service.py:149-240 | a pass serves due rows only, no more than the batch size, never one due later than one left out, and leaves none out while there is room |
| `ReportSchedule.RecoverClears` | app/services/report_schedule_service.py:132-147 | recovery leaves no stuck row and keeps the bounds; with none stuck it changes nothing |
| `ReportSchedule.PassRemovesBatch` | app/services/report_schedule_service.py:149-245 | after a pass exactly the claimed rows are no longer due |
| `ReportSchedule.BacklogDrains` | app/services/report_schedule_service.py:149-245 | n passes at one instant leave the due rows less n batches, down to none |
| `ReportSchedule.BatchesAreDue` | app/services/report_schedule_service.py:149-187 | every later batch was due at the start |
| `ReportSchedule.BatchesAreDisjoint` | app/services/report_schedule_service.py:149-187 | no row is claimed by two of them |
| `ReportRuns.AttemptsAreBounded` | app/services/report_schedule_service.py:132-245 | in every run of one worker, crashes and recovery included: attempts <= M, and < M while processing |
| `ReportRuns.RoundsAreBounded` | app/services/report_schedule_service.py:161-245 | without crashes at most M deliveries from one fresh claim to the next, ended by a success or by exactly M failures |
| `ReportRuns.FinishKeepsBoundExactly` | app/services/report_schedule_service.py:222-240 | a delivery keeps the bound exactly when it succeeds or the row is below it |
| `ReportOverlap.TwoWorkersExceed` | app/services/report_schedule_service.py:132-245 | for every configuration a run of two workers that ends with attempts = M + 1 |
| `DispatchRuns.AttemptsAreBounded` | app/services/notification_dispatch_queue.py:55-139 | one process, any crashes and restarts: a job is attempted at most max(limit, 1) times, and no recipient hears of it more often |
| `DispatchRuns.LoggedIsFinal` | app/services/alert_service.py:175-222 | one process: once a SENT row exists there is exactly one for ever and nothing more is sent to that recipient for that job and channel |
| `DispatchRuns.OutcomeIsFinal` | app/services/notification_dispatch_queue.py:61-139 | one process: a DONE or FAILED job never changes, runs or sends again |
| `DispatchRuns.EverySendIsAccounted` | app/services/alert_service.py:224-319 | one process: messages sent = rows logged + on their way to the log + cut off by a crash or exception in between |
| `DispatchRuns.DuplicatesNeedACut` | app/services/alert_service.py:224-319 | one process: so at most one message plus one per such cut |
| `DispatchRuns.FailedLogSendsTwice` | app/services/notification_dispatch_queue.py:80-89 | one process: a run with two messages and no crash inside the window |
| `DispatchProcesses.EverySendIsAccounted` | app/services/alert_service.py:226-319 | any number of processes: messages sent = rows logged + processes on their way to the log + those cut off |
| `DispatchProcesses.AttemptsAreBounded` | app/services/notification_dispatch_queue.py:58-139 | n processes: attempts plus waiting submissions of a job, and messages to a recipient, are at most max(limit, 1) + n - 1 |
| `DispatchProcesses.LoggedIsFinal` | app/services/alert_service.py:175-189 | once a SENT row exists and no process is in the middle of reaching that recipient, nothing more is sent to it or logged as sent |
| `DispatchProcesses.OutcomeIsFinal` | app/services/notification_dispatch_queue.py:61-89 | a DONE job, or a FAILED one no process still holds, never changes or sends again |
| `DispatchRaces.TwoProcessesSendTwice` | app/main.py:74 | for every positive limit a run of two processes, without crash or exception, with two messages and two SENT rows for one recipient |
| `DispatchRaces.FailedRunsAgain` | app/services/notification_dispatch_queue.py:64-68 | for every positive limit a FAILED job that the other process takes in progress again |
| `DispatchRaces.BoundIsReached` | app/services/notification_dispatch_queue.py:91-139 | for every positive limit and every n a run of n processes with limit + n - 1 attempts |
| `DispatchQueue.RowsAreSafe` | app/services/notification_dispatch_queue.py:58-139 | between calls of the one process the stored rows satisfy what every such run keeps |
| `DispatchQueue.DeliveredServes` | app/services/alert_service.py:224-319 | what an undisturbed run plans and delivers is exactly what is owed, log row by log row and message by message |
| `TrainFeed.SortIsStable` | app/api/v1/integrations.py:158 | a batch is taken in order of time, ties in the given order, nothing lost |
| `TrainFeed.VerdictsAreOnTheStateBefore` | app/api/v1/integrations.py:158-204 | in a batch without repeats a record is a duplicate or stale exactly by the state before the batch |
| `TrainFeed.CountsAre` | app/api/v1/integrations.py:162-204 | duplicates are the records of events known before the batch, rejected ones those of new events whose train has a strictly newer row |
| `TrainFeed.MovedOnlyIs` | app/api/v1/integrations.py:205-219 | the updates are, in order, exactly the other records |
| `TrainFeed.RefusalExactly` | app/api/v1/integrations.py:126-153 | which batches are refused and with which error: a repeated id, then exactly the unknown non-empty station codes and train numbers, then an empty station code |
| `TrainFeed.IngestReflects` | app/api/v1/integrations.py:158-204 | each record keeps: the events known are the old and the reported ones, and a train stands at a latest new sighting unless its old row was strictly newer |
| `TrainFeed.NothingReported` | app/api/v1/integrations.py:162-200 | where a history without reports stands, from any tables |
| `TrainFeed.Converges` | app/api/v1/integrations.py:107-225 | from any tables, whatever events and rows of other origin they hold: two deliveries of the same news, in any order, split and repetition, end in one state, every train where its latest new sighting reports it, station, next station, progress, status and time, unless its row was strictly newer |
| `TrainFeed.DistinctTimesNeverTie` | app/api/v1/integrations.py:180-200 | distinct times per train among the news are enough for that |
| `TrainFeed.TieDiverges` | app/api/v1/integrations.py:199 | and some such condition is needed: from any tables, a tie between different latest positions that are not older than the row ends differently in the two orders |
| `TrainFeed.FirstRecordKeepsTheEvent` | app/api/v1/integrations.py:162-176 | a second record with an event id changes nothing |
| `Compaction.PassKeepsExactly` | app/simulator/retention.py:48-85 | a pass leaves total, samples, peak and so average of every report over whole hours unchanged if and only if no bucket it rolls up has an hourly row |
| `Compaction.ReportsAreShares` | app/services/analytics_service.py:48-91 | all whole-hour reports agree exactly when every station-hour's share does |
| `Compaction.HourlyIsExact` | app/simulator/retention.py:21-46 | the report reads off an hourly row exactly the rows it stands for |
| `Compaction.HourlyExtremes` | app/simulator/retention.py:55-57 | its maximum and minimum are the largest and smallest of their counts |
| `Compaction.PassExactly` | app/simulator/retention.py:48-85 | a pass keeps exactly the rows from the cutoff on, writes exactly the station-hours with older rows, each with their number, average, largest and smallest count, and leaves the other hourly rows alone |
| `Compaction.ShareAfter` | app/simulator/retention.py:48-85 | what a pass does to one bucket's share: only an overwritten hourly row is lost |
| `Compaction.MidPassCountsTwice` | app/simulator/retention.py:65-82 | between upsert and delete a report counts every rolled-up row twice |
| `Compaction.AlignedPassesKeep` | app/simulator/retention.py:48-85 | with whole-hour cutoffs and no late rows every pass keeps the reports and prepares the next |
| `Compaction.SecondPassKeepsExactly` | app/simulator/retention.py:48-85 | from any tables, a second pass keeps the reports exactly when no row between the cutoffs shares a bucket with one rolled up or with an hourly row |
| `Compaction.RerunAfterUpserts` | app/simulator/retention.py:65-75 | after a crash among the upserts a rerun, then or later, ends as if nothing had been written |
| `Compaction.RetryAfterDeletesExactly` | app/simulator/retention.py:77-84 | from any tables, after a crash among the deletes a rerun loses nothing exactly when no bucket was deleted in part and it overwrites no earlier hourly row |
| `Compaction.ClashLoses` | app/simulator/retention.py:36-45 | an overwritten hourly row takes its samples out of the reports |
| `Compaction.UnalignedPassesLose` | app/simulator/retention.py:48-49 | two readings, a cutoff between them, the next pass an hour later: one is lost |
| `Retention.OneListing` | app/simulator/retention.py:63 | because the order is total |
| `Retention.EmptyPagesLose` | app/simulator/retention.py:66-84 | with a page size of 0 the rows are deleted unrolled |
| `Retention.SafetyNetFindsNothing` | app/simulator/retention.py:87-92 | the hard delete with an older cutoff finds nothing after a pass |
| `Retention.WholeHours` | app/services/analytics_service.py:48-75 | over whole hours that is the report a pass preserves |
| `Retention.LineAverages` | app/services/analytics_service.py:86-90 | the average of a line is a whole number of tenths within half a tenth of total over samples, and 0 without samples |
| `JourneyRuns.NeverDeadlocked` | app/services/journey_service.py:76-115 | with ascending writers no reachable cycle of transactions waiting for one another |
| `JourneyRuns.SomeoneCanMove` | app/services/journey_service.py:76-115 | while transactions are open one of them is not blocked |
| `JourneyRuns.DescendingWriterDeadlocks` | app/api/v1/integrations.py:95-100 | a writer in descending order and a check-out deadlock from any quiet state with a suitable journey |
| `JourneyRuns.CountsAreFolds` | app/services/crowd_service.py:77-96 | in every run each live count is the fold of the committed effects in lock order, a user has at most one active journey, no lock two holders |
| `JourneyRuns.CommitExactly` | app/services/crowd_service.py:54-96 | what a commit stores in any run: one more at a check-in's source, one moved by a check-out of the user's own active journey, a writer's own values; nothing else |
| `JourneyRuns.CountsAreJourneys` | app/services/crowd_service.py:77-96 | with passengers alone a count is the journeys under way from the station plus those completed to it, whatever aborts |
| `JourneyService.RowsAreTallied` | app/models/journey.py:23-35 | between calls counts are journeys and no user has two active ones |
| `ElectionProcess.RedisServer.TryAcquireOrRenewLock` | app/core/cache.py:228-256 | a call wins exactly when it is answered and the key is free, expired or its own; the key is then held for a full new lease, as it is when only the answer was lost, and else untouched |
| `ElectionProcess.RedisServer.ReleaseLock` | app/core/cache.py:239-267 | the key goes exactly when the call arrives and the key is the caller's and unexpired |
| `ElectionProcess.LocalLock.TryAcquire` | app/simulator/local_lock.py:26-70 | won exactly when the file is the caller's own or free and available; else left as it is |
| `ElectionProcess.LocalLock.Release` | app/simulator/local_lock.py:72-90 | only the holder gives the file back |
| `ElectionProcess.LeaderElection.ElectionTick` | app/simulator/leader_election.py:106-169 | the objects' fields, the key and the file after a tick are those of the tick `TickExactly` spells out |
| `ElectionProcess.LeaderElection.StopElection` | app/simulator/leader_election.py:69-79 | key and file go back exactly when neither a dead election task nor a failed worker raises first; in any case the election has ended |
| `ElectionProcess.LeaderElection.StartElection` | app/simulator/leader_election.py:64-67 | nothing while the election task lives; else a new one, with everything remembered |
| `ElectionProcess.LeaderElection.CancelWorker` | app/simulator/leader_election.py:190-197 | the worker is gone; a worker that had failed raises its error here |
| `ElectionProcess.LeaderElection.TakeLead` | app/simulator/leader_election.py:155-162 | a won tick counts a heartbeat, counts leadership only if newly won, and has a worker running |
| `ElectionProcess.LeaderElection.GiveUpLead` | app/simulator/leader_election.py:163-169 | a lost tick counts the loss only if a worker ran, stops it, and a failed worker ends the election |
| `ElectionProcess.LeaderElection.OnWorkerDone` | app/simulator/leader_election.py:199-214 | a crash is counted and remembered, a normal end is not |
| `LocalCache.LocalStore.GetRaw` | app/core/cache.py:34-45 | a read returns the live value and refreshes its recency, an expired entry is dropped |
| `LocalCache.LocalStore.Place` | app/core/cache.py:50-53 | an entry put at the end, the oldest evicted over capacity |
| `LocalCache.LocalStore.SetRaw` | app/core/cache.py:47-53 | a write, as a step of the history |
| `LocalCache.LocalStore.SetNxRaw` | app/core/cache.py:55-67 | writes exactly when there is no live entry |
| `LocalCache.LocalStore.DeleteRaw` | app/core/cache.py:69-71 | a delete, as a step of the history |
| `ConnectionManager.Manager.MarkSeen` | app/websocket/manager.py:222-229 | the set becomes the marked, trimmed order of `Lru` |
| `ConnectionManager.Manager.RememberItems` | app/websocket/manager.py:235-240 | the loop is the fold `Remember` |
| `ConnectionManager.Manager.RememberLatestState` | app/websocket/manager.py:231-243 | the latest state becomes `Learn` of the event; a stamp changes only with a stamped update of a merged event |
| `ConnectionManager.Manager.AbsorbItems` | app/websocket/manager.py:411-413 | the loop is the fold `Absorb` |
| `ConnectionManager.Manager.BufferForCoalesce` | app/websocket/manager.py:407-426 | the buffer becomes the merge with the later stamp, and a flush is asked for exactly when none is scheduled |
| `ConnectionManager.Manager.PopCoalesced` | app/websocket/manager.py:428-436 | buffer and mark go together and the buffer's values come out |
| `ConnectionManager.Manager.FlushCoalesced` | app/websocket/manager.py:428-436 | the popped values are broadcast once |
| `ConnectionManager.Manager.SendAll` | app/websocket/manager.py:336-349 | each working socket gets the payload once, the failed ones are collected |
| `ConnectionManager.Manager.SendToAll` | app/websocket/manager.py:336-349 | and are disconnected after the sends |
| `ConnectionManager.Manager.Disconnect` | app/websocket/manager.py:299-305 | the socket leaves the list and the user table |
| `ConnectionManager.Manager.Deliver` | app/websocket/manager.py:321-336 | the latest state learns the event and every socket is handed the payload, the failed ones leave |
| `ConnectionManager.Manager.Broadcast` | app/websocket/manager.py:321-349 | a known id changes nothing; a new one is marked, delivered, and published only if it did not come from the relay |
| `ConnectionManager.Manager.Targets` | app/websocket/manager.py:365-370 | exactly the sockets of the user |
| `ConnectionManager.Manager.BroadcastToUser` | app/websocket/manager.py:354-383 | only the user's sockets get the payload, once each, with the same de-duplication |
| `ConnectionManager.Manager.HandleRelay` | app/websocket/manager.py:164-190 | an own message or a known id changes nothing; another is handed to all sockets, or to the user's only, once each, and never published again |
| `ConnectionManager.Manager.LatestPayloads` | app/websocket/manager.py:245-259 | the non-empty snapshots in order, up to the first failed send |
| `ConnectionManager.Manager.SendLatestState` | app/websocket/manager.py:245-259 | only the new socket gets them |
| `ConnectionManager.Manager.Connect` | app/websocket/manager.py:261-286 | a rejected socket changes nothing, an accepted one is registered and gets the snapshot |
| `CsvSimulator.RunBounds` | app/simulator/csv_replay_simulator.py:119-121 | the bounds cut a chunk into adjoining runs of one station |
| `CsvSimulator.Simulator.IndexRun` | app/simulator/csv_replay_simulator.py:122-141 | one run, as the table function the load theorems use |
| `CsvSimulator.Simulator.IndexRuns` | app/simulator/csv_replay_simulator.py:117-141 | all runs of a chunk in turn |
| `CsvSimulator.Simulator.IndexChunk` | app/simulator/csv_replay_simulator.py:115-142 | a chunk keeps the load invariant |
| `CsvSimulator.Simulator.LoadCsv` | app/simulator/csv_replay_simulator.py:98-144 | for any chunks of a file with contiguous stations the load invariant holds of the whole file |
| `CsvSimulator.Simulator.RefillStationBuffer` | app/simulator/csv_replay_simulator.py:194-219 | up to 64 rows from the cursor, which wraps at the count; nothing for an unknown station |
| `CsvSimulator.Simulator.NextRow` | app/simulator/csv_replay_simulator.py:221-230 | the next row and table of the cyclic-read theorems, other stations unchanged |
| `CsvSimulator.Simulator.CurrentCountFromRow` | app/simulator/csv_replay_simulator.py:232-244 | one station's gauge becomes entries less exits on top of what it was, from zero on a new day and never below zero; the count is its rounding |
| `Occupancy.SeedCounts` | app/database/seed_real_data.py:69-84 | the seeding loop logs the rounded walk after each row of the day |
| `TrainTracking.SegmentGap` | app/services/train_tracking.py:20-24 | for times within the day the gap is the time until the clock next shows the arrival, a whole day between equal times, and at least 30 seconds |
| `TrainTracking.BuildAll` | app/services/train_tracking.py:54-65 | the loop keeps route, arrivals and seen set of every train in step |
| `TrainTracking.RouteCache.Refresh` | app/services/train_tracking.py:40-74 | the caches hold every train's first stops and, for every pair of neighbours, the time from arrival to arrival as `SegmentGap` has it |
| `TrainMotion.TrainSimulator.Track` | app/simulator/train_simulator.py:71-141 | nothing on an unusable route, only the default heading without a row; else the train moves as `NextExactly` says, and update and stored row show it; a remembered index off the route or a delay of -10 ends the tick with no row stored |
| `TrainMotion.TrainSimulator.Advance` | app/simulator/train_simulator.py:82-102 | from where row and memory place it the train moves by the step spelled out in `Ticked`, or ends with one of the two faults; the heading is remembered |
| `TrainMotion.TrainSimulator.RunTicks` | app/simulator/train_simulator.py:157-182 | on a fixed route without repeats, after any ticks the stored row and heading are where the ride from the first ones ends |
| `EtaWalk.WalkEtaSeconds` | app/services/train_tracking.py:135-172 | None exactly for an empty route, no segments or a target off the route; else the rounded remaining time plus the timetable's time, over the speed, of the hops to the first visit, fewer than 2(n-1) along the simulator's own path |
| `ReportScheduler.Earliest` | app/services/report_schedule_service.py:153 | the earliest row by due time, then id |
| `ReportScheduler.SelectDue` | app/services/report_schedule_service.py:149-157 | exactly the first due rows up to the batch size, in order |
| `ReportScheduler.Scheduler.RecoverStuck` | app/services/report_schedule_service.py:134-147 | every row as `RecoverExactly` has it: failed once more if stuck, due after the retry delay while attempts are left |
| `ReportScheduler.Scheduler.Claim` | app/services/report_schedule_service.py:161-187 | exactly the selected rows claimed: a failed one with attempts left goes on with its round, any other starts a new one with its next slot set |
| `ReportScheduler.Scheduler.Deliver` | app/services/report_schedule_service.py:189-244 | each claimed row by its own outcome: a failure with attempts left due again after exactly the retry delay, else a retry at its next slot; all others unchanged |
| `ReportScheduler.Scheduler.RunDueOnce` | app/services/report_schedule_service.py:132-245 | a pass recovers, picks the first due rows and serves each as `ServedExactly` has it, all other rows unchanged; its counts add up |
| `DispatchQueue.Queue.EnqueueAndSubmit` | app/services/notification_dispatch_queue.py:14-41 | the row is stored before, and whether or not, the job is accepted |
| `DispatchQueue.Queue.AlreadySentRecipients` | app/services/alert_service.py:175-189 | the recipients with a SENT row for job and channel |
| `DispatchQueue.Queue.LogResults` | app/services/alert_service.py:191-213 | one row per result, with its outcome |
| `DispatchQueue.Queue.SendAll` | app/services/alert_service.py:281-299 | each recipient tried once; the outbox grows by those reached |
| `DispatchQueue.Queue.ReadPlan` | app/services/alert_service.py:232-276 | the plan names exactly those owed: found for a channel that was asked for, by the job for a new alert and by the alert for a resolved one, without a SENT row |
| `DispatchQueue.Queue.SendBoth` | app/services/alert_service.py:278-299 | mail before text messages, both tried in full |
| `DispatchQueue.Queue.LogChannel` | app/services/alert_service.py:303-319 | one channel's rows all stored or, if the commit fails, none |
| `DispatchQueue.Queue.LogBoth` | app/services/alert_service.py:301-319 | a failed commit leaves out its own and the later rows only |
| `DispatchQueue.Queue.SendAndLog` | app/services/alert_service.py:278-319 | undisturbed, every planned recipient has one new row and those reached one message |
| `DispatchQueue.Queue.Deliver` | app/services/alert_service.py:224-319 | undisturbed, exactly those owed get one new row with their outcome, and a message if reachable; nothing else is logged or sent |
| `DispatchQueue.Queue.StartJob` | app/services/notification_dispatch_queue.py:58-78 | a DONE job is left alone, any other is in progress with one more attempt |
| `DispatchQueue.Queue.DropJob` | app/services/notification_dispatch_queue.py:58-78 | a failed first commit leaves the job as it was |
| `DispatchQueue.Queue.FinishJob` | app/services/notification_dispatch_queue.py:80-89 | DONE or FAILED is recorded, or the job stays in progress |
| `DispatchQueue.Queue.RunStarted` | app/services/notification_dispatch_queue.py:80-89 | a raised delivery ends FAILED, an undisturbed one DONE |
| `DispatchQueue.Queue.RunJob` | app/services/notification_dispatch_queue.py:58-89 | the whole run for every combination of faults; without a fault everyone found for a channel that was asked for, and without a SENT row, gets one new row and if reachable one message, nobody else anything, and the job ends DONE |
| `DispatchQueue.Queue.Crash` | app/core/notification_executor.py:16-28 | a stopped process forgets its submitted jobs and keeps the rows |
| `DispatchQueue.Queue.RecoverRows` | app/services/notification_dispatch_queue.py:93-115 | exactly the pending jobs out of attempts fail, exactly the others are resumable |
| `DispatchQueue.Queue.RecoverPendingJobs` | app/services/notification_dispatch_queue.py:91-139 | pending jobs with attempts left, and no others, are submitted; those without fail; all other rows stay |
| `TrainFeed.Feed.IngestSorted` | app/api/v1/integrations.py:154-225 | the loop stores the fold or, on a missing station, nothing; accepted + duplicates + rejected = records, each as judged against the state before |
| `TrainFeed.Feed.IngestTrainPositions` | app/api/v1/integrations.py:126-225 | a batch is refused as `RefusalExactly` has it, with no effect; else the above; the updates are the records that moved a train |
| `Retention.Store.BatchedDelete` | app/utils/db_batch.py:7-35 | it ends, having removed exactly the matching rows and counted them; a batch size of 0 removes none |
| `Retention.Store.QueryBuckets` | app/simulator/retention.py:51-64 | the buckets with old rows, once each, by station and hour |
| `Retention.Store.QueryPage` | app/simulator/retention.py:69-71 | a page is a stretch of one and the same list |
| `Retention.Store.UpsertHourlyBatch` | app/simulator/retention.py:20-46 | the page's buckets are written, nothing else |
| `Retention.Store.RollUpPage` | app/simulator/retention.py:69-74 | one page more of the list is written |
| `Retention.Store.Rollup` | app/simulator/retention.py:66-78 | the paged loop equals one whole group-by; a page size of 0 writes nothing |
| `Retention.Store.RollupAndDelete` | app/simulator/retention.py:48-85 | a run with positive sizes is the pass of the theorems |
| `Retention.Store.RawSums` | app/services/analytics_service.py:48-65 | one sum for each wanted station with raw rows in the window |
| `Retention.Store.AddHourly` | app/services/analytics_service.py:67-84 | hourly sums are added, from zero for a station without raw rows |
| `Retention.Store.TrafficAggregates` | app/services/analytics_service.py:28-91 | a line for exactly the stations with rows of either kind, each the window's sum and its average to a tenth |
| `JourneyService.Service.ApplyLiveStateDelta` | app/services/crowd_service.py:77-96 | the row, created at zero if missing, becomes max(0, count + delta) |
| `JourneyService.Service.CheckIn` | app/services/journey_service.py:41-74 | 404 exactly for an unknown station, 400 exactly for equal ones or a journey of the user still under way, no effect then; else one new active journey and one more at the source |
| `JourneyService.Service.CheckOut` | app/services/journey_service.py:76-115 | 404 for a foreign or missing journey, 400 for a completed one, no effect then; else completed, one less at the source and one more at the destination |
| `JourneyService.Service.MoveCounts` | app/services/journey_service.py:101-105 | one less at the source but not below zero, one more at the destination, whichever is locked first |

## Left out

- HTTP layer, schemas, authentication, rate limits, metrics, logs, migrations: no hard property.
- SMTP, Twilio, Redis networking and reconnect backoff: a send or a call is an input that succeeds or fails; what a provider delivered before reporting an error is not modelled.
- Predictors, chatbot, geo code, haversine fares: outside this model.
- ElectionProcess.LeaderElection.ElectionTick: one tick is one step; its awaits do not interleave with the other steps of its own process, and Redis expires a key exactly a lease after it was set.
- ElectionOutage.StartupHole: no liveness is claimed once a failed worker has ended the election loop.
- Seconds are `real` in the election and `int` elsewhere; clocks of different processes are one clock.
- ConnectionManager.Manager.Connect: the connection cap straddles an await and does not hold strictly, so no bound is stated; a failed snapshot send and the reaper only disconnect.
- ConnectionManager.Manager.SendLatestState: the dictionary growing during the sends, which aborts them, is left out.
- LateJoin.LateJoinerConverges: sends to one socket are first in, first out and succeed; a client with a failed send is disconnected.
- CsvSimulator.Simulator.LoadCsv: pandas is a slice of rows, a station's rows are contiguous as in the shipped file, and the saved replay position and gzip are left out.
- CsvSimulator.Simulator.CurrentCountFromRow: sums are `real`, so float rounding is not modelled.
- TrainMotion.TrainSimulator.Track: one train at a time, so a fault is this train's and the rows of the others that the failed tick rolls back are not modelled; rounding of shown progress is left out.
- TrainMotion.TrainSimulator.RunTicks: one fixed route and no fault; the pauses and the other trains between ticks are left out.
- EtaWalk.WalkEtaSeconds: sums are `real`; the source adds floats.
- ReportScheduler.Scheduler.RunDueOnce: a pass with no other session at the table; the crash and edit interleavings are in ReportRuns, two workers in ReportOverlap.
- DispatchRuns.AttemptsAreBounded: one process; several are in DispatchProcesses, and so for the other results of DispatchRuns.
- DispatchProcesses.AttemptsAreBounded: reading and writing a job row is one step; two processes that interleave them count one attempt for two, and the bound on messages is not claimed for them.
- DispatchQueue.Queue.RunJob: one process, without another thread in between; interleaved workers, crashes and restarts are the machine in Dispatch. Bell notifications are left out.
- TrainFeed.Converges: a state is the modelled columns; `created_at` of a location, which the first insert fixes, depends on the order of delivery. The crowd feed, the clean-up of old events and the simulator may have left anything in the tables before, but take no step between the batches.
- TrainFeed.Feed.IngestTrainPositions: codes are taken as already stripped; the broadcast of the updates is returned, not sent.
- Compaction.PassKeepsExactly: averages are `real` quotients, rounded in the report to a tenth with ties to the even one; the source rounds floats. Windows that cut through an hour are not preserved, since an hourly row counts by its start.
- Retention.Store.RollupAndDelete: no row arrives during the pass.
- Retention.Store.TrafficAggregates: the city, station and line filters are one set of wanted stations; the line filter is a join in the source, and rows it repeats for a station on several matching lines are not modelled.
- Convergence of the crowd sensor feed: a station's first row takes the server's time there.
- JourneyRuns.NeverDeadlocked: foreign-key share locks and the plain reads before the first lock are left out; they wait for none of the rows here.
- JourneyService.Service.CheckIn: runs without another transaction in between; interleavings are in JourneyRuns.
