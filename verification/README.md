# Verified model of the library manager

The node driver keeps an on-disk cache of instrumentation libraries. Volumes are
linked to libraries; a library whose last link goes away is removed, at once or
after a delay. Publishes, unpublishes, timers and shutdown run concurrently. This
project models that cache in Dafny 4.11 and proves what keeps it safe.

## How the model is laid out

| file | what it models |
|---|---|
| `Records.dfy` | the flat schema and its five transactions as functions on values |
| `Database.dfy` | the database object, one method per transaction, and `Snapshot` as a loop |
| `Aggregates.dfy` | the per-package sums behind the gauges, defined without any order |
| `Migration.dfy` | the upgrade from the nested buckets, as functions and as the transaction's loops |
| `Store.dfy` | the directory tree under the store's base path |
| `Locker.dfy` | the keyed lock, down to its entries, reference counts and mutexes |
| `LockNames.dfy` | the strings that key the lock table, and the step machine's locks as sessions of the locker |
| `Scheduler.dfy`, `Cleanup.dfy` | the delayed cleanup strategy: its critical sections and its history |
| `EarlyStarts.dfy`, `Timers.dfy` | when a cleanup can start early; what stops and reschedules do to timers |
| `Strategy.dfy` | the strategy as an object |
| `Protocol.dfy` | publish, unpublish, cleanup, timers and stop as one step machine |
| `Safety.dfy` | the invariant of the step machine and what follows for whole runs |
| `Progress.dfy` | lock order, absence of deadlock, a decreasing measure |
| `Reclaim.dfy` | no cleanup is lost while the database is open; the store ends exact |
| `Closing.dfy` | what a stop that closes the database under calls in flight leaves behind |
| `Calls.dfy` | one call per volume: from the link to the unlink of one call, in any interleaving |
| `Outcomes.dfy` | what a publish or an unpublish has done when it returns, in any interleaving, by what its steps met |
| `Mounts.dfy` | mounted implies linked implies stored, and exactly where that ends |
| `Metrics.dfy`, `Manager.dfy` | the gauges, and the manager's operations as methods run one at a time |
| `Sequential.dfy` | the step machine agrees with those methods when a call runs alone |
| `FromRest.dfy` | one publish, unpublish, timer or stop from start to end with nothing else in flight |
| `ImageReference.dfy`, `ImageCache.dfy` | the image string and the digest cache it keys |

In the step machine one step is one lock operation, one transaction, one store
operation, one registry call or one mount operation of one thread. A thread's next
program counter (`PcAfter`), the lock it takes or gives back (`Wants`, `Drops`) and
the data it writes (`DbAfter`, `StoreAfter`, `MountsAfter`, `QueueAfter`) are
separate functions of the same program counter. Everything that the outside decides
is in the `Choice` of a label, and a run is a list of labels, so a statement about
every list is a statement about every interleaving of any number of threads. A crash
is a label like any other: it drops threads, locks, pending cleanups and timers, and
keeps the database, the store and the mounts.

`Config` names what a theorem assumes about the outside: `reliable` (no crash, and the
bookkeeping steps of publish and cleanup succeed while the database is open), `orderly`
(one call in flight per volume, as the "Concurrency" section of the CSI specification
asks), `unmounts` (an unmount that reports success has unmounted), `revalidates` (the
source path of a volume that is mounted goes on resolving inside its library) and
`deletion` (something else may empty store directories). Safety and progress need none
of the first four.

The lock table of the step machine is the abstract keyed lock that `Locker.dfy` is
proved to implement over whole runs: `LockNames.StepIsKeyedLockStep` shows that every
step takes or gives back one name of that lock, in a session of its own thread and key.
Database transactions are atomic and serializable, as the comment at
`pkg/librarymanager/db.go:83-89` says, and fail once `Stop` has closed the database. A
rename is all or nothing; a failed removal may leave any content or none behind.

## Where the code does less than one might expect

These are results of the model. Each has an input or a run that shows it, and the exact
condition under which the stronger statement does hold.

- Every publish validates the source path again, and a failure rolls back whether or not
  this call made the link (`pkg/driver/publishers/library.go:146-152`). A repeated publish
  of a mounted volume whose validation meets an I/O error so unlinks it, and its cleanup
  deletes the mounted library. `bindUnmount` only logs a failed unmount and goes on, with
  the same end. `Mounts.BothAssumptionsAreNeeded` gives both runs.
  `Calls.UnlinkStrandsIff` says for a whole call when its volume ends mounted and
  unlinked, `Mounts.MountsStayBackedIff` when all mounts stay backed in a whole run, and
  `Manager.RollbackConservesIff` when a rollback restores the links: exactly when the
  volume was not linked before.
- `LibraryManager.Stop` closes the database as soon as the cleanup strategy has stopped
  (`pkg/librarymanager/librarymanager.go:172-175`), and the driver runs it before the
  server waits for its calls (`cmd/csi_registration.go:71-76`). `Closing.CloseOrphansALibrary`
  is a run in which nothing fails but the transactions after the close, and a library
  stays for good. `Closing.StopAlwaysEndsExactIff`: the store ends exact in every
  continuation exactly when, at the close, every orphan is about to be removed and no
  publish can still store another; any other orphan is owed by another call.
- A timer callback already under way takes an entry that was scheduled after it, so a
  cleanup can start before its delay is over; `EarlyStarts.StaleCallbackTakesNewEntry` is
  such a run. `EarlyStarts.CallbackStartsEarlyIff`: a callback starts early exactly when the
  timer of the entry it finds has not gone off. `EarlyStarts.ScheduleCanStartEarlyIff`: a
  scheduled cleanup can start early in some continuation exactly when a timer of the same
  library that the schedule did not stop is armed or has gone off.
- Seeding from legacy metadata resets counters. `Migration.MigratedCountersMatchIff`: the
  counters of a migrated database are right exactly when no flat record already linked
  a volume to a library that has legacy metadata. `Migration.FlatLinkBesideMetadata` is
  such a file; only a downgrade and a second upgrade can leave both kinds of buckets.
- `AddLibrary` refuses a blank package while the migration keeps it.
  `Migration.MigrationIsReplayIff`: migrating equals replaying exactly when no such entry
  has a size. `Migration.BlankPackageWithSize` is such a file; a legacy record whose
  `package` field was omitted reads as blank.
- `Manager.PublishAgreesIff`: the gauges follow a publish exactly when the record of the
  digest is unlabelled or labelled with the name of the request.
  `Manager.TwoNamesForOneDigest` is a publish of one digest under a second name, as
  when two repositories hold the same image.
- A failed fetch can change the digest cache: `ImageCache.FailedFetchChangesCacheIff`
  says it does exactly when the entry it looked at had expired, and
  `ImageCache.ExpiredEntryIsDropped` is such a fetch. It asks the cache first, which the
  driver's own requests never do, as they set `pull`
  (`pkg/driver/publishers/library.go:127`).
- Different requests can share an image string. `ImageReference.SharesImageWithPlainIff`:
  a request shares its image with a different plain one exactly when it is not plain
  itself and the first separator after the image's last slash is the one that what
  follows asks for. `ImageReference.EveryPartOfPlainIsNeeded` has one pair for each part
  of `Plain`; names with a slash, such as `dd/lib` under `gcr.io` beside `lib` under
  `gcr.io/dd`, are accepted by `NewLibrary` and give valid references. For a slash in a
  version the image has a separator before a slash of its path, which the reference
  grammar that `FetchDigest` checks first (`pkg/librarymanager/imagecache.go:52`, not part
  of this model) does not have.

## Model

| member | source | states |
|---|---|---|
| Safety.LibraryInUseIsNeverRemoved | pkg/librarymanager/librarymanager.go:188-444 | after every run of any number of publishes, unpublishes, timers, stops and crashes, each linked volume's library has a non-empty directory |
| Safety.OnlyDeletionTouchesLinkedDirectory | pkg/librarymanager/librarymanager.go:405-434 | no step of the driver changes or removes the directory of a library that some volume is linked to, even when the outside deletes others |
| Safety.CountersMatchLinks | pkg/librarymanager/db.go:235-348 | in every reachable state counters equal links, every linked library has a positive counter, and a cleanup about to delete finds no link |
| Safety.RecordGoesAfterDirectory | pkg/librarymanager/librarymanager.go:430-437 | in every reachable state, a step that drops a library's record finds its directory gone and no link to it |
| Safety.CrashLeavesBootableState | pkg/librarymanager/librarymanager.go:293-310 | a crash between any two steps of any run leaves database and store in a state that satisfies what booting requires |
| Safety.NextKeepsInv | pkg/librarymanager/librarymanager.go:188-444 | every enabled step keeps counters, stored links, the lock table and what each thread relies on |
| Safety.StepRespects | pkg/librarymanager/librarymanager.go:266-276 | without a volume's key a step leaves its record alone; without a library's key it leaves the directory, its content and the label alone and adds no link or count (links may go); without the mutex it leaves the scheduler alone |
| Safety.MutualExclusion | pkg/librarymanager/librarymanager.go:209-229 | two threads never hold the same volume key, library key or the scheduler mutex |
| Safety.LinkNeverMoves | pkg/librarymanager/librarymanager.go:218-264 | no step re-points a linked volume or rewrites its record |
| Safety.RepublishWritesNothing | pkg/librarymanager/librarymanager.go:223-264 | while its volume is linked, no step of a publish writes to the database |
| Safety.RepublishReturnsTheSameLibrary | pkg/librarymanager/librarymanager.go:215-264 | as long as a volume stays linked, every publish of it that succeeds returns the library it was linked to at the start, whatever runs beside it |
| Progress.LockOrder | pkg/librarymanager/librarymanager.go:374-381 | a thread waits only for a lock that ranks above all it holds: volume, then scheduler, then library |
| Progress.NeverDeadlocks | pkg/librarymanager/librarymanager.go:215-276 | in every reachable state with an unfinished thread, some thread can take a step |
| Progress.InternalStepDecreases | pkg/librarymanager/cleanup.go:81-146 | every step of a call in flight and every timer going off decreases one measure |
| Progress.RunsAreBounded | pkg/librarymanager/librarymanager.go:188-444 | a run that starts no new call is no longer than the measure of its first state, however it interleaves |
| Progress.StuckMeansQuiescent | pkg/librarymanager/librarymanager.go:188-444 | when no step is left, every call has returned and no timer is armed |
| Progress.Drains | pkg/librarymanager/librarymanager.go:188-444 | from every reachable state the calls in flight and the timers can all finish within the measure, with the database open or closed |
| Reclaim.NoCleanupIsLost | pkg/librarymanager/librarymanager.go:383-443 | in reliable runs, while the database is open, a stored library without links is pending, or some thread has still to link it, schedule its cleanup or remove it |
| Reclaim.StoreEndsExact | pkg/librarymanager/cleanup.go:42-146 | in reliable runs, once all calls have returned with the database still open, under the immediate strategy, after the strategy's stop or after the last timer, the store holds the linked libraries and nothing else |
| Closing.StopEndsExactIff | pkg/librarymanager/librarymanager.go:171-175 | when the calls in flight at a closing stop have returned, the store is exact if and only if no orphan was unsettled at the close and no publish stored another one after it |
| Closing.StopAlwaysEndsExactIff | cmd/csi_registration.go:71-76 | the store ends exact in every continuation of a closing stop exactly when, at the close, each orphan is about to be removed and no publish can still store one; every other orphan is owed by another call |
| Closing.CloseOrphansALibrary | pkg/librarymanager/librarymanager.go:397-419 | a run in which an unpublish is overtaken by the close between its unlink and its schedule, and the library stays for good |
| Reclaim.RunKeepsTimers | pkg/librarymanager/cleanup.go:94-121 | while the strategy runs, each pending entry has its timer armed or a callback on its way |
| Calls.CallKeepsItsVolume | pkg/driver/publishers/library.go:46-117 | while a call is between its link and its unlink, no other call, timer or stop changes its volume's record or mount |
| Calls.RollbackUndoesItsLink | pkg/driver/publishers/library.go:146-152 | whatever interleaves, a rolled-back publish takes back exactly the link and the count it added, of the same library, leaves the volume unlinked and every other link and counter alone |
| Calls.UnlinkStrandsIff | pkg/driver/publishers/library.go:101-117 | from a failed validation or an unmount to the unlink, whatever interleaves, the volume ends mounted and unlinked exactly when it was mounted and the validation failed or the unmount was silent |
| Outcomes.PublishOutcome | pkg/driver/publishers/library.go:46-155 | with orderly calls, whatever interleaves, a publish that returns has left its volume linked, stored and mounted if none of its steps failed; link and mount as they were if one failed before the validation; unlinked if the validation failed and the unlink did not; linked for a retry if only the mount failed |
| Outcomes.UnpublishOutcome | pkg/driver/publishers/library.go:88-117 | with orderly calls, whatever interleaves, an unpublish that returns has left an unlinked volume alone, and has taken link and mount of a linked one exactly when none of its steps failed, the mount unless its unmount was silent |
| FromRest.PublishMounts | pkg/driver/publishers/library.go:46-83 | a lone publish that gets a library and validates ends with its volume linked to that library, the library stored, and mounted on it unless something was mounted before |
| FromRest.FailedPublishLeavesNothing | pkg/librarymanager/librarymanager.go:266-296 | a lone publish that gets no library ends with database, store and mounts as they were |
| FromRest.FailedValidationRollsBack | pkg/driver/publishers/library.go:146-152 | a lone first publish in which only the validation fails ends with all links, counters and mounts as they were and the library cleaned up or queued for it |
| FromRest.UnpublishRemoves | pkg/driver/publishers/library.go:88-117 | a lone unpublish of a linked volume ends with it unlinked and unmounted, one count less, its library cleaned up or queued for it, and nothing else changed |
| FromRest.TimerCleans | pkg/librarymanager/cleanup.go:102-116 | a timer that goes off with nothing else in flight takes its library's entry and removes the library exactly if nothing links to it; without an entry it changes nothing |
| FromRest.StopSweeps | pkg/librarymanager/librarymanager.go:171-175 | a lone stop ends with the database closed, the strategy stopped, nothing pending, and exactly the unused libraries among the pending ones gone |
| Mounts.StepKeepsMountsBackedIff | pkg/driver/publishers/library.go:46-155 | with orderly calls the steps that leave a mount without its link or library are exactly the unlinks of mounted volumes |
| Mounts.MountsStayBackedIff | pkg/driver/publishers/library.go:46-155 | all mounts are backed in every state of a run exactly when no step of it unlinks a mounted volume |
| Mounts.MountedImpliesLinkedImpliesStored | pkg/driver/publishers/library.go:46-117 | with orderly calls, unmounts that unmount and mounted volumes that validate again, in every interleaving across volumes and crashes, a mounted volume is linked to what it mounts and that library is stored |
| Mounts.UnlinkKeepsMountsBackedIff | pkg/librarymanager/librarymanager.go:374-390 | an unlink keeps every mount backed exactly when its volume is no longer mounted, also where calls overlap or directories vanish |
| Mounts.SilentUnmountStrands | pkg/driver/publishers/bindmount.go:97-101 | from any state at rest, one unpublish whose unmount fails silently can strand the mount of a library's only volume on a deleted directory |
| Mounts.FailedValidationStrands | pkg/driver/publishers/library.go:146-152 | from any state at rest, one repeated publish whose validation fails can do the same |
| Mounts.BothAssumptionsAreNeeded | pkg/driver/publishers/library.go:99-155 | one state and two runs, each breaking one of the two assumptions, that strand a mount |
| Locker.MutualExclusion | pkg/librarymanager/locker.go:29-61 | in every interleaving two sessions never own one id, also while a dropped entry is still locked |
| Locker.EntriesAreShared | pkg/librarymanager/locker.go:32-38 | all sessions that hold or wait on an id share the table's entry, its count is their number, and an id nobody uses has no entry |
| Locker.RefinesKeyedLock | pkg/librarymanager/locker.go:29-61 | every step of a session is a step of the abstract keyed lock on its own id, and takes the id exactly when it gets the entry's mutex |
| Locker.RunsRefineKeyedLock | pkg/librarymanager/locker.go:29-61 | every run of the locker, new calls included, is a run of the abstract keyed lock from nothing owned to the final owners |
| Locker.UnlockFindsItsEntry | pkg/librarymanager/locker.go:48-60 | `Unlock` never misses its entry and unlocks the mutex its own `Lock` locked |
| Locker.NoLostWakeup | pkg/librarymanager/locker.go:40-60 | a session can only be stuck waiting for an id that another session holds |
| Locker.SessionsFinish | pkg/librarymanager/locker.go:29-61 | sessions left to run, in any order, take a number of steps fixed by where they are, and can only stop with all of them finished, the table empty and nothing locked |
| Locker.FinishedSessionsOwned | pkg/librarymanager/locker.go:29-61 | no session finishes without having owned its id |
| LockNames.NamesNeverCollide | pkg/librarymanager/librarymanager.go:316-320 | volume locks and library locks never share a key, for arbitrary volume IDs and hexadecimal digests |
| LockNames.StepIsKeyedLockStep | pkg/librarymanager/librarymanager.go:209-229 | every step of the protocol is, under those names, an acquisition or a release of the abstract keyed lock by the session of its thread and key, or leaves it alone |
| Cleanup.EntriesAreConsumedOnce | pkg/librarymanager/cleanup.go:81-146 | in any order of operations each entry leaves the map at most once and only if not pending; starts never exceed schedules, and the difference is replaced or pending |
| Cleanup.NoScheduleIsLost | pkg/librarymanager/cleanup.go:94-146 | every schedule is pending or followed by a cleanup; after a stop, followed by one |
| Timers.EveryScheduleIsServed | pkg/librarymanager/cleanup.go:81-146 | over every run, the calls of `ScheduleCleanup` for a library are the cleanups started, the entries replaced and the one pending, which none is after a stop |
| Timers.PendingEntryCanStart | pkg/librarymanager/cleanup.go:102-116 | in every reachable state a pending entry is started, and its timer used up, by that timer going off and calling back |
| Timers.StopStartsEverything | pkg/librarymanager/cleanup.go:128-146 | after every run a stop leaves the strategy stopped with nothing pending, has started each pending cleanup once and stopped its timer, and does nothing the second time |
| Timers.ReplacedTimersAreStopped | pkg/librarymanager/cleanup.go:94-98 | over every run the timer of a replaced entry is never armed again, and an armed timer is its library's pending entry or one that a stale callback started |
| EarlyStarts.CallbackStartsEarlyIff | pkg/librarymanager/cleanup.go:102-116 | in every run a callback that finds an entry starts its cleanup, and starts it before its delay is over exactly when that entry's own timer has not gone off |
| EarlyStarts.ScheduleCanStartEarlyIff | pkg/librarymanager/cleanup.go:94-121 | in every run a scheduled cleanup can start early with the next callback exactly when a callback for the library is under way, and in some continuation exactly when a timer of the library that was not stopped is armed or has gone off |
| EarlyStarts.StaleCallbackTakesNewEntry | pkg/librarymanager/cleanup.go:102-116 | such a run: the callback of the first timer starts the cleanup of the second schedule |
| Strategy.DelayedCleanupStrategy.ScheduleCleanup | pkg/librarymanager/cleanup.go:81-122 | on a running strategy the library has a new entry with a newly armed timer, the timer of the entry it had is no longer armed, and every other timer runs on; on a stopped one the cleanup runs at once |
| Strategy.DelayedCleanupStrategy.RunCallback | pkg/librarymanager/cleanup.go:102-116 | the callback consumes whatever entry its library has by then, or does nothing |
| Strategy.DelayedCleanupStrategy.StopAll | pkg/librarymanager/cleanup.go:128-146 | the strategy ends stopped with nothing pending, each entry started once and its timer stopped; a second stop does nothing |
| Records.AddLibraryKeeps | pkg/librarymanager/db.go:206-231 | recording a library keeps all links and counters |
| Records.RemoveLibraryKeepsIff | pkg/librarymanager/db.go:233-247 | dropping a record keeps counters right exactly when nothing links to the library |
| Records.LinkVolumeKeeps | pkg/librarymanager/db.go:249-298 | linking adds one volume to one library's links and one to its counter, and nothing else |
| Records.UnlinkVolumeKeeps | pkg/librarymanager/db.go:300-348 | the counter guard never suppresses a decrement, and exactly one link goes away |
| Records.AddLibraryLabels | pkg/librarymanager/db.go:206-231 | only blank arguments are refused; a library is relabelled and resized, keeps its counter, and no other record changes |
| Records.LinkVolumeStamps | pkg/librarymanager/db.go:249-298 | only blank arguments are refused; a new link has its library, stamp and origin, the library keeps label and size, and a link that exists is kept |
| Records.UnlinkVolumeReports | pkg/librarymanager/db.go:300-348 | only a blank ID is refused; the volume's record goes, its library and label are reported, and nothing else changes but the counter |
| Records.UnlinkUndoesLink | pkg/librarymanager/db.go:260-348 | unlinking after linking restores every volume record and every library record |
| Database.Database.AddLibrary | pkg/librarymanager/db.go:206-231 | blank arguments fail without effect; otherwise links and the counter are kept |
| Database.Database.LinkVolume | pkg/librarymanager/db.go:249-298 | a tracked volume is left alone; consistency is kept |
| Database.Database.UnlinkVolume | pkg/librarymanager/db.go:300-348 | reports the library and package of the removed link; consistency is kept |
| Database.Database.GetLibraryForVolume | pkg/librarymanager/db.go:350-371 | the linked library, blank for an untracked volume, an error for a blank ID |
| Database.Database.GetLibrary | pkg/librarymanager/db.go:373-403 | the record and whether there is one, an error for a blank ID |
| Database.Database.TakeSnapshot | pkg/librarymanager/db.go:405-438 | the loop gives, for every package and in any order of records, the directly defined count, bytes and links, and no other keys |
| Database.SnapshotCountsVolumes | pkg/librarymanager/db.go:420-432 | the links of a package in a snapshot are the number of volumes whose library has that package |
| Aggregates.VolumeLinksCountsVolumes | pkg/librarymanager/db.go:428-430 | the counters of a package's records add up to the number of its volumes |
| Migration.DatabaseFile.Upgrade | pkg/librarymanager/db.go:122-199 | succeeds exactly when every metadata value is readable, then the legacy buckets are gone and the loops have given the value-level migration; otherwise the file is unchanged |
| Migration.MigrationSucceedsIff | pkg/librarymanager/db.go:132-149 | a migration fails exactly on an unreadable metadata value |
| Migration.EachVolumeMigratesOnce | pkg/librarymanager/db.go:151-187 | each legacy volume ends with one unstamped record naming the first library in key order that lists it, and tracked volumes keep theirs |
| Migration.MigrationKeepsLabels | pkg/librarymanager/db.go:132-149 | packages and sizes come from the metadata, or stay as they were |
| Migration.MigratedCountersMatchIff | pkg/librarymanager/db.go:139-187 | migrated counters match links exactly when no flat link pointed at a library with legacy metadata |
| Migration.FlatLinkBesideMetadata | pkg/librarymanager/db.go:132-149 | a file with a flat link to a library that has legacy metadata, whose migration leaves a link without a count |
| Migration.MigratedCountersSumToVolumes | pkg/librarymanager/db.go:122-199 | from empty flat buckets counters match links and add up to the number of distinct legacy volumes |
| Migration.MigrationIsIdempotent | pkg/librarymanager/db.go:189-198 | the legacy buckets are gone and a second run changes nothing |
| Migration.MigrationIsReplayIff | pkg/librarymanager/db.go:133-298 | migrating equals replaying through `AddLibrary` and `LinkVolume`, stamps aside, exactly when no blank package carries a size |
| Migration.BlankPackageWithSize | pkg/librarymanager/db.go:133-231 | a file with a blank package that has a size, whose migration differs from every replay |
| Metrics.LibraryListener.OnSnapshot | pkg/metrics/library_listener.go:74-90 | after seeding, the gauges agree with the database the snapshot describes, whatever they showed before |
| Metrics.LibraryListener.OnLibraryCached | pkg/metrics/library_listener.go:44-50 | the two cached series of the package show the new values and no other series changes, so all gauges agree with a database exactly when the values are that package's and the rest agreed before |
| Metrics.LibraryListener.OnVolumeLinked | pkg/metrics/library_listener.go:62-65 | the links series of the package shows the new value and no other series changes, so all gauges agree with a database exactly when the value is that package's and the rest agreed before |
| Manager.GaugesTrackTheDatabase | pkg/librarymanager/librarymanager.go:146-169 | after every operation of every sequential run, with one name per digest, each gauge equals a fresh snapshot, migrated unlabelled records included |
| Manager.PublishAgreesIff | pkg/librarymanager/librarymanager.go:278-313 | a successful publish of an unlinked volume keeps the gauges in step exactly when the record's label is blank or the requested name |
| Manager.TwoNamesForOneDigest | pkg/librarymanager/librarymanager.go:283-290 | a publish of a stored digest under a second name, after which the gauges disagree |
| Manager.PublishLinksAndStores | pkg/librarymanager/librarymanager.go:186-314 | a successful publish returns the library the volume is linked to from then on, which is stored; other links and existing directories are untouched |
| Manager.PublishSucceedsIff | pkg/librarymanager/librarymanager.go:188-314 | a publish succeeds exactly when the linked library, or else the resolved one, is stored or can be downloaded; otherwise nothing changes |
| Manager.PublishRecords | pkg/librarymanager/librarymanager.go:278-313 | the new link carries stamp and origin, a downloaded library its label, size and content, a cached one keeps them |
| Manager.RemoveTakesLink | pkg/librarymanager/librarymanager.go:383-398 | a removal takes the volume's link and one count and names the library; without a link it does nothing |
| Manager.CleanupRemovesIffUnlinked | pkg/librarymanager/librarymanager.go:422-437 | a cleanup removes directory and record exactly when no volume is linked to the library, changes nothing otherwise, and touches no other directory or link |
| Manager.RemoveKeeps | pkg/librarymanager/librarymanager.go:390-395 | unlinking keeps counters and gauges in step |
| Manager.CleanupKeeps | pkg/librarymanager/librarymanager.go:412-443 | a cleanup keeps counters and gauges in step |
| Manager.RollbackConservesIff | pkg/driver/publishers/library.go:147-152 | rolling back a publish restores the links exactly when the volume was not linked before; then it restores all counters, before and after its cleanup, and leaves directories in use alone |
| Manager.RollbackOfOldLink | pkg/driver/publishers/library.go:147-152 | rolling back a repeated publish takes one count from the linked library, and its cleanup deletes the directory exactly when this was its only volume |
| Manager.LibraryManager.constructor | pkg/librarymanager/librarymanager.go:137-156 | opening the manager leaves gauges that agree with the persisted state |
| Manager.LibraryManager.PackageStats | pkg/librarymanager/librarymanager.go:158-169 | the three aggregates of a package as defined directly on the records |
| Manager.LibraryManager.GetLibraryForVolume | pkg/librarymanager/librarymanager.go:188-314 | database, store, gauges and result are those of the value-level publish, on every branch |
| Manager.LibraryManager.RemoveVolume | pkg/librarymanager/librarymanager.go:368-401 | database, store and gauges are those of the value-level removal, and of the cleanup under the immediate strategy |
| Manager.LibraryManager.TryCleanupLibrary | pkg/librarymanager/librarymanager.go:403-444 | nothing happens to a library in use; otherwise directory and record go and the gauges are shown again |
| Sequential.PublishAloneIsSequential | pkg/librarymanager/librarymanager.go:188-314 | the steps of a publish that runs alone lead to the database, store and result of the sequential publish |
| Sequential.RemoveAloneIsSequential | pkg/librarymanager/librarymanager.go:368-444 | the steps of a removal that runs alone lead to the sequential result, with the cleanup done or queued as the strategy says |
| Store.Store.Get | pkg/librarymanager/store.go:82-100 | found exactly for a non-empty directory, an error for a blank ID or a file |
| Store.Store.Add | pkg/librarymanager/store.go:47-80 | an existing directory is kept, a non-empty source becomes the entry if the rename succeeds, anything else fails without effect |
| Store.Store.Remove | pkg/librarymanager/store.go:102-126 | success takes exactly one entry away; a failed removal touches no other entry |
| ImageReference.NewLibrary | pkg/librarymanager/library.go:21-39 | succeeds exactly when name, registry and version are given, with the given fields |
| ImageReference.ImageForms | pkg/librarymanager/library.go:56-68 | the three documented forms, for every name, registry, tag and digest |
| ImageReference.ImageDeterminesRequest | pkg/librarymanager/library.go:56-68 | equal image strings mean equal registry, name and version, across all three version forms |
| ImageReference.ParseIsInverse | pkg/librarymanager/library.go:56-68 | splitting an image at its last slash and the first separator after it gives back exactly the plain request it was built from |
| ImageReference.SharesImageWithPlainIff | pkg/librarymanager/library.go:56-68 | a request shares its image with a different plain one exactly when it is not plain and its image splits that way |
| ImageReference.EveryPartOfPlainIsNeeded | pkg/librarymanager/library.go:21-68 | for a slash, a colon and an at sign in a name and a slash in a version, a request whose image is that of a different plain one |
| ImageCache.RequestsNeverShareEntries | pkg/librarymanager/imagecache.go:77-105 | caching the digest of one request never shows up under a different one |
| ImageCache.CachedDigestsAreFresh | pkg/librarymanager/imagecache.go:50-105 | in every run of concurrent fetches a cached digest was returned by the registry for that image and stamped at most ttl before the clock value it was checked against |
| ImageCache.ServedDigestsComeFromTheRegistry | pkg/librarymanager/imagecache.go:50-75 | whatever a fetch returns, the registry returned it for that image |
| ImageCache.FetchedDigestIsServed | pkg/librarymanager/imagecache.go:56-105 | whatever other fetches run, a digest that a fetch cached is what every fetch that asks the cache gets until its deadline, also when the registry fails |
| ImageCache.PullBypassesCache | pkg/librarymanager/imagecache.go:48-62 | a fetch begun with `pull` never returns what the cache holds, whatever other fetches run |
| ImageCache.FailedFetchChangesCacheIff | pkg/librarymanager/imagecache.go:56-67 | a fetch that looked in vain and then fails has changed the cache exactly when the entry it looked at had expired, and no later lookup can tell |
| ImageCache.ExpiredEntryIsDropped | pkg/librarymanager/imagecache.go:99-102 | a failing fetch that drops an expired entry |
| ImageCache.ImageCache.FetchDigest | pkg/librarymanager/imagecache.go:50-75 | a valid entry is served whatever the registry says, a fetch that asks leaves one with its deadline, and a failure changes the cache exactly when it met an expired entry, which no later lookup notices |
| ImageCache.ImageCache.DigestFromCache | pkg/librarymanager/imagecache.go:88-105 | an entry is served up to its deadline and deleted after it |

## Left out

- Content against digest: a cache miss downloads by image string and not by the resolved digest (`pkg/librarymanager/librarymanager.go:293`), so stored content is arbitrary here.
- Registry and credential clients, archive extraction and the file-system checks of `validateLibrarySourcePath`: resolution and download may fail or yield anything, and validation may fail at any time.
- Publish gates (disabled, read-only, allowed registries) and the other publishers: a rejected request never starts a call.
- Mount and unmount system calls: a set of mounts, one target per volume; a remount of an existing mount is a step without effect.
- JSON encoding and bbolt pages: records are datatypes and buckets are maps, except legacy buckets, which are key-ordered lists; only legacy metadata can be unreadable.
- Time: timers may go off at any moment after they are armed; only the digest cache has a clock.
- Machine integers: sizes and counters are unbounded, so their wrap-around is not modelled.
- Counters, histograms and log lines: they have no effect on later behaviour.
- Migration.DatabaseFile.Upgrade: flat records are always readable, because only the transactions modelled here write them; an unreadable one would also fail the transaction.
- Manager.LibraryManager.GetLibraryForVolume: transactions and the rename succeed here; what failing ones do, in every interleaving, is in the steps of `Protocol.dfy`.
- Manager.LibraryManager.RemoveVolume: transactions succeed here; a failing unlink is a step of `Protocol.dfy`.
- Manager.LibraryManager.TryCleanupLibrary: the read, the removal and the record's deletion succeed here; their failures are steps of `Protocol.dfy`.
- Locker.RefinesKeyedLock: the locker is a step machine over values instead of an object, because its critical sections interleave; the Go mutex gives no fairness and none is claimed.
- Safety.NextKeepsInv: the concurrent manager is a step machine over values for the same reason; its sequential operations are the methods of `Manager.LibraryManager`.
- Manager.GaugesTrackTheDatabase: for operations run one at a time and transactions that succeed; concurrent calls can publish their snapshots in another order.
- ImageCache.CachedDigestsAreFresh: the age is measured against the clock value read before the cache's mutex is taken, as in the code.
