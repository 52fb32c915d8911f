# A verified model of ODDK's control plane

ODDK runs PostgreSQL instances in Docker containers and keeps one catalogue row per
instance.  Its hard part is staying correct when any Docker, disk or store call fails, or
the daemon dies between two of them.  This project models that part in Dafny and proves
what it promises, for every input, every pattern of failures and every crash point.

`dafny verify dfyconfig.toml` checks everything.

## How the model is built

- **Failures are nondeterministic.**  Every primitive that can fail chooses so with `*`; a
  contract therefore holds for every pattern of failures.  Ghost counters (`storeFaults` for
  catalogue writes, `hostFaults` for every other call, `leaks`, `faults`, `ghosts`, `unproven`,
  `stuck`, `rewrites`) record how many have happened, so "as long as catalogue writes land" reads
  `w.storeFaults == old(w.storeFaults)`, and "without faults" is a condition like any other: each
  operation is also proved to do what it is for when nothing fails.
- **Data has a history.**  Every change a client makes to an instance's data is appended to
  a log; the contents of a volume are a function of that log, and an archive is said to hold
  an instance's data only if it is a backup of that volume at named points of the log.
- **Crash points are states.**  A field `seen` collects every state the stores pass
  through; "at every crash point" is a quantifier over it.
- **Concurrency is interleaving.**  The executor, the cron queue and the scheduler are step
  machines; each step is one atomic action or one critical section of the source.
- **Foreign code is a parameter.**  Tar and zstd decoding and SHA-256 are functions of the
  bytes read, random choices and clocks are arguments or `*`.

| File | What it models |
|---|---|
| `Deployment.dfy` | containers, volumes, images, catalogue rows; one method per atomic effect |
| `ClusterRecreate.dfy` | recreate a container onto a new spec, or roll back |
| `Reconfigure.dfy` | change shape or image on top of that protocol |
| `InstanceSteps.dfy`, `Lifecycle.dfy` | create and destroy |
| `Upgrade.dfy` | major upgrade: verified backup, replace, restore |
| `Reconcile.dfy` | startup repair of statuses |
| `Sessions.dfy` | whole runs: any commands, any crashes, reconciliation after each |
| `Executor.dfy` | operation mutex, Close, Drain, Shutdown |
| `CronTracker.dfy`, `Scheduler.dfy` | cron queue, minute ticks and slots |
| `BackupShelf.dfy` | backup records, local files, offsite objects and how they are addressed |
| `Retention.dfy`, `OffsiteRetention.dfy`, `DropAll.dfy` | age-based retention of local and offsite copies, bulk deletion |
| `Confinement.dfy`, `AtomicFiles.dfy`, `Archives.dfy` | entry names, atomic replacement, publish and extract |
| `Base64.dfy`, `Keyfile.dfy` | the master key file |
| `RunReports.dfy`, `Migration.dfy` | run notifications, schedule migration |
| `Basics.dfy` | options and splitting of text |

## Where the code and its documentation, or the obvious claim, part ways

The model follows the code.  In each case below the exact condition is proved.

- A failed reconfigure can make the same request be turned away as "nothing to change":
  one that changes nothing, after a refusal or rollback on an instance in `error`; and one
  that changes something, if its shape was recorded but the final status write failed
  (`FailedAttemptBlocksRetry`, and the equivalence in `ReconfigureInstance`, which holds for
  every pattern of failures).
- A create that fails deletes its row even if the clean-up could not remove the container or
  volume.  The name is then lost to the control plane: destroy finds no row, create finds the
  volume or the container (`FailedCleanupStrands`, `StaysStranded`); where everything has a row,
  it can be freed again (`RecoverName`).
- A major upgrade gives the data back exactly if and only if no user database is marked as a
  template and the `postgres` database is there as a libc one: listing and metadata skip
  templates, and the locale guard skips `postgres` (`NothingLost`, `AdminProviderLost`,
  `TemplateDatabaseLost`).  While clients write, every database comes
  back as it was when it was dumped (`RestoredIsRecovered`), and what they write after that is
  lost (`LateWriteLost`).
- An upgrade finds out that the parameter group no longer fits, or that a container its row does
  not know holds the name, only when it creates the new cluster, with the old volume gone
  (`Verdict` in `Upgrade.dfy`).
- Two runs can be accepted for one slot if a run begins and ends while a tick is between
  its look at the log and its submission, if a run's log row is not written, or if the
  daemon restarts before an accepted run had its turn (`AtMostOnePerSlot`,
  `SecondAcceptance`, `RaceAcceptsTwice`, `LostRowAcceptsTwice`, `RestartAcceptsTwice`).
- The cron queue serves one task at a time unless the empty name is queued
  (`SingleWorkerIff`).
- A missing local archive that cannot be stat'ed counts as present and can take a place under
  the retention floor (`GhostsTakeTheFloor`).  The catalogue listing treats the same error as
  "missing" and drops a local-only record (internal/store/backup/backup.go:355-375), so this
  needs records with an offsite copy.  Offsite, copies recorded in another bucket do the same
  (`UnprovenFillTheFloor`).
- A key recorded under another bucket path is looked up and deleted under the current one.
  The object that was meant is reached exactly if its key lies beneath the configured path
  (`TargetIff`); otherwise retention and drop-all forget the record and leave the object
  behind (`ForgottenIff`, `MovedPathForgets`, `OrphanedIff`, `MovedPathOrphans`).
- A fault-free drop-all leaves the records that name an offsite copy outside the configured
  bucket (`ConvergesIff`).
- An interrupted run is documented to count as failed; once startup has marked its row it
  does not, unless a phase had recorded a failure (`InterruptedVerdict`).
- The `.pre-v1` copy of the key is exact at every crash point, but it is never synced, so a
  power cut can still lose it (`WriteLegacyBackup`).
- A drain promises nothing about operations unless it was called after Close
  (`DrainIsFinal`, `EarlyDrainPromisesNothing`).

## Model

| member | source | states |
|---|---|---|
| Deployment.World.Inspect | internal/docker/client.go:566-585 | a lookup by id or name finds a matching container, proves there is none, or is counted as a fault |
| Deployment.World.CheckImageExists | internal/docker/client.go:538-551 | an image counts as present only if it resolves; absent means unresolved or a fault |
| Deployment.World.RemoveContainer | internal/docker/client.go:485-500 | success leaves no matching container, also if there was none; failure may or may not have removed it; nothing else changes |
| Deployment.World.RemoveVolume | internal/docker/client.go:527-536 | success leaves no volume of that name; failure may or may not have removed it |
| Deployment.World.CreateNamed | internal/docker/client.go:341-352 | an id is fresh, the name was free and the image was resolved at that moment; a create that fails may have made the container all the same, unknown to anyone |
| Deployment.World.WriteRow | internal/store/instances/instances.go:75-165 | a row write lands whole or changes nothing |
| ClusterRecreate.ClearOld | internal/docker/client.go:443-466 | success means no container of the instance is left; one that ran is stopped before it is removed; only a failed call prevents it; at every crash point only its container differs |
| ClusterRecreate.RecreateContainer | internal/docker/client.go:422-473 | a preflight refusal changes nothing; anything else needs the image, the volume and a group that fits, and with those only a failed call prevents a rebuild; a failure leaves only what was there or an unstarted container of a create that failed; success is the one container of the new spec |
| ClusterRecreate.RecreateStartReady | internal/operations/cluster_recreate.go:64-90 | an id is reported whenever a container was built; success means that it was started and accepted connections, and without faults it does; one that did not come up is stopped unless that fails as well; volume, row and other instances untouched at every crash point |
| ClusterRecreate.PinRollbackImage | internal/operations/cluster_recreate.go:113-137 | the rollback spec is pinned to the image the instance's container really runs, found by id or by name; refused exactly if that image is gone or a lookup failed |
| ClusterRecreate.RollBack | internal/operations/cluster_recreate.go:138-177 | ends with a ready container of the previous spec recorded as running, which only a failed call prevents if that spec can be built, or with status error and every survivor reachable |
| ClusterRecreate.ApplyClusterChange | internal/operations/cluster_recreate.go:113-177 | every run ends in one of four outcomes (new spec ready and recorded; refusal with nothing changed; rolled back on the image really used and recorded running; error with every survivor named by the row or reachable by name); without faults it is the first exactly if image, volume, a fitting group and the old image are there, and the second otherwise; one failed call alone never ends in error if the previous spec can be built; volume and stored shape are untouched at every crash point |
| ClusterRecreate.ApplyMarked | internal/operations/rdbms_reconfigure.go:196-225 | the same outcomes under a transient status; after a refusal the previous status is back, unless it was error, in which case the transient one stays |
| Reconfigure.ResolveTarget | internal/operations/rdbms_reconfigure.go:102-158 | an accepted target is the request merged onto the row, with resources between the bounds and within the machine's, and a port in range and held by no other row; without faults exactly those are accepted |
| Reconfigure.Examine | internal/operations/rdbms_reconfigure.go:160-190 | the order of the checks: missing row, request, no-op unless in error, groups; without faults the first that applies is the answer |
| Reconfigure.CommitShape | internal/operations/rdbms_reconfigure.go:226-246 | field by field, each write lands while a ready container of the target shape is recorded; success means row, container and target agree and status is running |
| Reconfigure.ReconfigureInstance | internal/operations/rdbms_reconfigure.go:160-252 | at every crash point the stored shape has moved only if a ready container of the target shape is recorded; success means row, container and target agree; for every pattern of failures, exactly when the same request is refused afterwards; without faults the outcome is a function of where it began, success included |
| Reconfigure.FailedAttemptBlocksRetry | internal/operations/rdbms_reconfigure.go:174-239 | the two inputs on which a failed attempt blocks its retry: nothing to change on an instance in error, and a recorded shape whose final status write failed |
| Reconfigure.RecreateOnImage | internal/operations/rdbms_recreate.go:22-73 | the stored image and version move together, only while a ready container of the resolved image is recorded; otherwise rolled back to the image really used; without faults it succeeds exactly if the group is known and the change can be made |
| Lifecycle.CreateContainer | internal/docker/client.go:354-399 | an existing volume is never adopted nor an existing container touched; success is a container of the resolved image with a fresh volume; a failure leaves containers and volumes as they were, unless a creation failed although it took effect or the undoing failed; without faults, exactly what stands in the way is what is reported; rows untouched |
| Lifecycle.CleanupFailedCreate | internal/operations/rdbms_create.go:193-203 | the row goes last, whatever the removals did; something is left without a row only if one of these removals failed, which is counted as a leak, and only in the last state |
| Lifecycle.CreateInstance | internal/operations/rdbms_create.go:39-191 | from a free name, a container or volume has a row at every crash point, except in the last state after a leak (a clean-up removal that failed, or a failing creation that took effect); no other failure can do that; a container or volume that was there is never touched; success means a ready container recorded as running; without faults the outcome is a function of where it began, success included |
| Lifecycle.CheckRequest | internal/operations/rdbms_create.go:54-86 | a request passes only if the name has no row and the port is free, and without faults exactly then |
| Lifecycle.DestroyInstance | internal/operations/rdbms_delete.go:28-58 | the row goes only when no container and no volume of the name is left, and without faults it does |
| Lifecycle.FailedCleanupStrands | internal/operations/rdbms_create.go:193-203 | from every state with the name free, a create in the order of the code whose volume cannot be removed again is accounted for at every step but the last, and ends with a volume without a row |
| Lifecycle.StaysStranded | internal/operations/rdbms_create.go:39-203 | once a container or volume has no row, no sequence of creates and destroys frees or serves that name, whatever Docker does, as long as catalogue writes land |
| Upgrade.ClientsWrite | internal/operations/rdbms_major_upgrade.go:74-79 | clients of a running instance change its data at will, also between the dumps of two databases; every change is in the log, marked with the upgrade during which it was made |
| Upgrade.DumpDatabases | internal/operations/rdbms_backup.go:147-174 | the databases dumped are those listed at the start, each as it was at a moment of its own between the listing and the last dump |
| Upgrade.TakeVerifiedBackup | internal/operations/rdbms_major_upgrade.go:183-240 | success means a published archive that passed the checks: the databases listed at one point of the client writes, each dumped at its own later point, and the metadata read after the last; the volume changes by client writes alone; without faults and writes it fails exactly on what the guard refuses |
| Upgrade.CheckLocales | internal/operations/rdbms_major_upgrade.go:226-237 | accepts exactly the archives whose databases other than postgres are all libc |
| Upgrade.RetireContainer | internal/operations/rdbms_major_upgrade.go:258-270 | success means the container the row names is gone, stopped first if it ran, and with it every container of the instance the row knew of; only a failed call prevents it |
| Upgrade.RemoveOldVolume | internal/operations/rdbms_major_upgrade.go:271-277 | the volume goes only in a job that is checked and marked, from a state in which the container is gone and the volume held what the last client had left in it |
| Upgrade.TearDown | internal/operations/rdbms_major_upgrade.go:247-277 | the row says upgrading and the container is retired before that; the archive is still one of this volume under the whole log; a failure takes a failed call and is recorded as error |
| Upgrade.FreshTarget | internal/operations/rdbms_major_upgrade.go:278-321 | success is an empty cluster of the target spec that was started, accepts connections and is recorded; without faults only a container that holds the name or a group that does not fit prevents it |
| Upgrade.RestoreIntoCluster | internal/operations/restore_cluster.go:50-142 | success means every database of the metadata is restored from the archive, and nothing but postgres besides; without faults only a database that was not dumped prevents it |
| Upgrade.RestoredIsRecovered | internal/operations/restore_cluster.go:50-142 | a restored archive gives back the databases that were listed when the metadata was read, each with the contents it had at some moment while the dumps were taken |
| Upgrade.Finalize | internal/operations/rdbms_major_upgrade.go:348-372 | without store faults the row records image, version and running; at every crash point the row admits what is missing |
| Upgrade.UpgradeInstance | internal/operations/rdbms_major_upgrade.go:68-99 | at every crash point the old volume is there with what its clients left in it, or an archive that passed every check and is a backup of that volume taken during this upgrade, and then, provided the upgrading mark could be written, the row says upgrading or error unless the new cluster is whole; success gives back every database as it was when it was dumped, and exactly the data the instance began with if no client wrote; failures before the tear-down leave rows, containers and volume as they were; every later return is a full restore or status error, given store writes land; if no call fails and no client writes, it succeeds exactly if the instance can be planned for, its data passes the guard, its row knows its container and its group fits |
| Upgrade.QuietJob | internal/operations/rdbms_major_upgrade.go:68-99 | if no client wrote, the archive is the snapshot of the original data and every crash point with the old volume has exactly that |
| Upgrade.NothingLost | internal/operations/rdbms_list_databases.go:38-47 | restoring a guarded archive gives every listed database but postgres back exactly and no template database, and everything exactly if there was no template database and postgres was there as libc |
| Upgrade.AdminProviderLost | internal/operations/rdbms_major_upgrade.go:226-237 | an ICU postgres database passes the guard and comes back as libc |
| Upgrade.TemplateDatabaseLost | internal/operations/database_metadata.go:80-98 | a user database marked as a template passes every check and is gone |
| Upgrade.LateWriteLost | internal/operations/rdbms_major_upgrade.go:74-99 | for every upgradable instance and every late write, a run of the code's steps in which that write is what the removed volume held and the dump is what the upgraded instance holds |
| Reconcile.Decide | internal/daemon/reconcile.go:89-142 | never clears error, turns every interrupted or unknown status into error, and says running or stopped only of a container seen up or down |
| Reconcile.ReconcileComposes | internal/daemon/reconcile.go:28-87 | two passes settle exactly what one of them could reach, so repeating a pass changes nothing |
| Reconcile.ReconcileSettles | internal/daemon/reconcile.go:89-142 | in terms of Docker's own state: an interrupted, unknown or error status ends as error, a missing container means error, and otherwise the row says running over a container that is up, stopped over one that is down, and what it said over a paused or restarting one |
| Reconcile.ReconcileInstances | internal/daemon/reconcile.go:28-87 | the pass makes exactly the rows it could inspect and write tell that truth, none besides, all without faults; at every crash point every row is as it was or true |
| Sessions.Apply | internal/operations/rdbms_create.go:39-203 | at every crash point of any command nothing of another instance changes, the instance's data is held unless the command is destroy, only an upgrade or a destroy removes a volume, and only a create that leaked leaves something without a row; when no call fails and no client writes, each command does what it says: created and serving, freed, reshaped, switched, or upgraded with the data given back |
| Sessions.HeldComposes | internal/operations/rdbms_major_upgrade.go:68-99 | data held over two runs in a row is held over both: the contents of the volume, or an archive that misses at most what was written while one upgrade ran, counted from the first state |
| Sessions.QuietlyHeld | internal/operations/rdbms_major_upgrade.go:68-99 | data nobody wrote to is in the very same volume, or in an archive that is exactly its snapshot |
| Sessions.SafeStep | internal/daemon/reconcile.go:28-87 | one more command keeps the invariant of a run for every instance: rows, tidiness, and data in its volume or in an archive that misses at most what was written while one upgrade ran |
| Sessions.SafeReconcile | internal/daemon/reconcile.go:28-87 | so does any prefix of a reconciliation |
| Sessions.LocatedAt | internal/operations/rdbms_major_upgrade.go:68-99 | the volume an instance began with is there with every write to it, or was removed by an upgrade of that instance before which the volume held every write so far, whose own archive was taken while it ran, and after which nothing was written to that volume |
| Sessions.LocatedSince | internal/operations/rdbms_major_upgrade.go:68-99 | the same from any point of the run on, so for every instance that a run creates |
| Sessions.Run | internal/daemon/reconcile.go:28-87 | over any sequence of commands, client writes, restarts and crashes: no more names hold a container or volume without a row than creates leaked, and none without a leak; every instance that is not destroyed keeps its row, and its volume with all its clients wrote or an archive from the one upgrade that removed it; data nobody wrote to is in the very same volume or in its exact snapshot |
| Sessions.CrashedUpgradeIsAdmitted | internal/daemon/reconcile.go:89-142 | after a crash anywhere in an upgrade and a restart, the old volume is there with its clients' data, or a checked archive of it is and the row says error unless the new cluster is complete |
| Sessions.RecoverName | internal/operations/rdbms_delete.go:28-58 | after any run, reconcile plus destroy without further faults free every name that has nothing left without a row |
| Executor.InvNext | internal/operations/executor.go:54-152 | every step keeps the invariant: whoever needs the mutex has it, whoever has it is at a point that will release it, and nothing runs once shutdown has seen it free |
| Executor.OneWriterAtATime | internal/operations/executor.go:54-117 | in every reachable state at most one write operation runs, on the locked and the read path together |
| Executor.DrainIsFinal | internal/operations/executor.go:125-152 | once a Drain called after Close returns nil, no operation under the lock runs then or ever after; the lock-free reads still may |
| Executor.EarlyDrainPromisesNothing | internal/operations/executor.go:136-152 | a run in which a Drain called before Close returns nil while a write operation runs |
| Executor.ShutdownWaits | internal/daemon/server.go:217-253 | the background context is cancelled with no operation in flight, and none starts later, unless Shutdown's own context expired |
| Executor.ReleaseComesLast | internal/daemon/server.go:217-253 | the directory lock is released only after the cancellation |
| Executor.ExecuteProceeds | internal/operations/executor.go:54-72 | from every reachable state a caller of Execute can get to run its operation, or is turned away once closing; nobody waits for a mutex that is never released |
| Executor.ReadProceeds | internal/operations/executor.go:112-123 | a read can run at once, whoever has the mutex |
| Executor.DrainProceeds | internal/operations/executor.go:136-153 | from every reachable state a Drain can return nil without its context expiring |
| Executor.ShutdownProceeds | internal/daemon/server.go:217-253 | from every reachable state a Shutdown, wherever it stands, can finish in order, cancelled before released, without its context expiring |
| CronTracker.Tracker.RunTask | internal/daemon/cron_tasks.go:35-63 | true exactly if the name is neither running nor queued; the new state is the specified one |
| CronTracker.Tracker.FinishTask | internal/daemon/cron_tasks.go:86-103 | the worker takes the head of the queue or ends |
| CronTracker.AskRefines | internal/daemon/cron_tasks.go:35-63 | asking is joining a plain queue without repeats |
| CronTracker.FinishRefines | internal/daemon/cron_tasks.go:72-103 | finishing is serving the head of that queue |
| CronTracker.EveryTaskOnceInOrder | internal/daemon/cron_tasks.go:35-103 | over every history: one worker, no name running and queued or queued twice, idle means empty, accepted = finished + running + queued in order, and the line is that of the plain queue |
| CronTracker.SingleWorkerIff | internal/daemon/cron_tasks.go:40-55 | every later history has one worker exactly if the name asked for is not empty or the tracker is idle, which then refuses it |
| Scheduler.RunsAtHourMeans | internal/store/snapshot/types.go:44-52 | with Go's truncating remainder, a plan runs in exactly the hours a whole number of its own intervals before or after its anchor; an interval that is not positive counts as a day |
| Scheduler.RegularIffDivides | internal/daemon/handlers_snapshot.go:448-455 | the slots are exactly the plan's interval apart across every midnight if and only if that interval divides 24 |
| Scheduler.PausedNeverRuns | internal/daemon/cron_scheduler.go:59-71 | over any history in which the plan is paused nothing is accepted, forced or not |
| Scheduler.LadderRises | internal/daemon/cron_scheduler.go:124-138 | unforced, nothing runs in minute 0 or 21 to 30, the odds only rise over the hour and are certain exactly after minute 30 |
| Scheduler.DueSubmitsIff | internal/daemon/cron_scheduler.go:71-138 | a due slot without a run is submitted with odds of one in twenty in minutes 1 to 9, one in ten in minutes 10 to 20, not at all up to minute 30, and certainly after that |
| Scheduler.OneInFiveWaits | internal/daemon/cron_scheduler.go:124-138 | between 19 and 20 slots in a hundred are left to minute 31, and none after it |
| Scheduler.SlotOf | internal/daemon/cron_scheduler.go:111-122 | the slot begins at the top of the hour that holds the tick, and minutes are counted from there |
| Scheduler.SecondAcceptance | internal/daemon/cron_scheduler.go:86-109 | a slot is accepted again exactly if the queue no longer holds the snapshot, and then its run was not visible to the look |
| Scheduler.AtMostOnePerSlot | internal/daemon/cron_scheduler.go:50-138 | under any interleaving of ticks, queue, clock and restarts no slot is accepted twice, unless a run began between a look and its submission or an accepted run left no row the look counts |
| Scheduler.LateTickIsEnough | internal/daemon/cron_scheduler.go:86-138 | a tick that looks after minute 30 of an unpaused slot submits exactly if no run of it is recorded, and when it is over one is or the queue holds it |
| Scheduler.RaceAcceptsTwice | internal/daemon/cron_scheduler.go:86-109 | a history in which a race has one slot accepted twice |
| Scheduler.LostRowAcceptsTwice | internal/operations/snapshot_cron_task.go:60-70 | a history in which a failed log row has one slot accepted twice |
| Scheduler.RestartAcceptsTwice | internal/daemon/cron_tasks.go:22-31 | a history in which a restart before the run's turn has one slot accepted twice |
| BackupShelf.Shelf.LocalArchivePresent | internal/operations/retention.go:179-190 | a file that is there is never reported missing; only a stat error makes a missing one look present |
| BackupShelf.TargetIff | internal/services/s3/client.go:375-387 | a request for a recorded address reaches the recorded object exactly if its key lies beneath the configured path |
| BackupShelf.Shelf.RemoteArchivePresent | internal/operations/retention.go:199-216 | an object where the client looks for it, an address that is not ours and a failed lookup all count as present; what is believed in without being there is counted |
| BackupShelf.Shelf.RemoveLocalCopy | internal/store/backup/backup.go:281-320 | the file goes first, then the row, or just its location if there is an offsite copy |
| BackupShelf.Shelf.RemoveRemoteCopy | internal/store/backup/backup.go:322-353 | the row goes, or just its offsite location if there is a local copy |
| Retention.RetainLocal | internal/operations/cron_task.go:267-309 | a copy is removed exactly if expendable: past the cutoff and, if believed present, outside the floor and not an only copy |
| Retention.LocalCleanup | internal/operations/cron_task.go:226-319 | for any catalogue, any listing of it, any presence pattern and removal faults, exactly the expendable copies were up for removal, file before row, and nothing else changed |
| Retention.OnlyExpendableGoes | internal/operations/cron_task.go:281-301 | a local copy that was there is gone only if past the cutoff, with two newer ones believed present, and with offsite known unconfigured or an offsite location |
| Retention.FloorSurvives | internal/operations/retention.go:43-56 | the two newest copies believed present are never removed |
| Retention.LeftIff | internal/operations/cron_task.go:267-309 | on a night without failures a copy that was there is left exactly if it is younger than the cutoff, one of the two newest believed present, or an only copy while offsite is configured |
| Retention.FloorHolds | internal/operations/retention.go:20-56 | of any set of files a night removes none or leaves two, if no missing file was believed present |
| Retention.NightsWithoutCapture | internal/operations/cron_task.go:219-319 | over any number of nights without captures at least min(2, initial) local archives survive |
| Retention.GhostsTakeTheFloor | internal/operations/retention.go:171-190 | two missing files with stat errors, on records the listing keeps, take both places and the one real local archive goes |
| OffsiteRetention.RetainRemote | internal/operations/cron_task.go:360-411 | a copy is asked for only while the floor fills; a delete request goes out only for an old, unheld copy in our bucket, and to the object it addresses; the record is forgotten only after that was answered |
| OffsiteRetention.RemoteCleanup | internal/operations/cron_task.go:321-421 | for any faults: only addressed objects are gone, who holds the floor, and the fate of every record |
| OffsiteRetention.OnlyOldGoes | internal/operations/cron_task.go:380-405 | with every key in place, an object that is gone was old, in the bucket, unheld, and behind two newer copies that hold the floor |
| OffsiteRetention.FloorSurvives | internal/operations/retention.go:43-56 | a copy that holds the floor is never deleted |
| OffsiteRetention.LeftIff | internal/operations/cron_task.go:360-411 | on a night without failures, with every key in place, a copy in the bucket is left exactly if it is younger than the cutoff or one of the two newest |
| OffsiteRetention.FloorHolds | internal/operations/cron_task.go:353-378 | of any set of objects a night deletes none or leaves two, if keys are in place and no missing copy was believed in |
| OffsiteRetention.NightsWithoutUpload | internal/operations/cron_task.go:321-421 | over any number of nights without uploads at least min(2, initial) offsite copies survive, under the same condition |
| OffsiteRetention.UnprovenFillTheFloor | internal/operations/retention.go:199-211 | two copies recorded in another bucket hold the floor and the one real copy goes |
| OffsiteRetention.ForgottenIff | internal/operations/cron_task.go:380-405 | when a record is forgotten its object is gone exactly if its key lies beneath the configured path |
| OffsiteRetention.MovedPathForgets | internal/services/s3/client.go:375-387 | after a change of path the only copy is found missing and forgotten while the object stays |
| DropAll.DropOne | internal/operations/backup_drop_all.go:84-149 | one record: gone once its file is and its delete request was answered, or kept still naming what remains; only the addressed object can go; a fault-free turn keeps it exactly if its address is not in our bucket, and then it no longer names a file |
| DropAll.Sweep | internal/operations/backup_drop_all.go:48-156 | total = dropped + kept, one error per kept record and in order, every offsite reference given up is counted |
| DropAll.NothingOrphaned | internal/operations/backup_drop_all.go:35-47 | every file that still exists is named by its kept record, and so is every object unless offsite is unconfigured or its key lies outside the configured path |
| DropAll.OrphanedIff | internal/services/s3/client.go:357-387 | the object of a dropped record survives exactly if its key lies outside the configured path |
| DropAll.MovedPathOrphans | internal/operations/backup_drop_all.go:131-140 | after a change of path a fault-free sweep drops a record and leaves its object |
| DropAll.ConvergesIff | internal/operations/backup_drop_all.go:35-47 | a fault-free sweep from any partial result empties the catalogue exactly if no record names an offsite copy outside the configured bucket |
| Confinement.AcceptedIffBeneath | internal/compression/compression.go:400-410 | the join/clean/rel test accepts exactly the names whose cleaned path has the destination as a prefix of elements |
| Confinement.CleanLeadsThere | internal/compression/compression.go:400-410 | a cleaned path leads where the path as written does, from every working directory |
| Confinement.RelLeadsThere | internal/compression/compression.go:400-410 | between the destination and an entry joined to it there always is a relative path, and following it leads to the entry |
| Confinement.AcceptedIffAlwaysInside | internal/compression/compression.go:386-446 | it accepts an entry exactly if walking the joined path, element by element as it was written, ends inside the destination from every working directory |
| Archives.ReadPass | internal/compression/compression.go:123-176 | the digest covers every byte read, the tail after the archive included, and success means the end of the file was reached; a file nobody rewrites is read as it is, which only a failing read prevents |
| Archives.HandleFile | internal/compression/compression.go:386-446 | whatever is written, folders on the way included, lies beneath the destination; success is the specified tree |
| Archives.PlacedMeans | internal/compression/compression.go:412-446 | an entry's own node is there with its whole content, other nodes stay, and what is new besides are folders on the way |
| Archives.PlacedIff | internal/compression/compression.go:386-446 | an entry is placed exactly if it is a file or folder inside the destination with no file in the way of a folder and no folder in the way of a file |
| Archives.UnpackedMeans | internal/compression/compression.go:386-446 | unpacking succeeds only if every wanted entry is a file or folder inside the destination |
| Archives.UnpackedHolds | internal/compression/compression.go:386-446 | each path holds the whole content of the last wanted entry for it |
| Archives.Extract | internal/compression/compression.go:298-383 | success means the bytes extracted are the bytes verified, whatever rewrites happened, with the catalogued digest if one was given, and their wanted entries are what was unpacked; nothing is created before verification passed; a file nobody rewrites is extracted exactly if it verifies, is of a known format and its entries fit, unless a call fails |
| AtomicFiles.Install | internal/compression/compression.go:529-532 | the one step that changes the final name, to a sound file |
| Archives.WriteVerified | internal/compression/compression.go:477-546 | at every crash point the final name holds what it held or a synced file that verified and passed the member check; success returns its digest; failure leaves nothing behind unless a removal failed; unless a call fails, a sound archive is published and nothing else is |
| Base64.RoundTrip | internal/crypto/keyfile.go:153-156 | decoding an encoded byte string gives it back |
| Base64.DigitsAreTheAlphabet | internal/crypto/keyfile.go:153-156 | the digits are the 64 characters of the URL-safe alphabet, in order |
| Base64.OnlyTheAlphabet | internal/crypto/keyfile.go:213-222 | exactly those characters are read as digits |
| Base64.QuantumIsANumber | internal/crypto/keyfile.go:153-156 | the four digits of a quantum are the base-64 digits of its three bytes read as one number |
| Base64.DecodesIff | internal/crypto/keyfile.go:213-222 | exactly the texts of digits in fours, padded only at their end, are decoded |
| Base64.BreaksDoNotMatter | internal/crypto/keyfile.go:213-222 | a line break anywhere makes no difference to decoding |
| Base64.FourTextsOneTail | internal/crypto/keyfile.go:213-222 | the decoder ignores the spare bits of a padded tail |
| Keyfile.SplitLine | internal/crypto/keyfile.go:185-190 | a line splits into its four fields whatever they are, as long as none holds a separator |
| Keyfile.ParseLine | internal/crypto/keyfile.go:168-211 | a V1 line is rejected on its checksum before the payload is looked at, and otherwise is its payload |
| Keyfile.HexIsANumber | internal/crypto/keyfile.go:158-163 | a checksum byte is written as two lower-case hexadecimal digits, most significant first |
| Keyfile.MarkedIsNeverLegacy | internal/crypto/keyfile.go:168-195 | a text that begins with the marker is never taken for a bare key, and the number of its fields and its version decide how it is refused |
| Keyfile.SpacesAreListed | internal/crypto/keyfile.go:168-172 | what is trimmed are exactly the code points with the White_Space property |
| Keyfile.FoldsLetters | internal/crypto/keyfile.go:196-211 | checksums are compared without regard to the case of letters |
| Keyfile.DamageDetected | internal/crypto/keyfile.go:196-211 | a line with a damaged payload is rejected as corrupt exactly if the four checksum bytes differ, whatever the payload decodes to |
| Keyfile.RoundTripV1 | internal/crypto/keyfile.go:153-211 | parsing the encoded line returns the key as non-legacy |
| Keyfile.RoundTripLegacy | internal/crypto/keyfile.go:168-222 | parsing the bare text returns the key as legacy |
| Keyfile.WriteKeyFile | internal/crypto/keyfile.go:247-305 | at every crash point the key file is the old one or a synced one that reads back as the key; without faults it is written, and holds just the encoded line |
| Keyfile.WriteLegacyBackup | internal/crypto/keyfile.go:318-333 | success means the backup reads back exactly, unsynced, and only a failed call prevents it; the key file is untouched |
| Keyfile.UpgradeKeyFile | internal/crypto/keyfile.go:349-375 | at every crash point the key file reads as the same key, and once it is no longer the old file the backup holds the key's legacy text; a read-only key is left alone; a backup without a new file is taken away again; without faults the new file and the backup are there |
| Keyfile.GetOrCreateKeyFile | internal/crypto/keyfile.go:66-111 | an existing key is what is returned and is never lost; an unreadable or unsafe file is left as it is; without faults an existing key is returned, in the new format if that is allowed, and a missing one is created |
| RunReports.CronLogFailed | internal/operations/cron_notify.go:198-217 | a row failed exactly if some phase recorded a failure or nothing was recorded |
| RunReports.Reporter.Finish | internal/operations/cron_notify.go:97-106 | a message says failed exactly if a phase failed, naming all of them, and recovered exactly if only the previous run did |
| RunReports.FailuresMean | internal/operations/cron_task.go:50-114 | a message names exactly the phases whose own outcome was a failure, in order |
| RunReports.RowTells | internal/operations/cron_task.go:50-114 | a status that was written is that of its own phase |
| RunReports.ScheduledRun | internal/operations/cron_task.go:50-114 | the run adds one row with the statuses whose writes landed, and the message is about this run and the row before it; without faults the row is there, complete, with every status |
| RunReports.VerdictsAgreeIff | internal/operations/cron_notify.go:198-217 | exactly when the verdict recomputed from the row is the reporter's, in terms of the writes that landed |
| RunReports.History | internal/operations/cron_notify.go:62-106 | over any history, failed exactly when a phase failed, naming those phases and what became of the capture, recovered exactly when the run before failed and this one did not |
| RunReports.InterruptedVerdict | internal/store/cron/cron.go:304-318 | a cut-short run counts as failed after startup exactly if a phase had recorded a failure; marking completes the row, keeps what was recorded and is done once |
| Migration.FirstHour | internal/cli/snapshot_migrate_actions.go:219-233 | the most frequent hour, the earliest among equals |
| Migration.DerivedPlan | internal/cli/snapshot_migrate_actions.go:219-249 | that hour, daily, with the least retention that no source exceeds |
| Migration.DerivedIsUnique | internal/cli/snapshot_migrate_actions.go:219-249 | the derived plan does not depend on the order of schedules or map keys |
| Migration.StoredMeans | internal/daemon/handlers_snapshot.go:448-520 | a requested plan is stored with its own fields, zeros standing for what is there or the defaults; what is stored runs at regular intervals; a sane plan is stored as it is |
| Migration.RemoveSchedules | internal/cli/snapshot_migrate_actions.go:194-205 | success means no schedule is left; at every prefix a plan exists |
| Migration.ApplyMigration | internal/cli/snapshot_migrate_actions.go:168-211 | at every prefix of the requests no schedule is gone unless a plan exists; without faults it succeeds exactly if a plan is kept or the daemon accepts the new one |
| Migration.Migrate | internal/cli/snapshot_migrate_actions.go:63-163 | an untouched plan is kept, a derived one keeps every window, each flag sets its own field and nothing else; without faults it gets through with a plan to keep or sane sources, and sane flags |
| Migration.MigrateAgain | internal/cli/snapshot_migrate_actions.go:81-107 | run again from any partial state, without faults it ends with no schedule and a plan |

## Left out

- HTTP handlers, router, CLI flags, tables and message texts: presentation and plumbing.
- S3, Docker, PostgreSQL, tar, zstd and AES internals: foreign code, kept as failing primitives or functions of their input.
- Snapshot capture, apply and restore, and the snapshot-specific retention pin: separate operations beside the modelled ones.
- Minor-version updates other than the shared recreate-on-image protocol, and start, stop and restart commands.
- Upload retries and the backup-directory sweep: they add single-step loops.
- The health scheduler and its pause flag.
- User, grant and password SQL; roles and grants replayed during an upgrade are one yes-or-no step.
- Deployment.World.Attempt: what goes on inside a lookup, a decryption, a probe or an SQL session is a yes or no that is counted; whether a parameter group resolves and fits a shape is an input (`Host`).
- Upgrade.RestoreIntoCluster: clients that write into the new cluster while it is being restored are not modelled.
- Upgrade.ClientsWrite: the dump of one database is one consistent reading; clients write before and after it.
- Upgrade.UpgradeInstance: a container that holds the instance's name under an id the row does not know is only seen as a failing create.
- Reconcile.Decide: a container state that Docker does not document is left to the branch that changes nothing.
- Retention.LocalCleanup: the listing is any newest-first part of the catalogue that leaves out local-only records whose file it could not see; that it also deletes such rows is covered only as rows that may go between nights.
- DropAll.Sweep: the early return when offsite settings or the S3 client cannot be had is not modelled (nothing has been touched by then), the counters of files, objects and bytes are not modelled, and a stored offsite address is either an object of a bucket or not parseable.
- Archives.HandleFile: the folders above the destination are taken to exist.
- Keyfile.ParseLine: case folding is that of ASCII letters, which is all a hexadecimal checksum can meet.
- Scheduler.AtMostOnePerSlot: the clock never goes backwards in the model.
