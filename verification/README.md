# Ludock, modelled in Dafny

Ludock manages game servers in Docker containers. This project models the parts
of it that must stay correct when things go wrong: its crash-tolerant protocols
over game files, containers and saved operations, and its streaming codecs. It
proves, for every input, every interleaving and any number of crashes, what
those parts promise. `dafny verify dfyconfig.toml` checks all of it.

| files | models |
|---|---|
| `RestoreHelper`, `RestoreJob` | the multi-root restore and its write-ahead journal |
| `DockerHost`, `UpdateSwap` | the replacement of a container by an update |
| `Starts` | the stop and the start of a data operation |
| `LockKeys`, `LockTable` | path keys, the lock table and its wake-up channels |
| `Runner`, `RunnerLocks`, `RunnerDecisions` | the operation queue, its workers, restarts and recovery, and when a job waits or fails |
| `RunnerOutcomes`, `RunnerClaims`, `RunnerProgress`, `RunnerRecovery` | where saved outcomes come from, what is claimed, that no worker gets stuck, and what is left running |
| `Deliver` | the flag and try-lock of notification delivery |
| `Octets`, `TarBytes`, `TarHeader`, `TarHeaderCode`, `TarPax`, `TarWalk`, `TarEncode` | the tar and PAX codec |
| `TarGrammar`, `PaxGrammar`, `TarNumbers`, `Runes` | what a valid archive, PAX records, number fields and UTF-8 are, said without the readers |
| `ArchiveRules`, `ArchiveSafety`, `Snapshot`, `SnapshotLimits` | validating and writing backup archives, what an accepted one is safe from, and where their limits disagree |
| `Redactor`, `Logs` | secrets in streamed output, and Docker's multiplexed logs |
| `SchedTime`, `Schedules` | local times, next runs and the slots of schedules |
| `Identity` | which container a server is bound to |
| `EnvMerge` | the environment a container was created with |

How it is modelled:

- Code that updates fields is a class whose methods are proved against value
  functions or invariants; code made of expressions is functions. Concurrent
  code (the lock table, the runner, delivery) is a state machine over its atomic
  steps; a run is any sequence of steps, so it covers every interleaving.
- One rename, unlink, database write or Docker call is one step. It may fail, may
  be lost, may have taken effect although it failed, and the process may end
  before or after it. Ghost counters (`faults`, `refusals`, `meddled`) record
  these events (`crashes` those that end the process), so a method cannot give up
  without a cause.
- Bytes are integers from 0 to 255. Times are whole minutes in the schedules and
  opaque, all different start times for containers.
- The tar formats follow IEEE Std 1003.1-2017, utility pax, sections "pax
  Extended Header" and "ustar Interchange Format".

Where the code does not do what its documentation says, or what one would expect,
the model follows the code, says exactly when it falls short and gives an input
on which it does:

- Memory is said to match what a restart would see, but a write can be saved and
  reported failed. A restore stays all-or-nothing: the archive's data is left
  exactly if the commit was saved and not replaced by a rollback that did not know
  of it (`RestoreJob.RestoreThroughCrashes`, `RestoreJob.CommitCanBeRevoked`). An
  update's swap can be lost: if `replacing` was saved but reported failed, and the
  undo's removal of the replacement leaves it dead when Ludock ends, the restart
  goes on to remove the original. That one state aside, every restart finds a sound
  one (`UpdateSwap.RowIsSound`, `UpdateSwap.HalfUndoneIsUnsound`,
  `UpdateSwap.SwapCanBeLost`).
- A snapshot limits each root to 100000 entries but validation limits their
  total, so a larger snapshot is published and then refused
  (`Snapshot.PublishedIsAccepted`, `SnapshotLimits.PublishedIsRefused`).
- The checks limit a path to 4096 UTF-16 units but a header holds 4096 bytes, so a
  root with a longer path passes the checks and cannot be backed up
  (`Snapshot.MappedFits`, `SnapshotLimits.LongNameIsNotWritten`).
- A header is written with any bytes but read only with UTF-8
  (`TarHeader.BlockRoundTrip`, `TarHeader.NameNotRead`), and an archive with too
  many PAX headers is written but not read (`TarEncode.ArchiveWalk`,
  `SnapshotLimits.WrittenIsUnreadable`).
- The redactor replaces the first match in list order; that the longest secret
  wins is up to the caller's order (`Redactor.OrderDecides`). Text after a match
  may be held back although it can begin no secret, if the match goes on into an
  open end (`Redactor.HeldIsNeeded`, `Redactor.HeldAfterMatch`).
- On a stream that `Demux` accepts, the log decoder delivers the same bytes only
  without frames on channel 0 or above 16 MiB (`Logs.Agree`,
  `Logs.ChannelZeroDiffers`).
- The shortest prefix that merges back is not always the owner's: an entry equal
  to the old image's default can be dropped and then follows the new image
  (`EnvMerge.OwnIsFound`, `EnvMerge.DefaultIsLost`). With a repeated name in the
  image a value can be lost (`EnvMerge.RepeatedNameLosesValue`).
- A job that conflicts with a request outside the runner should fail and one that
  conflicts with another job should wait. What decides is whether another job is
  there that is not itself waiting (`RunnerDecisions.Decision`), which agrees with
  who holds the keys exactly as `RunnerDecisions.ConflictVerdict` says. Two jobs
  that meet an outside request at once both hold the queue for it
  (`RunnerDecisions.OutsideHoldsTheQueue`), and a job fails if the job that held
  its keys ends between the refusal and the decision
  (`RunnerDecisions.JobConflictCanFail`).
- A claim that is saved but reported failed is retried, finds the row running and
  takes it for another's: the operation stays running with no goroutine, and its
  server takes no other one, until a restart (`RunnerRecovery.RunningIsWorkedOn`,
  `RunnerRecovery.UnheardClaimIsLost`, `RunnerRecovery.ClaimCanBeLost`).
- If Ludock ends after a stop reached Docker but before it was saved, and again
  after the start was saved as requested but before it reached Docker, recovery
  leaves the server stopped (`Starts.DataJob.RestoreInitialState`,
  `Starts.ForgetStart`).

## Model

| member | source | states |
|---|---|---|
| RestoreHelper.MovedKeepsSplit | internal/helper/restore.go:78-123 | a move interrupted anywhere keeps every entry in exactly one of two directories |
| RestoreHelper.RemnantsTransitive | internal/helper/restore.go:125-177 | removals that are interrupted again and again still leave only parts of the entries there were |
| RestoreHelper.Disk.MoveContents | internal/helper/restore.go:81-123 | however it ends, and whether or not a rename that failed took effect, each entry is unchanged on one side and nothing at the destination is replaced; success empties the source; it refuses only reserved, linked, special or taken names and oversized directories |
| RestoreHelper.Disk.RemoveEntry | internal/helper/restore.go:125-177 | success removes the tree; otherwise only a remnant of it is left, whether or not an unlink that failed took effect, and a failure always has a fault or a refusal: a special entry, one too deep or the millionth |
| RestoreHelper.Disk.RollbackClean | internal/helper/restore.go:283-302 | it empties the root, and touches nothing unless the saved originals are there; it refuses only that, a reserved name, or what a removal refuses |
| RestoreHelper.Disk.MoveOld | internal/helper/restore.go:266-274 | root into the saved directory, by the same rule; refused only without both directories or where a move is |
| RestoreHelper.Disk.MoveNew | internal/helper/restore.go:275-282 | the staged entries into the root, by the same rule |
| RestoreHelper.Disk.RollbackOld | internal/helper/restore.go:303-311 | the saved directory back into the root, by the same rule |
| RestoreHelper.Disk.MakeStage | internal/helper/restore.go:212-233 | a new stage has empty new and old directories; the root's entries stay as they are; only a stage that is there is refused |
| RestoreHelper.Disk.Cleanup | internal/helper/restore.go:243-265 | the stage goes, the root's entries stay; only what a removal refuses is refused |
| RestoreHelper.Disk.Extract | internal/backups/helpers.go:528-533 | an extraction changes nothing but the staged entries, which are the archive's once it succeeds; only a missing stage is refused |
| RestoreJob.SavedJournalsAreReadable | internal/jobs/restore.go:30-61 | every journal a run can save is one that recovery accepts |
| RestoreJob.StartsOnWholeData | internal/jobs/data.go:190-200 | when the data counts as safe, every root is wholly original before the commit and wholly new after it |
| RestoreJob.PhaseLocatesOriginals | internal/jobs/restore.go:168-199 | until the commit the phase of a root says where its originals are, all of them, unchanged |
| RestoreJob.UndoIsConsistent | internal/jobs/restore.go:160-167 | turning any uncommitted journal to rolling back keeps journal and disk in agreement |
| RestoreJob.MayReturn | internal/jobs/restore.go:168-199 | once a failed replacement is deleted, the disk is where the phase "rolling back" says, from every phase that moved originals |
| RestoreJob.BeginReplacing | internal/jobs/restore.go:337-340 | once every root is staged, turning the journal to replacing keeps it in agreement with the disk |
| RestoreJob.Restore.Write | internal/ops/ops.go:98-128 | one write of the recovery fields: a failed one may be in the row, memory changes only on success; row and memory both stay in agreement with the disk, and only a write of the commit that was saved but reported failed lets memory miss it |
| RestoreJob.CommitCanBeRevoked | internal/jobs/restore.go:160-167 | an input on which a saved commit is replaced in the row by a rollback |
| RestoreJob.Restore.RollbackRoot | internal/jobs/restore.go:168-199 | from every phase, one root returns to its originals, and a crash in it is again a state recovery starts from |
| RestoreJob.Restore.Rollback | internal/jobs/restore.go:160-202 | completed, every root holds exactly its originals and no stage is left |
| RestoreJob.Restore.CleanUp | internal/jobs/restore.go:204-219 | completed, every root holds exactly the archive's entries and no stage is left |
| RestoreJob.Restore.ReplaceRoot | internal/jobs/restore.go:341-370 | one root goes from originals to archive entries with every crash in between recoverable |
| RestoreJob.Restore.Replace | internal/jobs/restore.go:282-385 | staging, replacing every root and committing keep journal and disk in agreement at every step; a stop before the helper existed touched no root; each command of the helper needs the check made for it |
| RestoreJob.Restore.Run | internal/jobs/restore.go:253-398 | success means the archive's entries everywhere and no fault; a failure that was undone means the originals everywhere, even where a commit reported failed was saved; a failure before the commit that was not undone touched no root or met a second fault or refusal, in the undo |
| RestoreJob.Restore.Recover | internal/jobs/restore.go:435-480 | a recovery that completes leaves exactly the archive's entries if the row it starts from says committed and exactly the originals if not; it does not complete only for a fault, a refusal or other roots |
| RestoreJob.RestoreThroughCrashes | internal/jobs/restore.go:225-480 | over any number of restarts at any step, recoveries included, with writes that fail after they are saved: every root ends with the archive's entries exactly if the commit was saved and not replaced, else with its originals; it is replaced only after its write was reported failed; a run that ends without success or undo touched no root, met two troubles or was committed, and after a restart it met trouble again |
| DockerHost.Host.Interfere | internal/jobs/update.go:435-437 | what a daemon restart, an exit or another manager may do meanwhile: containers stop, start by their policy or, by another manager, vanish; names and policies stay |
| DockerHost.Host.Remove | internal/jobs/update.go:663-679 | a removal may take effect, leave a dead container or be lost |
| DockerHost.Host.Create | internal/jobs/update.go:456-463 | a creation may take effect although its ID is never heard, and Docker may resolve the image to another one |
| UpdateSwap.NeverBothRunning | internal/jobs/update.go:435-443 | whenever both containers exist both have policy "no" and they never run together |
| UpdateSwap.DisturbanceIsSound | internal/jobs/update.go:435-437 | restarts of the Docker daemon, exits and removals by others keep that |
| UpdateSwap.ExactlyOneSurvives | internal/jobs/update.go:567-570 | a settled swap leaves one container with the original's name and policy: the replacement if and only if `replacing` was reached |
| UpdateSwap.RowIsSound | internal/ops/ops.go:98-128 | the row a restart reads, which may be one write ahead of memory, is sound exactly unless it says `replacing`, memory does not, and an undo has begun to remove the replacement |
| UpdateSwap.HalfUndoneIsUnsound | internal/jobs/update.go:585-602 | of those states, one whose replacement is gone is as if another manager had removed it, with the original untouched; only one whose replacement is dead is unsound |
| UpdateSwap.SwapCanBeLost | internal/jobs/update.go:493-499 | an input of the latter kind: the row allows removing the original, and no usable container is left |
| UpdateSwap.RemovalIsSound | internal/jobs/update.go:663-679 | removing the replacement before `replacing`, or the original from then on, with all its effects, half of them or none, keeps every state sound |
| UpdateSwap.Update.Save | internal/jobs/update.go:216-222 | one write of the swap: a failed one may be in the row, memory changes only on success, and both stay tracked |
| UpdateSwap.Update.Restart | internal/jobs/update.go:144-149 | a restart goes on from the row, and finds a sound state unless the swap is half undone |
| UpdateSwap.Update.OwnedReplacement | internal/jobs/update.go:632-661 | it finds the replacement whether or not its ID was saved, and nothing else |
| UpdateSwap.Update.RemoveUntilGone | internal/jobs/update.go:663-679 | the container is gone, or Ludock ended or each of the polls met a fault; no other container is renamed or appears |
| UpdateSwap.Update.SettleSwap | internal/jobs/update.go:571-630 | it converges: undone before `replacing`, forward after it, and does not settle only for a fault or another manager; without a replacement to finish with it touches nothing and never settles |
| UpdateSwap.Update.Undo | internal/jobs/update.go:585-602 | the replacement is gone and the original has its name and policy |
| UpdateSwap.Update.Finish | internal/jobs/update.go:603-629 | the original is gone and the replacement has its name and policy; without a replacement nothing is removed and the loss is reported |
| UpdateSwap.Update.Settle | internal/jobs/update.go:552-565 | transient failures are retried until Ludock ends or the polls are used up; the stage that decides the direction does not change |
| UpdateSwap.Update.Create | internal/jobs/update.go:444-460 | every crash while creating leaves a sound state; a completed creation leaves the replacement there to take over, its ID not saved yet |
| UpdateSwap.Update.CreateReplacement | internal/jobs/update.go:444-467 | a completed creation has the pulled image and its ID saved; it is refused only for a fault, a taken name or another image |
| UpdateSwap.Update.AwaitReplacement | internal/jobs/update.go:507-546 | it accepts a replacement only while that runs as it was first seen and is healthy, or has no healthcheck after the settle time, or is still starting after the pending time; it refuses only a stopped, restarted or unhealthy one or for a fault, reports an end of Ludock and nothing else as that, and changes nothing |
| UpdateSwap.Update.Start | internal/jobs/update.go:468-488 | starting the replacement, with its response lost or not, keeps the two from running together |
| UpdateSwap.Update.Swap | internal/jobs/update.go:433-500 | every step keeps the states sound, so every crash point is one that settling starts from; a swap that settles used the pulled image, and one that does not met a fault, a taken name, another image, a started original or a replacement that stopped or is unhealthy |
| UpdateSwap.Update.Run | internal/jobs/update.go:270-323 | a run that reports settled has converged; success means `replacing` was saved with the pulled image and the replacement was started exactly if the server had been running; any other end has one of the causes of the swap, and one that is not settled a fault of its own in the undo; the original is started again exactly if the swap was undone before the replacement was to be started, and then that never ran |
| UpdateSwap.Update.Recover | internal/jobs/update.go:144-170 | recovery settles by the same rule in the direction that was saved, and does not settle only for a fault, another manager or used-up polls; it lets the original start exactly if it settled before the replacement was to be started |
| UpdateSwap.UpdateThroughCrashes | internal/jobs/update.go:433-630 | over any number of restarts at any step, recoveries included, with requests and writes that fail after taking effect: a settled swap has converged in the direction memory says; it stops only at the half-undone state, and after an undo that a restart did not know of it never settles and the original stays; without a fault or another manager it settles |
| Starts.DataJob.Progress | internal/ops/ops.go:98-128 | memory changes only once the write is known to have succeeded; a failed write may still have been saved |
| Starts.DataJob.Observe | internal/jobs/data.go:135-153 | exactly the daemon's failures are retried, only while a stop is pending, until the polls are used up |
| Starts.DataJob.StopForData | internal/jobs/data.go:46-89 | undisturbed, the server is never stopped, nor about to be, without its initial state saved; a completed stop recorded exactly that and the stopped instance; it does not complete only for a fault or another manager |
| Starts.DataJob.Settle | internal/jobs/data.go:135-182 | a pending stop is awaited, never dispatched again; it ends with the server stopped, with another manager having started it, or, if not completed, with a fault or the server still running |
| Starts.DataJob.Dispatch | internal/jobs/data.go:220-230 | the start is saved as requested before it is sent, so every later run knows of it; completed, the server runs, and only a fault keeps it from that |
| Starts.DataJob.RestoreInitialState | internal/jobs/data.go:186-235 | a start takes effect only while the data is safe; undisturbed, completion means the server runs, except exactly when a requested start has no recorded stop; completion is saved unless a requested start is left alone, and it does not complete only for a fault or a stop that is still pending |
| Starts.DataJob.StartOnce | internal/jobs/update.go:96-112 | the restart's own start is saved before it is sent; completed, the server runs and that is saved too |
| Starts.OperateThroughCrashes | internal/jobs/data.go:186-235 | over any crashes and recoveries at most one start of an operation takes effect; undisturbed, the last recovery that completes on safe data leaves a server running that was so, unless its start was forgotten |
| Starts.ForgetStart | internal/jobs/data.go:186-235 | two crashes that lead from a running server to one that should be started and is left stopped |
| Starts.StartAfterRestore | internal/jobs/restore.go:435-480 | a restore starts its server only on roots that are all original or, once committed, all new |
| Starts.SafeIs | internal/jobs/data.go:190-199 | starting is safe exactly with data nothing was half done to: a restore's journal must be readable and neither replacing nor rolling back |
| LockKeys.NormalizeKeepsNames | internal/locks/locks.go:55-61 | a normalized key stands for the same path, and normalizing again changes nothing |
| LockKeys.SameNormal | internal/locks/locks.go:55-61 | two keys normalize alike exactly when they name the same thing |
| LockKeys.OverlapsIsConflict | internal/locks/locks.go:63-66 | the string test on normalized keys is exactly: the same key, or one list of path components is a prefix of the other |
| LockTable.RunKeepsValid | internal/locks/locks.go:124-183 | in every run the keys of distinct holders never overlap, and leases part the held keys |
| LockTable.AllOrNothing | internal/locks/locks.go:124-163 | acquiring takes every key or none, exactly when nothing held conflicts and no fence stands, and changes no other key |
| LockTable.RefusalSays | internal/locks/locks.go:140-158 | a foreground holder in the way refuses; otherwise exactly the background holders in the way are named |
| LockTable.ReleasedIs | internal/locks/locks.go:164-170 | a release removes exactly the keys of its own holder |
| LockTable.ReleaseUndoesAcquire | internal/locks/locks.go:159-170 | releasing what was just acquired restores the table |
| LockTable.NextReleaseCloses | internal/locks/locks.go:171-193 | the channel is closed exactly when a release takes effect; until then every held key stays with its holder |
| LockTable.WakeupNotLost | internal/locks/locks.go:97-116 | if a key held at a failed attempt is later freed, the channel taken before the attempt is closed |
| LockTable.DrainedCloses | internal/locks/locks.go:204-217 | the channel is closed exactly once the table was empty at some time since |
| LockTable.FenceHolds | internal/locks/locks.go:68-83 | until its own lift, a fence refuses everything but recovery, whatever else happens |
| LockTable.Table.Fence | internal/locks/locks.go:71-83 | the counter agrees with the fences not lifted |
| LockTable.Table.Lift | internal/locks/locks.go:76-82 | lifting twice lifts once |
| LockTable.Table.Acquire | internal/locks/locks.go:124-163 | the loops compute exactly that attempt, in any order of the table |
| LockTable.Table.Release | internal/locks/locks.go:164-182 | the closure does exactly that release, once |
| LockTable.Table.NextRelease | internal/locks/locks.go:185-193 | one channel until the next release |
| LockTable.Table.Drained | internal/locks/locks.go:204-217 | closed at once on an empty table, else with the last release |
| LockTable.Table.AcquirePreempting | internal/locks/locks.go:93-116 | among any other goroutines: exactly the background holders in the way of its attempts are cancelled; it ends with the keys, refused at once by a foreground holder or a fence, or gives up with its last allowed wake-up just received or with each cancelled holder still there |
| Runner.ActsAtMostOnce | internal/ops/ops.go:402-472 | over all crashes, restarts, retried writes and requeues an operation's action is started at most once |
| Runner.QueuedNeverActed | internal/ops/ops.go:634-641 | an operation is queued only while its action was never started |
| Runner.OneActivePerServer | internal/ops/ops.go:280-310 | a server never has two active operations, and a request key names one |
| Runner.FinishedStays | internal/ops/ops.go:322-352 | a finished operation stays finished with its outcome, in every run |
| Runner.StepKeeps | internal/ops/ops.go:506-672 | every step of every goroutine keeps the invariant behind these |
| Runner.ClaimKeeps | internal/ops/ops.go:530-554 | claiming from stale rows never gives an operation two workers |
| Runner.RecoverKeeps | internal/ops/ops.go:713-757 | recovery finishes what was left running, and only that |
| RunnerLocks.RunOk | internal/ops/ops.go:409-472 | in every run workers hold what their leases say, and waiting jobs wait for something |
| RunnerLocks.DataAlone | internal/ops/ops.go:136-144 | data operations run one at a time |
| RunnerLocks.ActionsApart | internal/ops/ops.go:402-472 | actions that run at the same time never hold conflicting keys |
| RunnerLocks.WaitersWake | internal/ops/ops.go:409-472 | when the keys a yielded or waiting job waits for are free, its channel is closed |
| RunnerLocks.QueueIsHeldForSomeone | internal/ops/ops.go:429-457 | a job that holds the queue can wake, or a key in its way is held from outside the runner or by a job past waiting, never by another job that waits |
| RunnerLocks.HolderOf | internal/ops/ops.go:409-472 | every held key is held by a request outside the runner or by a job that has its keys, and never by both |
| RunnerLocks.CrashedIsNotRepeated | internal/ops/ops.go:713-757 | in every run and every continuation of it, an operation that runs at a crash is never started again and ends only as interrupted |
| RunnerDecisions.RunYields | internal/ops/ops.go:429-472 | in every run a job counts as yielded from its wait on, and never while its action runs |
| RunnerDecisions.Decision | internal/ops/ops.go:429-457 | a job that decides fails exactly on a fence, or on a conflict when every other job is itself waiting; else it waits, for background work without holding the queue |
| RunnerDecisions.ConflictVerdict | internal/ops/ops.go:402-457 | failing agrees with "only requests outside the runner hold its keys" exactly where another busy job goes with a job in the way or no key in the way any more; a job never fails while any action runs |
| RunnerDecisions.OutsideHoldsTheQueue | internal/ops/ops.go:402-457 | from the start, a run after which two jobs hold the queue for a request outside the runner |
| RunnerDecisions.JobConflictCanFail | internal/ops/ops.go:417-457 | from the start, a run without outside requests in which a job fails because the job that held its keys ended in between |
| RunnerOutcomes.OutcomeIsSettled | internal/ops/ops.go:606-633 | in every run a saved outcome was returned by the handler or the action of that operation, or is its own decision to fail, or is recovery's verdict on an interrupted one |
| RunnerOutcomes.SettledIsSaved | internal/ops/ops.go:618-633 | and once one was returned or decided, no continuation saves another one, unless a crash interrupts the write |
| RunnerClaims.ClaimsAreRead | internal/ops/ops.go:506-554 | in every run a row is claimed exactly if it was queued at an earlier read of the same life, with nothing to recover and no job holding the queue, and its lane has room and it is neither claimed nor waiting |
| RunnerClaims.ReadSees | internal/ops/ops.go:506-527 | a read that may be done sees exactly the queued rows |
| RunnerClaims.EnqueueAdds | internal/ops/ops.go:252-310 | a request adds an operation exactly if its key is new and its server has none queued or running, and changes nothing else |
| RunnerProgress.WorkerLeaves | internal/ops/ops.go:580-672 | in every run, at most twelve steps of its own take a worker to its end or to waiting in the queue, whatever it holds or is refused |
| RunnerProgress.ParkedWakes | internal/ops/ops.go:655-671 | a job that waits in the queue goes on exactly with a release, another job's end or the runner's stop |
| RunnerProgress.ShutdownLeaves | internal/ops/ops.go:358-375 | shutdown ends each retried write and changes no row by that |
| RunnerProgress.ClaimIsGuarded | internal/ops/ops.go:588-605 | a claim changes only a row that is queued when it is written; on any other the job ends |
| RunnerRecovery.RunningIsWorkedOn | internal/ops/ops.go:358-375 | in every run, while the runner is on, an operation that is saved as running and is not left to recovery has a goroutine at work, unless its write was given up since the start or its claim was saved though reported failed |
| RunnerRecovery.UnheardClaimIsLost | internal/ops/ops.go:588-605 | such a claim is always lost: the retry finds the row running and leaves it; a claim that is heard never is |
| RunnerRecovery.ClaimCanBeLost | internal/ops/ops.go:588-605 | from the start, a run that loses one, after which its server takes no other operation |
| RunnerRecovery.RecoverGoesOn | internal/ops/ops.go:713-757 | recovery goes on only once an operation is saved as interrupted; any other end of that write switches the runner off |
| RunnerRecovery.OffMeansOff | internal/ops/ops.go:759-773 | after a stop or a crash nothing is read or claimed, and a stop wakes every job that waits in the queue |
| RunnerRecovery.UnwaitIs | internal/ops/ops.go:642-654 | a job leaves the waiting list exactly when its channel has closed |
| Deliver.EveryCallIsDelivered | internal/app/app.go:224-248 | once every goroutine ended, the last pass began after every call, for any number of callers |
| Deliver.PendingIsWatched | internal/app/app.go:227-248 | a call not yet followed by a pass always leaves a goroutine at work |
| Deliver.WorkEnds | internal/app/app.go:235-246 | without further calls the goroutines end within a bounded number of steps |
| TarBytes.DigitsCanonical | internal/tarstream/tarstream.go:66-102 | the decimal digits of a positive number have no leading zero |
| TarBytes.WideOfBigEndian | internal/tarstream/tarstream.go:66-102 | base-256 digits read back as the number up to 2^53 - 1 |
| TarHeader.ChecksumFits | internal/tarstream/tarstream.go:490-503 | the checksum always fits six octal digits |
| TarHeader.NumberRoundTrip | internal/tarstream/tarstream.go:66-102 | every number up to 2^53 - 1 is read back from its octal or base-256 field |
| TarNumbers.OctalIsRead | internal/tarstream/tarstream.go:66-102 | an octal field of any writer, with white space around its digits, is read as its value up to 2^53 - 1, an empty one as 0 |
| TarNumbers.ReadIsOctal | internal/tarstream/tarstream.go:66-102 | and no other field that begins with a byte below 128 is read |
| TarNumbers.WideIsRead | internal/tarstream/tarstream.go:66-102 | one that begins with a higher byte is read exactly as a positive base-256 number up to 2^53 - 1 |
| TarNumbers.ReadIsUstar | internal/tarstream/tarstream.go:117-130 | only blocks of a known type whose magic is "ustar", white space aside, are read |
| TarHeader.BlockRoundTrip | internal/tarstream/tarstream.go:104-167 | DecodeHeader inverts rawHeader exactly when the texts are UTF-8 |
| TarHeader.UstarRoundTrip | internal/tarstream/tarstream.go:104-167 | a block with a prefix field is read with that directory in front of its name, unless a PAX path replaces both, exactly if its texts are UTF-8 |
| TarHeader.NameNotRead | internal/tarstream/tarstream.go:54-64 | a name that is written and not read back |
| TarHeaderCode.DecodeWide | internal/tarstream/tarstream.go:66-102 | the base-256 loop computes the value, or fails past 2^53 - 1 |
| TarHeaderCode.DecodeInteger | internal/tarstream/tarstream.go:66-102 | octal or base 256, the loops compute the specified number of any field |
| TarHeaderCode.RawHeader | internal/tarstream/tarstream.go:444-503 | filling the block in place gives exactly the specified bytes, and fails exactly when a field does not fit |
| TarHeaderCode.DecodeHeader | internal/tarstream/tarstream.go:104-167 | the checksum loop and the fields, read one by one, give the specified header of any block |
| TarPax.Settle | internal/tarstream/tarstream.go:435-442 | the self-counting length exists, is at most twice the rest, and the loop finds it |
| TarPax.RecordRoundTrip | internal/tarstream/tarstream.go:435-442 | a record counts itself, so it is read back whole whatever follows |
| TarPax.RecordsRoundTrip | internal/tarstream/tarstream.go:175-209 | records in any order parse to the map they were written from |
| TarPax.ParsePax | internal/tarstream/tarstream.go:175-209 | the loop over offsets parses exactly the specified records and rejects the rest |
| TarPax.PaxRecord | internal/tarstream/tarstream.go:435-442 | the loop writes exactly that record |
| TarWalk.Source.Take | internal/tarstream/tarstream.go:254-275 | at most limit bytes of what is left, in order, and none only at the end |
| TarWalk.Source.Exact | internal/tarstream/tarstream.go:277-290 | exactly size bytes of what is left, or an error if there are fewer |
| TarWalk.Source.ReadBody | internal/tarstream/tarstream.go:301-323 | the body is the next size bytes for every way they arrive |
| TarWalk.Source.ReadEnd | internal/tarstream/tarstream.go:325-433 | the end is valid exactly when the rest is zero blocks with nothing pending |
| TarWalk.WalkStream | internal/tarstream/tarstream.go:325-433 | for every way the reader splits the bytes, Walk is its whole-input function |
| TarGrammar.AcceptedIsFormed | internal/tarstream/tarstream.go:325-433 | Walk accepts exactly the archives made of intact headers, their data, zero padding and at least two zero blocks, with every PAX header followed by its entry, and delivers exactly their entries under the records in force: local over global, later over earlier |
| TarGrammar.ChangedByteIsRefused | internal/tarstream/tarstream.go:106-125 | a readable block with one byte changed outside its checksum is not read |
| PaxGrammar.RecordsAreLines | internal/tarstream/tarstream.go:175-209 | parsePAX accepts exactly the texts of lines that count themselves, with allowed keys, each once |
| Runes.RuneIs | internal/tarstream/tarstream.go:54-64 | a character starts the bytes exactly if its encoding does, and is as long as that |
| Runes.ValidIs | internal/tarstream/tarstream.go:54-64 | bytes count as UTF-8 exactly if they are the encodings of characters, surrogates excluded |
| TarEncode.EncodeHeader | internal/tarstream/tarstream.go:507-563 | it writes exactly the specified blocks, for some order of the records, and fails exactly when something does not fit |
| TarEncode.ConsistentIsRestored | internal/tarstream/tarstream.go:211-244 | a header whose overrides agree with its fields is read back unchanged |
| TarEncode.ArchiveWalk | internal/tarstream/tarstream.go:325-433 | reading written entries gives back every header and body, exactly unless there are too many PAX headers |
| TarEncode.TooManyHeaders | internal/tarstream/tarstream.go:325-433 | one PAX header past the limit stops the reader |
| TarEncode.ReadBack | internal/tarstream/tarstream.go:325-433 | the round trip, in any pieces: complete exactly if no more entries need a PAX header than the reader allows |
| ArchiveRules.JsonRoundTrip | internal/backups/archive.go:45-54 | a formatted integer is read back |
| ArchiveSafety.JsonIs | internal/backups/archive.go:45-51 | and nothing but that text, or "-0", is read as an integer |
| ArchiveSafety.MetadataIs | internal/backups/archive.go:18-42 | the metadata is what the header says, PAX first, exactly if it is within the limits |
| ArchiveSafety.LengthAdds | internal/textutil/textutil.go:12-20 | the length of a name is the sum over its characters |
| ArchiveSafety.LengthOfRune | internal/textutil/textutil.go:12-20 | one for each, two for one of four bytes |
| ArchiveRules.Validator.Visit | internal/backups/archive.go:106-140 | each entry is checked and counted against names, totals and roots |
| ArchiveRules.ValidateStream | internal/backups/archive.go:97-151 | it accepts exactly the complete archives with valid, distinct, at most 100000 entries and every root, and returns each root's staged bytes |
| ArchiveSafety.PlainResolves | internal/backups/archive.go:74-78 | components lead where they say, as an operating system follows them, exactly if none is empty, "." or ".." |
| ArchiveSafety.EntryIsHarmless | internal/backups/archive.go:68-95 | the checks accept exactly the entries, within the limits, that stay in a root wherever one stops on their path, lead where they say, hold no NUL or backslash, are not absolute and touch no restore's own directory |
| ArchiveSafety.AcceptedStaysInside | internal/backups/archive.go:97-151 | so every entry of an accepted archive stays inside its roots, no two of them lead to one place, each root has its directory, and neither an entry nor the archive is larger than the limit |
| ArchiveSafety.JoinSplit | internal/backups/archive.go:69-70 | the components of a name hold no slash and make up the name |
| ArchiveSafety.StagedIs | internal/backups/archive.go:125-127 | a file stages the least whole number of 4096-byte blocks that holds it, at least one |
| ArchiveSafety.StagedCounts | internal/backups/archive.go:119-127 | a root's room counts exactly the entries whose path leads into it |
| Snapshot.Output.Write | internal/backups/helpers.go:372-405 | what was written is the concatenation of the writes; a write is refused exactly for the limit or for a check that refuses |
| Snapshot.MappedConsistent | internal/backups/archive.go:56-66 | a mapped header is read back as it was written |
| Snapshot.MappedValidity | internal/backups/archive.go:56-95 | and stays exactly as valid |
| Snapshot.MappedNameValid | internal/backups/helpers.go:424-445 | a mapped name stays UTF-8 |
| Snapshot.MappedFits | internal/tarstream/tarstream.go:507-563 | a mapped header can be written exactly if its name has at most 4096 bytes |
| Snapshot.RootBaseInjective | internal/backups/helpers.go:435-450 | distinct names inside a root are mapped to distinct names |
| Snapshot.MapEntry | internal/backups/helpers.go:424-450 | an entry passes the checks exactly if its path is plain and inside its root and its mapped form valid; then it is read back as mapped |
| Snapshot.WriteRoot | internal/backups/helpers.go:410-492 | what is written for a root is valid, distinct, inside it and has its own directory; a root is refused only if a check refuses, the limit is passed or it cannot be copied: not read to its end, without its directory, or with too many, repeated, unacceptable or too long names |
| Snapshot.WriteSnapshot | internal/backups/helpers.go:336-519 | a published file is exactly the archive of such entries, and a snapshot of roots that can be copied is published unless a check refuses or the limit is passed |
| Snapshot.PublishedIsAccepted | internal/backups/archive.go:97-151 | validation accepts a published archive exactly when it has at most 100000 entries in total |
| Snapshot.ValidatePublished | internal/backups/archive.go:97-151 | the same from bytes, in any pieces |
| Snapshot.WalkDelivers | internal/tarstream/tarstream.go:325-433 | what a walk hands on has a UTF-8 name, a matching body and data only for files |
| SnapshotLimits.PublishedIsRefused | internal/backups/archive.go:106-116 | 100000 entries of one root, each stored as the writer stores it, make a published archive that validation refuses |
| SnapshotLimits.LongNameIsNotWritten | internal/backups/archive.go:74-78 | a name that the checks allow and that no header can hold |
| SnapshotLimits.WrittenIsUnreadable | internal/tarstream/tarstream.go:370-380 | an archive of writable entries whose PAX headers exceed the limit by one is not read to its end |
| Redactor.MatchIsFinal | internal/console/redact.go:87-100 | where no secret is open, more text does not change what matches |
| Redactor.RedactPlain | internal/console/redact.go:58-85 | text without a match is passed through |
| Redactor.OrderDecides | internal/console/redact.go:17-26 | of two secrets that match at one position the first in the list is replaced, the longer one only if it is first |
| Redactor.KeptInOrder | internal/console/redact.go:17-26 | the secrets that are kept stand in the order they were given |
| Redactor.Redactor.Partial | internal/console/redact.go:87-100 | the longest end that begins a secret without completing it |
| Redactor.Redactor.Next | internal/console/redact.go:58-76 | the next match, the first in list order where several start together, with remembered positions |
| Redactor.Redactor.Emit | internal/console/redact.go:36-85 | what is sent and what is kept say the same as before, whatever follows |
| Redactor.Redactor.Push | internal/console/redact.go:28-31 | what was sent is a prefix of the redaction of every continuation; what is held back is exactly the rest from the end of the last match that starts before the open end, or from the open end |
| Redactor.HeldIsNeeded | internal/console/redact.go:36-45 | unless a match goes on into the open end, all that is held back would be held back alone |
| Redactor.HeldAfterMatch | internal/console/redact.go:8-10 | an input on which text that begins no secret is held back |
| Redactor.Redactor.End | internal/console/redact.go:33-34 | the output is the leftmost, list-order-first replacement on the whole text |
| Redactor.RedactStream | internal/console/redact.go:18-100 | the same for every way the text is cut |
| Logs.StepFollows | internal/console/logs.go:54-92 | each turn of the decoder's loop keeps the meaning of the stream |
| Logs.LogDecoder.Push | internal/console/logs.go:46-93 | only a partial header is held; what was delivered is a prefix of what every continuation delivers |
| Logs.LogDecoder.TakeHeader | internal/console/logs.go:62-91 | filling the header in place decides raw, held or a frame exactly as specified |
| Logs.LogDecoder.End | internal/console/logs.go:95-111 | the delivered bytes of each channel and the verdict are those of the whole stream |
| Logs.DecodeStream | internal/console/logs.go:38-111 | the same for every chunking |
| Logs.DecodeAny | internal/console/logs.go:54-111 | on every stream: the bodies of the log frames it begins with, and of the rest a part of a frame, text, or nothing, with the verdict that says which |
| Logs.Demux | internal/docker/stream.go:19-54 | for every way the reader cuts the stream, the writers get exactly the specified bytes and the error is the specified one |
| Logs.DemuxAny | internal/docker/stream.go:22-54 | on every stream, broken or not: the bodies of its complete frames and what came of one more, and the error that says how it ends |
| Logs.Framed | internal/docker/stream.go:22-54 | every stream is frames and such a rest |
| Logs.DemuxFrames | internal/docker/stream.go:22-54 | complete frames are delivered and end well |
| Logs.DemuxedFrames | internal/docker/stream.go:22-54 | and nothing else ends well |
| Logs.AgreeOnFrames | internal/console/logs.go:76-91 | on complete frames the decoder delivers the bodies exactly when each is on channel 1 or 2 and of at most 16 MiB |
| Logs.Agree | internal/docker/stream.go:22-54 | so the two agree exactly on such streams |
| Logs.ChannelZeroDiffers | internal/console/logs.go:76-91 | any frame on channel 0 makes the two differ |
| SchedTime.FloorDivRoundsDown | internal/schedtime/schedtime.go:74-80 | floorDiv rounds down for all signs |
| SchedTime.SteadyIsSampled | internal/schedtime/schedtime.go:149-160 | a zone whose offsets stay for twelve hours is sampled completely |
| SchedTime.DatesInOrder | internal/schedtime/schedtime.go:121-126 | the same time of a later date comes later, even when clocks fall back |
| SchedTime.WeekdaysFollow | internal/schedtime/schedtime.go:119-119 | the day of the week follows the calendar from a Thursday on 1 January 1970 |
| SchedTime.DayOffsets | internal/schedtime/schedtime.go:151-160 | the sampled offsets, each once |
| SchedTime.Candidates | internal/schedtime/schedtime.go:228-235 | exactly the instants not before now that could be the wall time, in order |
| SchedTime.OneTimeRun | internal/schedtime/schedtime.go:166-195 | the first instant of that local date and time, or none because there is none |
| SchedTime.NextRun | internal/schedtime/schedtime.go:205-244 | the least of all due minutes from now on, or none because none is due within the window; for a one-time schedule its first start until its grace period ends or its slot is used |
| SchedTime.DueIs | internal/schedtime/schedtime.go:121-126 | a minute is due at its time on its days, unless its date's slot is used up |
| SchedTime.DueAgain | internal/schedtime/schedtime.go:221-242 | without clock changes there always is one |
| Schedules.SlotAt | internal/schedtime/schedtime.go:131-147 | the slot of a minute; for a one-time schedule during its grace period |
| Schedules.Schedule.RunOne | internal/schedules/schedules.go:697-798 | what one run decides, and that an edit since it was read makes it do nothing |
| Schedules.UseIsNew | internal/schedules/schedules.go:720-722 | a slot that is used up is on a later date than the last one |
| Schedules.RunAll | internal/schedules/schedules.go:697-798 | at increasing instants each slot is used up at most once, in its own minute; an enabled schedule misses none in whose minute a run gets an answer |
| Schedules.RunOnce | internal/schedules/schedules.go:705-719 | a one-time schedule is used up once and queued only in its five minutes; an enabled one is used up by the first answer in them or by any run later, and queued by a grant in time |
| Identity.RevisionPins | internal/identity/identity.go:314-331 | usable states of a server at one revision have the same container and fingerprint when the history of one extends the other's |
| Identity.AfterKeeps | internal/identity/identity.go:444-498 | a snapshot never decreases a revision, keeps an accepted fingerprint, and records a binding exactly when the revision grows |
| Identity.SettledIs | internal/identity/identity.go:457-487 | one container of a known server: a review is demanded exactly if one was pending or the fingerprint is another one than accepted, the revision grows exactly for another container or fingerprint, and without a review the server is usable as observed |
| Identity.UnboundIs | internal/identity/identity.go:444-456 | several containers or none leave a server unusable with what was accepted |
| Identity.AddedIs | internal/identity/identity.go:414-440 | a new server is usable at revision 1 as observed, or ambiguous at revision 0 |
| Identity.AppliedOwns | internal/identity/identity.go:383-400 | after a snapshot no container is bound to two servers of the host |
| Identity.Collect | internal/identity/identity.go:383-400 | observations are grouped by identity; a duplicate or unnamed container fails |
| Identity.Store.UpdateRow | internal/identity/identity.go:444-498 | the branches compute exactly the specified row and record |
| Identity.Store.Apply | internal/identity/identity.go:372-510 | all rows of the host or none change, each as its own observations say |
| Identity.Store.ReviewBinding | internal/identity/identity.go:523-551 | exactly the reviewed pending binding is accepted, at a new revision, and no other row changes |
| Identity.Serve | internal/identity/identity.go:314-551 | over any snapshots and reviews from an empty store, at any two times: no revision decreased, and usable states of a server at one revision have the same container and fingerprint |
| Identity.Store.ResolveBinding | internal/identity/identity.go:314-331 | the server exactly while its binding is usable at the revision, and which error otherwise |
| Identity.Store.AssertObservedBinding | internal/identity/identity.go:333-353 | it passes only for the container and fingerprint the operation was authorized for, whenever that was |
| EnvMerge.MergeEnv | internal/update/replacement.go:242-256 | the loop appends exactly the image variables whose names are missing |
| EnvMerge.NameEnds | internal/update/replacement.go:237-240 | a variable's name ends at the first equals sign, or with the entry |
| EnvMerge.PrefixGrows | internal/update/replacement.go:220-225 | a prefix merges back exactly when the next entry is what merging appends |
| EnvMerge.OwnEnv | internal/update/replacement.go:214-235 | the shortest proper prefix that merges back, or else every entry of the changed variables |
| EnvMerge.OwnIsFound | internal/update/replacement.go:214-225 | the owner's list is the shortest that merges back exactly when its last entry is not what merging would append anyway; a list that merging leaves as it is is found exactly when it is the image's or that entry is implied |
| EnvMerge.DefaultIsLost | internal/update/replacement.go:214-225 | an owner's entry equal to the old default can be lost |
| EnvMerge.FallbackKeeps | internal/update/replacement.go:226-234 | the fallback keeps every value exactly when every variable it leaves out is inherited with its value |
| EnvMerge.FallbackForDistinct | internal/update/replacement.go:226-234 | for an image with distinct names: exactly when every image variable is listed |
| EnvMerge.RecoveredKeepsValues | internal/update/replacement.go:214-235 | for every environment merged from such an image, recreating keeps every variable's last value |
| EnvMerge.RepeatedNameLosesValue | internal/update/replacement.go:226-234 | with a repeated name in the image it can fail |

## Left out

- Docker HTTP, sockets, exec and event streams, SQL text, web handlers, notification contents, audit entries: plumbing around the modelled steps.
- File descriptors, inode comparison, symbolic links, ownership, modes and fsync in the restore helper: a rename or unlink is durable once done.
- A helper process that is killed: its last rename or unlink is a crash of the whole operation at a later step.
- Docker requests that land after recovery has looked, and, for the convergence of a swap, other managers that rename or create containers; they may stop and remove them.
- Deadlines are counts of polls, and Docker's restarting flag: a container runs or not.
- JSON decoding of saved journals and operation rows: a journal is the value it decodes to.
- Fractional and exponent forms of PAX times and JSON numbers, and Unicode spaces at their ends: integers only.
- The order `EncodeHeader` sorts PAX records in: the round trip holds for every order.
- The byte limit on merged global PAX headers as JSON is a parameter, and errors of the reader and of its per-chunk callback are not modelled.
- ArchiveRules.ValidateStream: takes what the walk delivers and the stream's size, so it does not stop early in the middle of a stream that is too large.
- Checksums, free-space budgets and renaming the finished file in `WriteSnapshot`.
- UTF-8 decoding in the log decoder: the claims are about bytes.
- Write errors of the consumers of `Demux`.
- Real time-zone data and its cache, zones with offsets of seconds, and instants between minutes; a zone is any function from minutes to whole-minute offsets, with the two conditions that `SchedTime.Sampled` and `SchedTime.Tame` state.
- Access checks, countdown announcements and the list limit of schedules: an answer that may differ at every run.
- Schedules.RunAll: one schedule with fixed settings; edits in between appear only in the contract of a single run.
- The order in which the runner claims queued rows, and its claim of several rows under one lock: rows are claimed one at a time in any order, which allows more runs.
- A runner that is started again before its last stop returned.
- What a handler does besides calling `WithLocks` once: a handler may also finish without it.
- Identity digests and key derivation, and updates of a binding outside `Apply` and `ReviewBinding`; a server is named by its host and external identity, which are unique.
- Presets, capabilities, console transports, resource history, RCON framing and the log ring buffer: they would add easier members.
