# pg-guard: verified models

pg-guard keeps one PostgreSQL primary running on a pair of nodes. This project models the state machines that
decide when a node starts, stops, re-clones or promotes its PostgreSQL, and proves what they keep on every run.
`dafny verify dfyconfig.toml` checks everything.

| file | models |
|---|---|
| `Cluster.dfy` | the two-node protocol as a step system whose steps interleave freely, under a record of six hypotheses |
| `Journal.dfy` | what one main goroutine does, as events, and an automaton that accepts exactly the allowed sequences |
| `World.dfy` | clock, PGDATA, child process, peer and tools; every answer is arbitrary and is written to the journal |
| `Hostname.dfy` | peer derivation and the ordinal tiebreak |
| `HandoverTrace.dfy` | the events of a coordinated stop for every policy and answer, and what its outcome says |
| `Supervisor.dfy`, `Rewind.dfy`, `Bootstrap.dfy` | the select loop, the coordinated handover, startup, rejoin, first-run bootstrap |
| `CrashWindow.dfy` | the crash slice that is compacted in place |
| `Failover.dfy` | the failover monitor and the reboot notice, two writers on one variable |
| `Reaper.dfy` | the PID-1 reaper: lock, waiter map, coalesced SIGCHLD, pid reuse |
| `Backup.dfy`, `BackupRuns.dfy` | which backups a prune removes; backup triggers, their guard and their prunes as interleaved steps |
| `StateFile.dfy`, `SharedSaves.dfy` | the crash-atomic state file over any number of restarts; saves of several goroutines over one temporary name |
| `PgHba.dfy`, `Quoting.dfy` | `pg_hba.conf` edits, quoting and connection strings |
| `ChildWatch.dfy` | the broadcast of a child's exit to its observers |
| `HaTest.dfy` | the failover probe's write loop and its final accounting |

Every operation that changes state in the program is a method here. Its contract ties it to a history (a journal, a
tick trace, an interleaving, a list of attempts), and the theorems speak about every history that the automaton
accepts. Clocks are virtual and never go back. Answers of the peer, the database, the PostgreSQL tools and the
file system are chosen freely.

## Hypotheses

The two-node theorem names six, and is an if-and-only-if: at most one primary runs on every run exactly when all six
hold, so a witness run exists without any one of them.

- An unreachable peer has lost its PostgreSQL (the design's own assumption).
- No node turns primary while its peer is between an answer it has read and the start or promotion that answer
  permits. Everything else may happen in between.
- `/status` never says "unknown" while a primary runs.
- No operator calls promote with `?force=true`.
- A handover's promote request is over once its caller moves on or dies.
- `stopLocal` reports success only for a child that has exited. The code itself returns nil after a kill even when
  the exit was not seen within five seconds, which is why this one has to be assumed.

Two things are built into its steps rather than named: the death of a pg-guard process takes its PostgreSQL with it
(it is PID 1 of its container), and a second PostgreSQL does not come up on a PGDATA that is still open.

The single-process theorems about the operating system's children assume reliable kills: a SIGKILL is delivered and
its exit is seen within the grace period. They say so where they need it.

## Where the code and its documentation differ

- The startup diagram (ARCHITECTURE.md:211) starts PostgreSQL when the peer is unreachable. The code keeps asking for
  30 seconds and then refuses (src/main.go:409-416). The model follows the code.
- Startup proceeds on every role other than "primary", "unknown" included (src/main.go:417), and it does so even when
  an earlier attempt of the same call has cleared PGDATA and failed to re-clone it: `Journal.StartsOnClearedData` is
  such a run, and `Journal.StartsAsIsExactly` says that only the check's last answer decides.
- A reboot notice is described as holding back promotion for its grace period, and a repeat as extending it
  (src/api.go:176-178). A tick that still reaches the stopping peer clears the window, so the first claim holds only
  for notices with no healthy tick after them; `Failover.NoticeAloneIsNotEnough` is a run that promotes 66 seconds
  after a notice for 180. The handler reads the clock and stores in two steps, so a repeat extends exactly when the
  handlers store in the order in which they read the clock (`Failover.RepeatedNoticeExtends`).
- Persisted counters are described as cumulative. They can go down: an unreadable state file counts as a missing one,
  and the next save overwrites it. `StateFile.BootNeverLosesExactly` says exactly which boots never lose any.
- A crash can never leave a truncated state file in place of a good one, says src/statepersist.go:104-109. Saves from
  the main loop and from a backup share one temporary name. The claim holds while they do not overlap
  (`SharedSaves.SavesInTurnStayWhole`); in general a rename makes a torn file the state file exactly when the last
  access to the temporary file was an open or a write shorter than what it held (`SharedSaves.RenameTearsExactly`).
- Every superseded `pg_hba.conf` line is dropped, says src/bootstrap.go:234-236. They are not when the desired line is
  already there; `PgHba.OneMatchExactly` says exactly when one line remains. The file is also not written atomically,
  so a failed write may leave only some of the new text.
- Retention is described as keeping the newest backups. The in-progress guard is released before the prune, so with
  PG_GUARD_BACKUP_RETAIN=1 a second trigger's unfinished directory can displace the backup just reported as done
  (`BackupRuns.OverlapLosesBackup`); `BackupRuns.PruneRemovesExactly` is the exact condition.
- The tiebreak of bootstrap goes by the local hostname alone. For a derived pair exactly one node can run initdb; with
  peers configured by hand both can unless one name ends in -1 (`Journal.HandMadePairsMayBothInitdb`).
- The connection strings of src/rewind.go put their settings in without quotes, so they are read back only when every
  setting is plain. With an empty replication password the password becomes `dbname=...`
  (`Quoting.EmptyPasswordSwallows`).

## Model

| member | source | states |
|---|---|---|
| Cluster.SafeExactlyUnderAllHypotheses | src/main.go:402-432 | Over all schedules of startup, bootstrap, crash, restart, rejoin, stepwise handover under any policy, failover and manual promotion, from any two data directories: never two running primaries if and only if all six hypotheses hold |
| Cluster.ExecKeepsInv | src/handover.go:48-103 | A whole schedule keeps the two-node invariant: while a check of one node is pending the other is no primary, and a forced promotion is served only while its caller waits with its own child down |
| Cluster.ReachableInv | src/api.go:107-119 | The same for every reachable cluster |
| Cluster.HandoverKeepsCallerDown | src/handover.go:73-103 | A handover past its stop has its own PostgreSQL down, and none of the caller's start steps is enabled until it is over |
| Cluster.ReachableIsClosed | src/main.go:190-317 | The reachable clusters contain every initial one and are closed under every allowed step, for any hypotheses |
| Cluster.ClusterForms | src/bootstrap.go:51-86 | From two empty data directories a primary with a following standby is reachable |
| Cluster.FailoverHappens | src/failover.go:85-138 | From there the standby becomes the primary once the other process is gone |
| Cluster.TwoWritable | src/main.go:402-419 | Two writable data directories with both processes booting and nothing running is reachable: what the startup check must survive |
| Cluster.PromoteBesideLostPeer | src/api.go:107-119 | An unforced promote on the standby makes it the primary once the other process is gone |
| Cluster.PromoteBesideStoppedPeer | src/api.go:107-119 | The same beside a peer that is up without a postgres and answers "unknown" |
| Cluster.AnswersAdmitExactly | src/failover.go:143-149 | An answer admits a promotion by the handler exactly when it is not "primary", and by the monitor exactly when there is none; otherwise the node stays as it was |
| Cluster.PromotionPromotes | src/db.go:142-150 | A promotion that takes effect makes a standby a primary on a writable directory, whether it was admitted or forced |
| Cluster.ForcedStop | src/handover.go:48-60 | Under force the primary of the formed cluster is stopped whatever its role query says |
| Cluster.HandoverCompletes | src/handover.go:48-103 | From the formed cluster a coordinated handover runs to its end: the old primary stopped, the peer primary |
| Cluster.RolesSwap | src/main.go:402-432 | After it the old primary's startup check re-clones and starts it as the standby |
| Cluster.RolesSwapOnRequest | src/main.go:480-560 | So does a rejoin request |
| Cluster.GivingUpStaysDown | src/main.go:359-379 | A rejoin or a check that gives up leaves the process up and postgres stopped |
| Cluster.CrashIsRestarted | src/main.go:258-316 | A crash is noticed, and the restart after its check brings the same primary back |
| Cluster.RefusalKeepsServing | src/handover.go:65-74 | Under require-switchover a primary without its standby refuses to stop and goes on serving |
| Cluster.BestEffortStopsAnyway | src/handover.go:60-103 | Under best-effort it stops all the same |
| Cluster.StandbyStops | src/handover.go:109-123 | A standby stops beside its primary |
| Cluster.RebootKeepsRoles | src/handover.go:141-159 | A primary's reboot stops it with the peer still a standby, and boots again |
| Cluster.StandbyReboots | src/handover.go:141-153 | A standby's reboot goes through the check of its peer |
| Cluster.FailedStopKeepsServing | src/handover.go:199-227 | A failed stop leaves the cluster as it was |
| Cluster.PromotionMayFail | src/handover.go:79-86 | A peer that does not obey leaves the caller stopped and both on their data |
| Cluster.WithoutUnreachableIsLost | ARCHITECTURE.md:308-310 | Two primaries are reachable when a partition may be taken for a loss |
| Cluster.WithoutNoRacingChecks | src/main.go:409-419 | Two primaries are reachable when both nodes may read "unknown" before either starts |
| Cluster.WithoutTruthfulStatus | src/main.go:417-419 | Two primaries are reachable when a running primary may report "unknown" |
| Cluster.WithoutNoOperatorForce | src/api.go:107-119 | Two primaries are reachable through one forced promote |
| Cluster.WithoutPromoteEndsWithCaller | src/peer.go:136-162 | Two primaries are reachable when a promote request may outlive its caller |
| Cluster.WithoutConfirmedStops | src/handover.go:199-227 | Two primaries are reachable when a kill whose exit was never seen counts as a stop |
| Journal.ExitsAreAttributed | src/main.go:258-282 | Until the process is told to leave, children started = crashes recorded + stops completed + the one still held, after every event of every run |
| Journal.RestartsAnswerCrashes | src/main.go:258-316 | A pending restart goes back to one crash that was within budget, with no start, crash, due restart or requested stop since |
| Journal.HeldSince | src/main.go:244-316 | After a point without a child one is held later exactly when a start since then has met neither crash nor stop; so an exit request finds a child only after a start in between |
| Journal.LicenceStands | src/main.go:402-432 | At every point of an open check its state is what its own events say: no answer yet, the last answer, a permitting answer with no re-clone since, or a primary answer followed by a completed re-clone |
| Journal.OpenExactlyOnCheck | src/main.go:402-409 | A rejoin check is open exactly from its beginning to its failure or the start that completes it |
| Journal.StartsFailClosed | src/main.go:359-432 | With a peer configured, every start that completes a check begun on a PGDATA that was no standby has a successful last answer in that check: non-primary with no re-clone since, or primary followed by a completed re-clone that left a standby |
| Journal.NoAnswerNoStart | src/main.go:409-416 | A check without a successful status never ends in a start |
| Journal.OtherStartsAreStandbys | src/main.go:480-560 | Every other start is of a standby: one found by its check, or one re-cloned on request while no check was open |
| Journal.ReclonesFollowPrimary | src/main.go:421-431 | Within a check PGDATA is cleared or rejoined only when the last answer of that check named the peer primary |
| Journal.StartsAsIsExactly | src/main.go:417-419 | A check on a PGDATA that was no standby may start one that is none either exactly when its last answer was a successful non-primary one, whatever became of the directory |
| Journal.StartsOnClearedData | src/main.go:417-431 | A run in which a failed re-clone has cleared PGDATA and the check then starts it empty |
| Journal.InitdbIsLicensed | src/bootstrap.go:51-86 | On every run initdb is run only by a node that may found the cluster, and in auto mode only in a bootstrap that has asked its peer and never been told it was primary |
| Journal.BootstrapInitialisesExactly | src/bootstrap.go:51-86 | Every bootstrap that returns has run initdb if and only if it was forced to, or was in auto mode on ordinal zero and never told that the peer is primary |
| Journal.FounderInitialises | src/bootstrap.go:51-86 | A first run of any founder: no status query when forced or without a peer, otherwise as many unreachable answers as its fifteen seconds hold, then initdb |
| Journal.CanInitdbExactly | src/bootstrap.go:51-86 | Some run of a node executes initdb if and only if it is forced to, or is in auto mode and is ordinal zero |
| Journal.ExactlyOneNodeCanInitdb | src/bootstrap.go:51-86 | Of a derived pair in auto mode exactly one node can ever run initdb, over all runs of both |
| Journal.HandMadePairsMayBothInitdb | src/bootstrap.go:62-63 | Two nodes in auto mode with peers configured by hand can both run initdb exactly when neither name ends in -1 |
| Journal.StopHasEvent | src/handover.go:199-227 | A child that ended by a stop has its completed stop in the journal, with no start since |
| Journal.PromotesFollowStops | src/handover.go:48-103 | Every promote request follows a completed stop with no start since, and a last role check that did not say standby |
| Journal.WipesFindNoChild | src/rewind.go:75-118 | PGDATA is cleared only when every child ever started has a recorded crash or a completed stop |
| Journal.WipesFollowFreePort | src/rewind.go:75-118 | Every wipe follows a port check of its own that found nothing listening |
| Journal.RestartsExactly | src/main.go:329-342 | On every run a crash is answered with a restart if and only if restarts are enabled and the crashes within the window, itself included, are no more than the limit; counted over the journal |
| Journal.RestartsStayWithinBudget | src/main.go:329-342 | Every interval as long as the window, wherever it lies, holds at most the limit of armed restarts |
| Journal.RearmedAreCrashes | src/main.go:329-342 | Restarts armed in an interval are at most the crashes on record after its start |
| CrashWindow.AfterAfter | src/main.go:332-339 | Pruning with a growing cutoff loses nothing a later pruning would have kept |
| CrashWindow.SameAsHistory | src/main.go:329-342 | Filtering the compacted slice gives what filtering the full history would |
| CrashWindow.CrashWindow.Compact | src/main.go:332-339 | The in-place loop leaves exactly the times after the cutoff, in order |
| CrashWindow.CrashWindow.RecordCrashAndCheckLimit | src/main.go:329-342 | The verdict is the one the full, never pruned crash history gives |
| World.AtMostOneChild | src/supervisor.go:34-57 | With reliable kills at most one child runs at any time, and none when none is held |
| ChildWatch.EveryObserverSeesTheExit | src/child.go:16-23 | Every observer, however many, reads the code the child exited with |
| ChildWatch.ExitStaysObservable | src/child.go:16-23 | Once closed, the exit can be observed by anyone at any later time, with the same code |
| World.World.AwaitExit | src/handover.go:207-226 | The timed wait for the child: an exit that has happened is seen at once, a seen exit is a dead child, and with reliable kills a killed child is seen to exit |
| World.World.ClearPgdata | src/rewind.go:75-104 | PGDATA is cleared only where a re-clone may happen, and with reliable kills while no child is alive |
| World.World.StartChild | src/supervisor.go:34-57 | A start needs an entitlement and no child held; it adds exactly one child and uses the entitlement up |
| Rewind.RunBasebackup | src/rewind.go:75-118 | Port check, and only if nothing listens the wipe, and only if that is complete the clone, whose answer is the result; a refused check leaves PGDATA untouched |
| Rewind.RejoinAsStandby | src/rewind.go:32-55 | pg_rewind first; the signal file after a success, the re-clone only after a failure; the result is the answer of the last step, and success leaves standby.signal |
| Hostname.DerivationIsAnInvolution | src/config.go:239-248 | The derived peer of a recognised name is another name whose derived peer is the first one; exactly two suffixes are recognised |
| Hostname.DerivationFlipsTheOrdinal | src/config.go:239-248 | The derived name is the same name with the other ordinal |
| Hostname.ExactlyOneOrdinalZero | src/bootstrap.go:62-63 | Of the two names of a derived pair exactly one passes the ordinal test |
| Bootstrap.BootstrapAsStandbyWithRetry | src/bootstrap.go:99-121 | Asks again and again; begins a re-clone right after every primary answer and never otherwise; success is the clone's, failure means two minutes, and without a primary answer at least 31 queries; never initdb |
| Bootstrap.PeerTurnsPrimary | src/bootstrap.go:69-82 | The tiebreak wait does nothing but ask, stops at the first primary answer, and says no only after more than 15 seconds and at least six queries |
| Bootstrap.RunBootstrap | src/bootstrap.go:51-86 | initdb is run if and only if it is forced, or the node is ordinal zero in auto mode and no answer named the peer primary; the result is the answer of the last tool |
| Supervisor.RejoinAtStartupIfNeeded | src/main.go:402-432 | Terminates by a clock measure; a rejoin follows every primary answer at once and nothing else does; success is an entitlement to start, failure takes more than 30 seconds and leaves none |
| Supervisor.AskPeer | src/main.go:407-432 | The part that asks: without a primary answer a failure has made at least 11 queries |
| Supervisor.Supervisor.StopLocal | src/handover.go:199-227 | Bounded by ShutdownWait + 5s; kills only after ShutdownWait; success drops the child and is one completed stop, and only a failed kill is a failure |
| Supervisor.Supervisor.CoordinateStandbyHandover | src/handover.go:109-123 | One query; under require-switchover any answer but primary is a refusal and nothing more; otherwise the stop, whose result is the outcome |
| Supervisor.Supervisor.ConfirmPeerPrimary | src/handover.go:88-103 | Queries up to the first primary answer and is true exactly if there is one; false only after ten seconds and at least four queries; at most 12.5 s |
| HandoverTrace.SucceedsExactly | src/handover.go:48-123 | Under require-switchover a handover succeeds if and only if the peer was seen primary after the stop of a primary, or just before the stop of a standby |
| HandoverTrace.OthersSucceedOnStop | src/handover.go:48-123 | Under the other policies it succeeds if and only if the child was stopped |
| HandoverTrace.FailuresShow | src/handover.go:60-103 | A refusal, a failed stop and an incomplete handover are each recognised exactly by the events, with the answer that caused them |
| HandoverTrace.ContactsExactly | src/handover.go:48-103 | No notice is ever sent; force contacts nobody; a standby never asks for a promotion, and a primary does so exactly once, right after its completed stop |
| Supervisor.Supervisor.CoordinateHandover | src/handover.go:48-103 | For every policy and answer the events and the outcome are the specified ones; under require-switchover nil means exactly that the peer has taken over; an unconfirmed one has waited ten seconds |
| HandoverTrace.RebootExactly | src/handover.go:141-159 | A primary gives its notice and then stops, a standby under require-switchover stops exactly beside a primary, and no promotion is ever asked for |
| Supervisor.Supervisor.CoordinateReboot | src/handover.go:141-159 | The events and the outcome are the specified ones |
| HandoverTrace.SwitchoverTermination | src/main.go:465-474 | In switchover mode no notice is sent, and a primary has asked its peer to promote unless it was refused or could not stop, with the event that says so; force contacts nobody |
| HandoverTrace.RebootTermination | src/main.go:453-464 | In reboot mode a primary's notice comes before its stop and no promotion is asked for |
| Supervisor.Supervisor.HandleTerminationSignal | src/main.go:447-474 | For every policy, mode and peer: the specified first attempt, a forced stop exactly when it failed, child stopped and, with reliable kills, within ShutdownWait + 92.5 s; the exit code |
| Supervisor.Supervisor.StartPostgres | src/main.go:359-379 | Begins with the bootstrap of an empty PGDATA or the check of any other; a child is held exactly when the last event is its start; without one bootstrap failed, the check failed, or the process ends with 1 because the binary did not start |
| Supervisor.Supervisor.HandleChildExit | src/main.go:258-282 | An unexpected exit is recorded once, arms a restart after the backoff exactly when it is within budget (`Journal.RestartsExactly`), and otherwise ends the process with the child's code |
| Supervisor.Supervisor.HandleRestartDue | src/main.go:284-316 | The due restart never meets a running child, begins with the bootstrap or the check, and either holds a child afterwards or ends the process with 1 |
| Supervisor.Supervisor.HandleHandoverRequest | src/main.go:480-560 | Start and rejoin refuse exactly while a restart is pending or a child runs; nil means exactly that the requested stop or start took place, with the specified events |
| Supervisor.Supervisor.Serve | src/api.go:147-171 | A served shutdown asks for exit code 0, a switchover or reboot for 78, anything else and any failure for none |
| Supervisor.Supervisor.Select | src/main.go:244-316 | Whatever arrives, the flags agree with each other and with the journal afterwards or the process has ended, with the code its arrival calls for; an exit is requested only when no child is held |
| Supervisor.Supervisor.Run | src/main.go:190-317 | The same over arrival sequences of any length; the journal begins with startup and is one the Journal lemmas speak about |
| Failover.SinceIsStreak | src/failover.go:27-112 | unhealthySince is set exactly during a streak of unhealthy ticks, to the time of its first |
| Failover.SuppressIsLastNotice | src/api.go:179-187 | The stored window is the one the last notice computed, if there has been no healthy tick since, and there is none exactly when there is no such notice |
| Failover.SuppressionIsExact | src/state.go:106-122 | A promotion is held back at a time exactly when the last notice has no later healthy tick and is within its grace period |
| Failover.PromotesExactly | src/failover.go:27-140 | An unhealthy tick attempts a promotion if and only if it belongs to an unbroken streak of at least FailoverTimeout and no notice holds it back |
| Failover.DeadlineInStep | src/state.go:124-143 | failoverPromoteDeadline is 0 or unhealthySince + FailoverTimeout, always |
| Failover.NoticeDelaysPromotion | src/handover.go:141-159 | No attempt before the end of a notice's grace period unless a healthy tick came after it, or another notice whose handler had read the clock earlier |
| Failover.RepeatedNoticeExtends | src/api.go:179-187 | A repeated notice does not shorten the window if and only if its handler read the clock no earlier than the one it replaces |
| Failover.OvertakenNoticeShortens | src/api.go:179-187 | Two handlers that store in the other order shorten it |
| Failover.NoticeAloneIsNotEnough | src/failover.go:85-101 | With the default settings and a tick every five seconds, a run that promotes 66 s after a notice for 180 s |
| Failover.Monitor.Tick | src/failover.go:27-140 | For every answer and any notices arriving in between, a tick adds exactly one tick event of the kind the answers call for, measured in that tick |
| Failover.Monitor.HandleRebootNotice | src/api.go:179-187 | The second writer: the deadline computed on entry is stored later, with any stores of other handlers in between |
| Failover.Monitor.Watching | src/failover.go:21-141 | Any number of ticks with notices anywhere yields a history the lemmas above speak about |
| Reaper.RunKeepsInv | src/reaper_linux.go:41-105 | Every interleaving keeps: no stale waiter, no missing waiter, nothing sent early or twice, no lost wakeup, no dropped code |
| Reaper.EveryExitDeliveredOnce | src/reaper_linux.go:60-105 | A tracked child is sent nothing while outstanding and afterwards exactly its own exit code, once; the default of the send is never taken |
| Reaper.DeliveryFindsItsWaiter | src/reaper_linux.go:60-87 | A collected code goes to the waiter of that very child if it is tracked and to nobody otherwise, even after its pid has been reused |
| Reaper.AsleepMeansAllDelivered | src/reaper_linux.go:41-54 | When no signal, token or awake reaper is left, there is no zombie and every tracked child still runs or has been delivered |
| Reaper.DrainDelivers | src/reaper_linux.go:60-87 | When a drain is over, every tracked child that had exited before it has been told its own code |
| Reaper.TakenOnce | src/reaper_linux.go:95-105 | What was sent to a tracked child has been taken exactly once or is still in its channel |
| Reaper.Reaper.Wait4 | src/reaper_linux.go:60-87 | Collects one zombie or finds none and ends the drain |
| Reaper.Reaper.Lookup | src/reaper_linux.go:71-84 | The lookup and send, with the default branch proved dead |
| Reaper.Reaper.Reap | src/reaper_linux.go:60-87 | Afterwards there is nothing left to collect, and every tracked child that had exited on entry has been told its code, whatever the rest of the system does in between |
| Reaper.Reaper.Turn | src/reaper_linux.go:41-54 | The same for a turn of the reaper goroutine |
| Reaper.Reaper.TrackChild | src/reaper_linux.go:95-105 | Start and registration under the lock give a channel nobody has used, or nothing exactly when the start fails |
| Backup.FormatOrder | src/backup.go:48-54 | Lexical order of the formatted names is chronological order, and no two instants share a name |
| Backup.NamesAreStamps | src/backup.go:48-54 | The retention pattern matches exactly the formatted dates, so no directory of any other name is ever pruned |
| Backup.SortStringsSorts | src/backup.go:227 | Sorting keeps the names and orders them |
| Backup.FrontIsOldest | src/backup.go:227-234 | Every name outside a front part of the sorted list is newer than all of it |
| Backup.SurvivesExactly | src/backup.go:211-236 | A backup outlives a successful prune exactly when fewer than BackupRetain are newer |
| Backup.ExcessExactly | src/backup.go:222-228 | The names a prune sets out to remove are exactly those with at least BackupRetain newer ones in the listing |
| BackupRuns.OneBackupAtATime | src/backup.go:121-125 | Over any number of triggers, interleaved in any way: the flag is set exactly while a backup runs, and no two ever run at once |
| BackupRuns.PruneRemovesExactly | src/backup.go:211-236 | With other triggers in between, a prune without an error removes exactly the listed backups with at least BackupRetain newer ones in its listing |
| BackupRuns.PruneRemovesOldest | src/backup.go:211-236 | However far it got, it removed a set of oldest ones and left at least BackupRetain of those listed; min(n, retain) of them after a success |
| BackupRuns.PruneAlone | src/backup.go:211-236 | With nobody else in between, the directory afterwards is the one before without those; other entries are untouched |
| BackupRuns.LostOnlyToNewer | src/backup.go:211-236 | On every run a backup disappears only because some listing held at least BackupRetain newer ones, or because its own failing pg_basebackup takes it away |
| BackupRuns.NewBackupIsKept | src/backup.go:66-109 | With a clock that does not go back the backup just taken survives its own prune and late ones of earlier triggers, as long as no other backup is admitted |
| BackupRuns.OverlapLosesBackup | src/backup.go:89-109 | With BackupRetain 1, a run in which a second trigger's directory displaces a backup already counted, and the second one then fails |
| BackupRuns.BackupDir.PruneOldBackups | src/backup.go:211-236 | One listing, then removals in order up to the first failure, whatever other triggers do in between |
| BackupRuns.BackupDir.RunBackup | src/backup.go:121-143 | A trigger that finds the flag set is turned away with nothing changed; otherwise it acquires the flag first and releases it last, with the tool's own answer |
| BackupRuns.BackupDir.PerformBackup | src/backup.go:66-109 | Neither a wrong role nor an overlap counts as a failure; a real run is counted once, after it has released the guard; only a success into the directory goes on to one prune |
| StateFile.FileIsWhole | src/statepersist.go:110-125 | On every history of restarts with saves in turn, the state file is absent or the complete snapshot of the last rename |
| SharedSaves.ContentExactly | src/statepersist.go:110-125 | On every interleaving of saves and process deaths a file is one complete text, namely the last one written to it, if and only if the last access to it was a write no shorter than what it held |
| SharedSaves.RenameTearsExactly | src/statepersist.go:124 | A rename makes a torn file the state file if and only if the last access to the temporary file was an open or a shorter write |
| SharedSaves.LateWriteTearsExactly | src/statepersist.go:120-123 | A save whose file was renamed under it leaves the state file whole exactly when it covers what is there |
| SharedSaves.NothingElseTouches | src/statepersist.go:110-125 | No other step changes the state file, the end of the process included |
| SharedSaves.StateFileIsWholeExactly | src/statepersist.go:84-125 | At every moment of every run, a state file that some save has touched is whole if and only if the last access to it, under either name, was a covering write |
| SharedSaves.SavesInTurnStayWhole | src/statepersist.go:104-125 | Without overlap the state file is absent or one complete text at every moment |
| SharedSaves.SaveInTurn | src/statepersist.go:110-125 | One save alone leaves the state file as it was up to its rename, and its text afterwards |
| SharedSaves.OverlappingSavesTear | src/statepersist.go:120-124 | A run in which a save opens between another's write and rename, and an empty state file is left |
| SharedSaves.ShorterSaveMixes | src/statepersist.go:120-124 | A run in which two saves leave a mixture of a longer and a shorter text |
| StateFile.MemoryIsAhead | src/statepersist.go:38-58 | The running counters are never behind the file while its boots keep the counters |
| StateFile.FloorIsKept | src/statepersist.go:38-125 | From any state on, what the file and the process are both above stays under both through every history of keeping boots |
| StateFile.CountersNeverDecrease | src/statepersist.go:38-125 | Persisted counters never decrease over any history in which every boot reads the file or finds at most a first start in it |
| StateFile.BootNeverLosesExactly | src/statepersist.go:38-78 | Every history after a boot, with keeping boots later, ends with at least what was persisted before it, if and only if the boot could read the file or it held at most a first start |
| StateFile.UnreadableFileResets | src/statepersist.go:38-58 | A history in which one unreadable boot sets the persisted start count back |
| StateFile.StartsAreCounted | src/statepersist.go:38-58 | While reads succeed, the persisted start count is exactly the number of boots of which a save reached the file, and a running process counts one more until its own has |
| StateFile.Process.SavePersistedState | src/statepersist.go:110-125 | The three file operations in order; nil when all succeeded and then the snapshot is the state file, an error when the last one tried failed and then the state file is what it was, wherever the process may die |
| StateFile.Process.InitPersistentState | src/statepersist.go:38-58 | The counters of a new process are those of the file with one more start, or a first start without a readable one; a save follows at once |
| PgHba.SplitJoin | src/bootstrap.go:246-266 | Splitting the joined lines gives the lines back |
| PgHba.TrimsBothEnds | src/bootstrap.go:246-248 | Blanks at both ends of a line go and nothing else does |
| PgHba.HbaUpsertLine | src/bootstrap.go:239-269 | The loop writes the specified file exactly when the line is missing and the write succeeds; a failed write leaves the old file or a first part of the new one |
| PgHba.UpsertKeepsOthers | src/bootstrap.go:239-269 | Every line without the prefix survives, in order and unchanged |
| PgHba.UpsertIsIdempotent | src/bootstrap.go:239-269 | The desired line is present afterwards and a second call changes nothing |
| PgHba.ChangedFileHasOneMatch | src/bootstrap.go:239-269 | A changed file has exactly one prefixed line, and it is the last |
| PgHba.ChangedExactlyWhenMissing | src/bootstrap.go:253-262 | The file changes if and only if no line reads as the desired one |
| PgHba.OneMatchExactly | src/bootstrap.go:253-262 | Exactly one prefixed line remains if and only if the desired line was missing or there was exactly one before |
| PgHba.FirstUpsertAppends | src/bootstrap.go:263-266 | A file without a prefixed line is kept byte for byte and gets one more line |
| PgHba.StaleDuplicateStays | src/bootstrap.go:253-262 | A file in which a stale prefixed line stays because the desired one is present |
| Quoting.TwoPassesAreOneEscape | src/db.go:50-54 | The two replacement passes are one escape per character |
| Quoting.DsnQuoteRoundTrips | src/db.go:50-54 | Parsing the quoted value gives it back, whatever follows, if and only if it holds no NUL |
| Quoting.UnquotedFieldRoundTrips | src/rewind.go:57-68 | A value put into a connection string without quotes, with more to follow, is read back if and only if it is plain |
| Quoting.InfoRoundTrips | src/rewind.go:57-68 | A whole connection string of such fields is read back as them if and only if every value is plain |
| Quoting.RewindInfoRoundTrips | src/rewind.go:57-68 | The string of runRewind is read back as its seven fields if and only if the five settings are plain |
| Quoting.ConnInfoRoundTrips | src/rewind.go:129-132 | The string of configureAsStandby is read back as its six fields if and only if the five settings are plain |
| Quoting.EmptyPasswordSwallows | src/rewind.go:57-68 | With an empty password the next keyword and its value are read as the password |
| Quoting.PgIdentRoundTrips | src/bootstrap.go:447 | Scanning the delimited identifier gives the name back if and only if it is not empty and no further quote follows |
| Quoting.PgLiteralRoundTrips | src/bootstrap.go:448 | Scanning the literal gives the string back if and only if no further quote follows |
| HaTest.FindPrimary | hatest/HaTest.java:188-202 | A node is returned exactly when it is the only primary, and split-brain is reported exactly when two are |
| HaTest.WindowsAreTheOutages | hatest/HaTest.java:340-388 | The reported windows are all the longest stretches of attempts without a single primary, each with its own times |
| HaTest.WindowsAreOrdered | hatest/HaTest.java:340-388 | Windows follow each other without overlap inside the run |
| HaTest.Classify | hatest/HaTest.java:422-441 | The loop lists exactly the lost rows and the gaps, in order, and counts the rest |
| HaTest.Accounted | hatest/HaTest.java:422-441 | attempted = lost + gaps + not acknowledged + (committed and present); committed - lost + gaps = rows present in range |
| HaTest.Bench.WriteUntil | hatest/HaTest.java:308-388 | Ends only at the deadline or interrupted; every attempt asks both nodes, creates the table once, writes to the one primary there is, and counts as acknowledged exactly when its write was; attempts keep the interval |
| HaTest.Bench.RunTest | hatest/HaTest.java:277-446 | The report of a validated run accounts for every attempt and is ok if and only if every acknowledged row is present; every other run is not ok and says exactly what kept it from validation |

## Left out

- HTTP servers and clients, TLS, tokens, DNS and database queries: their answers are arbitrary.
- The inside of initdb, pg_rewind, pg_basebackup and promotion: only success or failure and what is left in PGDATA.
- The Windows Service loop, metrics, logging, the command line and the rest of the environment parsing.
- maintenanceActive, shutdownInProgress and switchoverInProgress, which HTTP goroutines set for display.
- WAL, timelines, replication lag and lost transactions, which belong to PostgreSQL.
- Cluster.SafeExactlyUnderAllHypotheses: the operator's `?force=true`, a partition, a check that races the peer's, a late promote request and an unconfirmed kill are hypotheses; the code does not enforce them.
- Journal.ExactlyOneNodeCanInitdb: the hostname is the same whenever it is read; when reading it fails at bootstrap the node counts as ordinal zero (`Hostname.OrdinalZero`).
- Cluster.FailoverHappens: without times; when the monitor promotes is the subject of `Failover.dfy`.
- World.World.AwaitExit: takes the broadcast of `ChildWatch.dfy` as one step.
- Supervisor.Supervisor.HandleTerminationSignal: the time the HTTP servers take to stop afterwards is not counted.
- Supervisor.Supervisor.Run: the handlers that wait for a request's result are folded into the loop; a client that goes away is not modelled.
- Supervisor.Supervisor.Select: an exit request is served later than it is made, and a start may come in between; the exit then takes the child with it (`Journal.HeldSince`).
- Rewind.RejoinAsStandby: how a configuration file's own lexer reads the quoted primary_conninfo is not modelled; the connection string in it is (`Quoting.ConnInfoRoundTrips`).
- Reaper.Reaper.Reap: a wait status is taken as already decoded; `128 + signal` is not modelled. A channel is named by the child it was made for.
- Reaper.Reaper.Work: the clause that a signal is eventually turned into a token is not a liveness theorem; `AsleepMeansAllDelivered` says nothing is pending once nothing is under way.
- StateFile.FileIsWhole: its histories have saves in turn; `SharedSaves.dfy` has them overlap. A power loss that undoes a rename is not modelled.
- SharedSaves.ContentExactly: the text of a save is written in one step or not at all, and is any text with one closing brace, at its end; JSON itself is not modelled.
- PgHba.HbaUpsertLine: an unreadable file returns its error before anything else and is not modelled; the desired line is trimmed, has no newline and starts with the prefix, as both callers build it.
- BackupRuns.BackupDir.PruneOldBackups: the directory listing is one step, and an entry whose removal fails half way keeps its name.
- Backup.FormatOrder: instants are calendar fields; the conversion from a clock reading is not modelled.
- HaTest.Bench.RunTest: heartbeat lines, closing of connections and the error texts are left out; the wait between writes is not negative.
