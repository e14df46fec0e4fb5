# tymux: a model of the daemon's core protocols

tymux is a terminal multiplexer daemon. This project models the parts of its core that are small
stateful protocols, and proves what they are for:

- **Restart supervision** (`Restart`, `RestartRuns`, `RestartLaws`, `Lifecycle`, `LifecycleInv`,
  `LifecycleTheorems`, `LifecycleLaws`, `Supervision`). One supervisor is a value with transitions and an
  object that makes them in place; whole runs of calls are replayed to state budget and backoff over complete histories. The daemon is
  a state machine whose steps are the critical sections of the supervision mutex, split at every store
  that clients see, and the steps of the reader threads: recording an exit, looking for the hook,
  accounting, publishing. Its invariant holds in every interleaving, and the class `Supervision` takes
  exactly its steps.
- **Gap-free output resume** (`ReplayBuffer`, `Resume`, `ReplayLaws`). What the buffer keeps is specified from the
  whole output history; a writer and a reconnecting client run in any interleaving.
- **Split-tree layout** (`Layout`, `LayoutRuns`, `LayoutLaws`). Tiling, split and remove as inverses, the size floor
  over runs with its exact condition.
- **Engine structure** (`Engine`, `EngineInv`, `EngineLoad`, `EngineTheorems`, `EngineLaws`, `EngineObject`,
  `SplitRace`). Sessions, windows and panes with the reverse index, over all runs of whole operations; and what one
  operation between the two lock sections of a split can do.
- **Persistence** (`Persistence`, `EngineRestart`, `DaemonRestart`, `PersistOrder`, `PersistLaws`). Round trips of
  records, a whole daemon restart, and the order of saves against deletes under the persist lock.
- **Resize** (`Resize`, `ResizeLaws`). Concurrent viewport reports on one window converge to the least of the
  last reports.
- **Keystroke reassembly** (`Input`, `InputKeys`, `InputOrder`, `InputPaste`). Conservation, the exact condition for order,
  and transparent paste.

The modules named `...Laws` (and `InputKeys`) state what the steps of the others amount to without their own
vocabulary: budgets by counting events, delays by their recurrence, answers by the resulting geometry, window
sizes and files by the calls of a run.

Conventions. `f64` and `f32` are reals. `u16`, `u32` and `u64` saturate or truncate where the program
says so; elsewhere a theorem bounds the value. The clock never runs backwards and never reads 0, since
an entry of the restart log at time 0 counts as expired. Random ids are new ids. Spawn results, signal
results, exit codes, jitter samples and save results are arguments of a step, so a theorem over all runs
covers every choice of them. Where a comment and the code differ the code is followed: a replay buffer
with budget 0 still keeps its newest chunk (crates/tymux-core/src/replay_buffer.rs:44-48 says otherwise),
and `validate_structure` checks the sum of two ratios only, so that ratios lie in [0, 1] is asked of
loaded records here.

A few results name the exact condition of a property that does not hold unconditionally: the size floor
(`LayoutRuns.ShrinkBreaksFloor`, `LayoutRuns.FloorIffEnoughRoom`), the record round trip
(`Persistence.RoundTripIffConsistent`, `EngineRestart.SecondRoundIsStable`), which validated records may be
loaded (`DaemonRestart.LoadAgreesIff`), whether the disk is current (`PersistOrder.DiskIsCurrentIff`), the
active window (`EngineTheorems.ActiveWindowExistsIff`), forwarding order (`InputOrder.OrderKeptIff`), what a
client waiting for the final exit is told (`LifecycleTheorems.FinalWhileComingBackIff`), what
`set_policy` promises about a pending restart (`RestartRuns.PolicyChangeKeepsPromiseIff`: it judges a backoff
by the last exit even when a failed spawn caused it), and the promise above `Engine` that a reader never sees
a leaf without a pane (`SplitRace.LeafBeforePane`, `SplitRace.SplitSurvivesUnlessKilled`,
`SplitRace.SplitPanicsIffKilled`).

## Model

| member | source | states |
|---|---|---|
| `Restart.PaneSupervisor.New` | crates/tymux-core/src/restart.rs:279-292 | a new supervisor is Exited, with nothing counted, logged, pending or requested |
| `Restart.PaneSupervisor.FromPersisted` | crates/tymux-core/src/restart.rs:298-316 | restoring keeps policy, counters, log and last exit; only Stopped and Failed survive as states |
| `Restart.PaneSupervisor.OnStarted` | crates/tymux-core/src/restart.rs:380-386 | the in-place update is exactly the transition the run theorems replay |
| `Restart.PaneSupervisor.OnExit` | crates/tymux-core/src/restart.rs:389-418 | stop request before restart request before policy; new state and reported kind are those of the transition replayed in runs |
| `Restart.PaneSupervisor.OnSpawnFailed` | crates/tymux-core/src/restart.rs:422-426 | a failed spawn walks the same failure path, never counts as a healthy run, and is the transition replayed in runs |
| `Restart.PaneSupervisor.AfterFailure` | crates/tymux-core/src/restart.rs:428-461 | the pop loop and the branches after it give the state and kind of the transition that budget and backoff theorems are about; `RestartLaws.GivesUpIff` says from the whole history when it gives up |
| `Restart.PaneSupervisor.PruneLog` | crates/tymux-core/src/restart.rs:447-450 | the pop loop leaves `Prune` of the old log |
| `Restart.PruneIsSuffix` | crates/tymux-core/src/restart.rs:447-450 | pruning keeps a suffix, drops only entries at or before the window start, and stops at the first later one |
| `Restart.PaneSupervisor.BeginRestart` | crates/tymux-core/src/restart.rs:469-476 | only an automatic restart is logged; the update is the transition replayed in runs |
| `Restart.PaneSupervisor.ScheduleManualRestartNow` | crates/tymux-core/src/restart.rs:480-485 | arms an immediate deadline, as replayed in runs |
| `Restart.PaneSupervisor.RequestStop` | crates/tymux-core/src/restart.rs:488-501 | tells whether a process must be signaled, and parks the supervisor as replayed in runs |
| `Restart.PaneSupervisor.RequestRestart` | crates/tymux-core/src/restart.rs:506-518 | a restart request as replayed in runs, with the optional backoff reset |
| `Restart.PaneSupervisor.ResetForStart` | crates/tymux-core/src/restart.rs:521-527 | an operator start forgets counters, log and requests, as replayed in runs |
| `Restart.PaneSupervisor.ResetBudget` | crates/tymux-core/src/restart.rs:531-537 | a budget reset clears the budget and moves only Failed, to Exited, as replayed in runs |
| `Restart.PaneSupervisor.SetPolicy` | crates/tymux-core/src/restart.rs:541-554 | a policy that no longer wants the pending restart cancels it, as replayed in runs |
| `RestartRuns.PerformAll` | crates/tymux-core/src/restart.rs:380-554 | a sequence of calls on the object, daemon restarts included, is the run that all the theorems on runs are about |
| `RestartRuns.BudgetInvHolds` | crates/tymux-core/src/restart.rs:428-476 | from any supervisor, along every legal run that leaves policy and budget alone, the log ends with the latest automatic restarts since then, all others since then have expired, and the limit is kept |
| `RestartRuns.WindowBudgetFrom` | crates/tymux-core/src/restart.rs:353-476 | from any moment on, with policy and budget left alone, every window of the automatic restarts since then holds at most max_restarts, or one that was already scheduled at that moment |
| `RestartRuns.BudgetSince` | crates/tymux-core/src/restart.rs:353-554 | the same at any point of any run, under the policy of that point: after operator starts, resets, policy changes and daemon restarts; without a window the total is bounded |
| `RestartRuns.ScheduledSurvivesZeroBudget` | crates/tymux-core/src/restart.rs:541-554 | the one restart over the limit happens: scheduled before a policy that allows none |
| `RestartRuns.SlidingWindowBudget` | crates/tymux-core/src/restart.rs:353-476 | for every automatic restart at t in any legal run under a fixed policy (failed spawns, daemon restarts included), at most max_restarts of the whole history lie in (t - window_ms, t] |
| `RestartRuns.LifetimeBudget` | crates/tymux-core/src/restart.rs:353-476 | with window_ms = 0 a run has at most max_restarts automatic restarts in all |
| `RestartRuns.DelayInBand` | crates/tymux-core/src/restart.rs:169-179 | every delay is within rounding of [base(1-jitter), min(base(1+jitter), max_delay_ms)] and never above max_delay_ms; base lies between initial and maximal delay and grows as `RestartLaws.BackoffGrows` says |
| `RestartRuns.DelayMonotone` | crates/tymux-core/src/restart.rs:169-179 | without jitter more failures never mean a shorter delay |
| `RestartRuns.DelaysNeverDecrease` | crates/tymux-core/src/restart.rs:428-461 | in a run without healthy run or reset the i-th delay is the policy's delay after i failures, so zero-jitter delays never decrease |
| `RestartRuns.HealthyRunResetsBackoff` | crates/tymux-core/src/restart.rs:444-457 | a run of at least healthy_after_ms puts the next delay back to the first one |
| `RestartRuns.NoRestartBeforeItsDelay` | crates/tymux-core/src/restart.rs:455-476 | in any legal run no automatic restart begins before failure time plus the delay chosen at that failure |
| `RestartRuns.RestoreAfterPersist` | crates/tymux-core/src/restart.rs:298-327 | restore after persist changes only running states, is idempotent, and is exact iff the state was Exited, Stopped or Failed |
| `RestartRuns.RestoredNeverDue` | crates/tymux-core/src/restart.rs:298-316 | no sequence of policy changes, budget resets, stops and reloads makes a restored pane due |
| `RestartRuns.CountersTellHistory` | crates/tymux-core/src/restart.rs:389-476 | through every run, resets, policy changes and daemon restarts included, restart_count is the number of restarts begun and last_exit the latest exit |
| `RestartRuns.PolicyChangeKeepsPromiseIff` | crates/tymux-core/src/restart.rs:539-554 | a pending backoff is cancelled exactly when the mode of the new policy would not have scheduled it, iff it does not come from a failed spawn after a clean exit under a new on-failure mode |
| `RestartRuns.PolicyChangeCanBreakPromise` | crates/tymux-core/src/restart.rs:539-554 | that exception is reachable: a legal run ending in it |
| `RestartLaws.GivesUpIff` | crates/tymux-core/src/restart.rs:353-461 | in any legal run of a new pane under a fixed policy, an exit the policy wants restarted, with nothing requested, ends in Failed iff max_restarts automatic restarts of the whole history lie in the window that ends now (without a window: in all); otherwise a restart is scheduled, so a used budget comes back |
| `RestartLaws.SpawnGivesUpIff` | crates/tymux-core/src/restart.rs:422-461 | the same for a spawn that failed |
| `RestartLaws.PruneCounts` | crates/tymux-core/src/restart.rs:447-450 | what pruning leaves of a log in order is exactly the entries after the window start |
| `RestartLaws.BackoffGrows` | crates/tymux-core/src/restart.rs:169-179 | the backoff starts at initial_delay_ms, each further failure multiplies it by the multiplier up to max_delay_ms, and from the 1024th on it stays |
| `RestartLaws.DelayWithoutJitter` | crates/tymux-core/src/restart.rs:169-179 | without jitter the delay is that backoff, rounded to the nearest millisecond |
| `RestartLaws.DelayReachesEnds` | crates/tymux-core/src/restart.rs:165-179 | the samples 0 and 1 reach the lower end of the band and its upper end, capped by max_delay_ms |
| `RestartLaws.SampleIsClamped` | crates/tymux-core/src/restart.rs:165-179 | a sample outside [0, 1] counts as the nearer end |
| `RestartLaws.DoublingToThirtySeconds` | crates/tymux-core/src/restart.rs:169-179 | one second, doubling, at most thirty, no jitter: 1, 2, 4, 8, 16, 30, 30 seconds |
| `RestartLaws.BackoffGoesOnUnlessHealthy` | crates/tymux-core/src/restart.rs:389-461 | the delay goes on from the failures so far unless the process ran for healthy_after_ms or longer, bound included; due that long after the exit, saturating; the failure is counted |
| `RestartLaws.RefusedIff` | crates/tymux-core/src/restart.rs:146-163 | a policy is refused iff its multiplier is below 1, its jitter outside [0, 1], or its maximal delay below the initial one |
| `RestartLaws.ModesWant` | crates/tymux-core/src/restart.rs:435-439 | on-failure restarts after anything but a clean exit, always after every exit, unless-stopped decides as always, never not at all |
| `RestartLaws.FailedSpawnCounts` | crates/tymux-core/src/restart.rs:422-426 | a failed spawn is retried or given up in every mode but never, whatever the last exit was, and leaves the last exit alone |
| `RestartLaws.ResetStartsOver` | crates/tymux-core/src/restart.rs:506-537 | after a budget reset, an operator start or a restart with reset, the next failure is scheduled with the first delay whenever any restart is allowed |
| `RestartLaws.BudgetResetLeavesFailed` | crates/tymux-core/src/restart.rs:531-537 | a budget reset takes a pane out of Failed and touches no other state, nor anything scheduled or requested |
| `RestartLaws.LatestPolicyInForce` | crates/tymux-core/src/restart.rs:298-554 | through every run, resets, stops and daemon restarts included, the policy in force is that of the latest change |
| `LifecycleInv.InvStep` | crates/tymux-core/src/supervision.rs:101-462 | every lock section and every reader step keeps the protocol invariant |
| `LifecycleInv.InvRun` | crates/tymux-core/src/supervision.rs:101-462 | the protocol invariant holds after every interleaving |
| `LifecycleTheorems.NoStuckRestart` | crates/tymux-core/src/supervision.rs:202-275 | between lock sections each lifecycle state has exactly the process and deadline it should have, so nothing pending is ever forgotten |
| `LifecycleTheorems.AccountedExactlyOnce` | crates/tymux-core/src/pane.rs:619-646 | each finished process generation of a supervised pane was accounted exactly once, whichever way hook installation raced the reader |
| `LifecycleTheorems.PublishedIsSettled` | crates/tymux-core/src/supervision.rs:164-199 | between lock sections a published exit means no process is counted and the pane's restart_pending equals the supervisor's |
| `LifecycleTheorems.FinalWhileComingBackIff` | crates/tymux-core/src/pane.rs:919-930 | at every point of every run, lock held or not, the pair of flags a client waits on says final while the pane comes back iff its exit is published and the section under way is an operator start or restart of a pane with nothing pending, or accounts an exit published before the hook existed, and has decided on a restart |
| `LifecycleTheorems.AnnouncedNeverLooksFinal` | crates/tymux-core/src/supervision.rs:181-275 | so never between sections, nor for an automatic or scheduled restart, a policy change or an exit the hook reported |
| `LifecycleTheorems.OperatorOpensWindow` | crates/tymux-core/src/supervision.rs:397-451 | every operator start or restart of a published pane with nothing pending does open that window |
| `LifecycleTheorems.StartOpensWindow` | crates/tymux-core/src/supervision.rs:439-451 | a reachable state in the window of an operator start |
| `LifecycleTheorems.MissedExitOpensWindow` | crates/tymux-core/src/supervision.rs:164-199 | a reachable state in the window of an exit published before registration |
| `LifecycleTheorems.StopParks` | crates/tymux-core/src/supervision.rs:349-393 | a stop that returned Ok leaves the pane Stopped |
| `LifecycleTheorems.ParkedStep` | crates/tymux-core/src/supervision.rs:181-451 | one event other than an operator start or restart keeps a parked pane parked; only a budget reset moves Failed, to Exited |
| `LifecycleTheorems.GenerationStep` | crates/tymux-core/src/pane.rs:663-722 | a retired pane, or one whose entry is parked, is given no process by any event: an operator start or restart has to move the entry first |
| `LifecycleTheorems.ForgetRetires` | crates/tymux-core/src/supervision.rs:154-162 | forgetting removes the entry and retires the pane object |
| `LifecycleTheorems.ForgottenNeverRespawned` | crates/tymux-core/src/pane.rs:663-722 | a retired pane object is never given another process, whatever happens |
| `LifecycleTheorems.StopAndCloseWin` | crates/tymux-core/src/supervision.rs:154-462 | from Stopped, Failed or Exited, along any run without operator start or restart of the pane, it is never respawned and stays parked, or is forgotten |
| `LifecycleTheorems.ProtocolKeepsBudget` | crates/tymux-core/src/supervision.rs:202-275 | from any moment in the history of any pane, started, revived, reset or given a policy just before, the automatic restarts the protocol really performs since then keep the budget of that moment; `LifecycleLaws.CallsRun` says that these are the due restarts that find Backoff |
| `LifecycleTheorems.ProtocolWaitsOutDelays` | crates/tymux-core/src/supervision.rs:245-266 | in the protocol no automatic restart begins before its failure time plus delay |
| `LifecycleLaws.CallsRun` | crates/tymux-core/src/supervision.rs:181-462 | the calls a run of protocol events makes on a supervisor, of which exactly the respawns that find it in Backoff are charged |
| `LifecycleLaws.DueRestartsKeepBudget` | crates/tymux-core/src/supervision.rs:245-275 | over any run of protocol events that leaves policy and budget of a pane alone, the due restarts that find it in Backoff, counted as events, keep the sliding window, and without a window the total |
| `LifecycleLaws.DueRestartCosts` | crates/tymux-core/src/supervision.rs:245-266 | a due restart out of Backoff is logged at its time, one that an operator asked for costs nothing; both begin a spawn of that very pane |
| `LifecycleLaws.RefusedSignalChangesNothing` | crates/tymux-core/src/supervision.rs:349-436 | a stop or a restart whose signal was refused leaves every supervisor as it was |
| `LifecycleLaws.StopStoresFlag` | crates/tymux-core/src/supervision.rs:349-393 | after a stop, refused or not, the pane announces a restart iff its supervisor has one pending; the process is the same |
| `LifecycleLaws.StartBeginsAfresh` | crates/tymux-core/src/supervision.rs:439-451 | an operator start begins a spawn with empty log and no failures, under the same policy |
| `LifecycleLaws.RestartOfLiveIsDueAtExit` | crates/tymux-core/src/supervision.rs:397-436 | a restart of a running pane is due the moment its process exits, and is not charged |
| `LifecycleLaws.RestartBeforePublishIsDue` | crates/tymux-core/src/supervision.rs:397-436 | a restart asked for between accounting and publication of the exit is due at once, and is not run before the publication |
| `LifecycleLaws.AdoptKeepsPolicy` | crates/tymux-core/src/supervision.rs:138-150 | a restored pane that is given a process keeps policy and count; log and failures start over |
| `LifecycleLaws.RegisterRestoredTakesRecord` | crates/tymux-core/src/supervision.rs:117-134 | a pane known from its record has no process, nothing pending, and the restart history of the record, Stopped or Failed iff it was; without one, the policy given |
| `LifecycleLaws.RegisterTakesPolicy` | crates/tymux-core/src/supervision.rs:101-114 | a new pane is supervised from the time given under the policy given |
| `LifecycleLaws.LastExitTellsProcess` | crates/tymux-core/src/supervision.rs:181-199 | between lock sections the last exit of a pane without a process is the exit code and the signal of the process it had last |
| `LifecycleLaws.NewProcessIsClean` | crates/tymux-core/src/pane.rs:663-722 | a new process starts without exit code and signal, and an exit code is the one that was reaped |
| `LifecycleLaws.SignalWasSent` | crates/tymux-core/src/pane.rs:838-849 | a process is said to have been signaled only if a stop or restart signaled it while it ran |
| `LifecycleLaws.ChangesAreMarked` | crates/tymux-core/src/supervision.rs:181-462 | over any run in which a pane stays registered, a pane whose persistent restart state changed is marked to be saved |
| `LifecycleTheorems.InjectsOnlyWhenReaderIsQuiet` | crates/tymux-core/src/pane.rs:781-794 | every event that injects output finds the child reaped, so the output stream has one writer at a time |
| `Supervision.Supervision.RegisterLive` | crates/tymux-core/src/supervision.rs:101-114 | is the register and hook events of the protocol, with a missed exit accounted |
| `Supervision.Supervision.RegisterRestored` | crates/tymux-core/src/supervision.rs:117-134 | is the restore event of the protocol: no pane object, and the saved restart state or a new one |
| `Supervision.Supervision.AdoptStarted` | crates/tymux-core/src/supervision.rs:138-150 | is the adopt and hook events of the protocol, with the clock read before the lock: the policy is kept, the budget starts over |
| `Supervision.Supervision.InstallHook` | crates/tymux-core/src/supervision.rs:164-173 | installs the hook and accounts an exit the reader has already checked for, as in the protocol |
| `Supervision.Supervision.HandleExit` | crates/tymux-core/src/supervision.rs:176-179 | is the hook's section of the protocol: the supervisor decides, then the flag is stored, then the reader goes on |
| `Supervision.Supervision.AccountExit` | crates/tymux-core/src/supervision.rs:181-199 | accounts only the pane object its entry points to, and answers whether a restart is pending |
| `Supervision.Supervision.Forget` | crates/tymux-core/src/supervision.rs:154-162 | is the forget event of the protocol |
| `Supervision.Supervision.DoRespawn` | crates/tymux-core/src/supervision.rs:202-240 | is the respawn section of the protocol: begin, spawn, then started or spawn-failed; Ok iff exactly this pane object got one more process |
| `Supervision.Supervision.SetPolicy` | crates/tymux-core/src/supervision.rs:322-345 | is the policy event of the protocol, refused for an invalid policy |
| `Supervision.Supervision.Stop` | crates/tymux-core/src/supervision.rs:349-393 | is the stop event of the protocol; Ok exactly when no running process refused the signal |
| `Supervision.Supervision.Restart` | crates/tymux-core/src/supervision.rs:397-436 | is the restart section of the protocol; answers whether the process is replaced later or was replaced now, and a process appears only in the latter case |
| `Supervision.Supervision.Start` | crates/tymux-core/src/supervision.rs:439-451 | is the start section of the protocol, refused iff the pane runs; a process appears iff it answers Ok |
| `Supervision.Supervision.ResetBudget` | crates/tymux-core/src/supervision.rs:453-462 | is the budget-reset event of the protocol |
| `Supervision.Supervision.RunDue` | crates/tymux-core/src/supervision.rs:245-275 | is a run of the protocol that respawns every due pane, charged as `LifecycleLaws.DueRestartCosts` says; the returned wake-up time is after now and is the least max(deadline, now+1) of all waiting panes |
| `Supervision.Supervision.NextWake` | crates/tymux-core/src/supervision.rs:267-275 | the least max(deadline, now+1) over waiting panes, None iff none waits |
| `Supervision.Supervision.Terminate` | crates/tymux-core/src/pane.rs:838-849 | remembers the signal and fails only when there is a process that cannot be signaled |
| `ReplayBuffer.RetainedIsLongestFit` | crates/tymux-core/src/replay_buffer.rs:101-109 | what is kept is the longest suffix of the whole history that fits, or the newest chunk alone |
| `ReplayBuffer.LongestFitIsUnique` | crates/tymux-core/src/replay_buffer.rs:101-109 | that description determines what is kept |
| `ReplayBuffer.RetainedAfterPush` | crates/tymux-core/src/replay_buffer.rs:101-109 | evicting at every push keeps the same as evicting once from the whole history |
| `ReplayBuffer.ReplayBuffer.Push` | crates/tymux-core/src/replay_buffer.rs:101-109 | after the eviction loop the queue is the retained suffix of the whole history and total_bytes is exact |
| `ReplayBuffer.ReplayBuffer.Oldest` | crates/tymux-core/src/replay_buffer.rs:117-119 | the oldest number still retained of the whole history |
| `ReplayBuffer.ReplayBuffer.Replay` | crates/tymux-core/src/replay_buffer.rs:134-160 | the answer is the one specified from the whole history |
| `ReplayBuffer.SliceToEnd` | crates/tymux-core/src/replay_buffer.rs:147-150 | filtering consecutive numbers up to the latest keeps exactly those past the resume point |
| `ReplayBuffer.SliceOfNumbered` | crates/tymux-core/src/replay_buffer.rs:147-150 | filtering consecutive numbers by (resume, latest] cuts out exactly that stretch |
| `ReplayBuffer.ReplayIsHistorySlice` | crates/tymux-core/src/replay_buffer.rs:134-160 | InWindow iff oldest retained <= resume <= latest, and then exactly the history slice (resume, latest] |
| `Resume.InvRun` | crates/tymux-core/src/pane.rs:560-611 | in every interleaving buffer, numbers and channel are those of the history |
| `Resume.ExactlyOnceResume` | crates/tymux-core/src/pane.rs:1007-1029 | replayed chunks plus later received ones with a number past tail_seq are every number after the resume point with a live form, once each and in order |
| `Resume.DeliveredIsPrefix` | crates/tymux-core/src/pane.rs:1007-1029 | before it caught up a client has a prefix of that: nothing early, nothing out of order |
| `Resume.LiveRangeNumbers` | crates/tymux-core/src/pane.rs:585-611 | live chunks of a range carry increasing numbers from that range |
| `Resume.LiveRangeComplete` | crates/tymux-core/src/pane.rs:585-611 | every piece in range with a live form is among them |
| `ReplayLaws.KeptIff` | crates/tymux-core/src/replay_buffer.rs:101-109 | a chunk is still held iff it is the newest, or its bytes and those of all later chunks fit the budget |
| `ReplayLaws.InWindowIff` | crates/tymux-core/src/replay_buffer.rs:134-160 | a resume is answered from the buffer iff the last chunk the client has is still held (an empty history: number 0) |
| `ReplayLaws.ResumeAnswer` | crates/tymux-core/src/pane.rs:1023-1028 | at any point of any run the answer to a resume, from the pieces pushed so far and their stripped bytes alone |
| `ReplayLaws.ClientSeesEachPieceOnce` | crates/tymux-core/src/pane.rs:560-611 | in every interleaving a resumed client that took all that was sent holds, number by number, the stripped form of each piece it lacked up to the tail and then the live form of each later piece sent that has one; numbers strictly increase |
| `Layout.ExactTiling` | crates/tymux-core/src/layout.rs:130-185 | for ratios in [0,1] and any size the leaf rectangles lie in the window, are disjoint, cover every cell, stay within u16 and come in leaves() order |
| `Layout.CoveredOnce` | crates/tymux-core/src/layout.rs:134-185 | every cell of the window is covered by exactly one leaf rectangle, every other cell by none |
| `Layout.GeometryInLeafOrder` | crates/tymux-core/src/layout.rs:130-185 | rectangles come in leaves() order |
| `Layout.ContainsIsLeaf` | crates/tymux-core/src/layout.rs:304-311 | contains answers true exactly for the ids in leaves() |
| `Layout.RemoveDeletesOne` | crates/tymux-core/src/layout.rs:248-302 | remove deletes exactly one id, keeps the order of the others, keeps ids distinct, and is WindowEmpty iff the tree was that leaf |
| `Layout.SplitAddsOne` | crates/tymux-core/src/layout.rs:327-351 | a split puts the new id right after its target and changes nothing else in leaves() |
| `Layout.SplitKeepsDistinct` | crates/tymux-core/src/layout.rs:327-351 | a split with a new id keeps ids distinct |
| `Layout.RemoveUndoesSplit` | crates/tymux-core/src/layout.rs:196-302 | removing what a split added gives back the original tree exactly |
| `Layout.SplitIsLocal` | crates/tymux-core/src/layout.rs:196-241 | a split leaves every other rectangle unchanged and divides the target's in two halves |
| `Layout.HalfExtent` | crates/tymux-core/src/layout.rs:358-360 | at ratio 0.5 the first extent is extent/2 |
| `Layout.GrowthIsMonotone` | crates/tymux-core/src/layout.rs:134-185 | growing the window shrinks no leaf in either dimension |
| `Layout.CloseNeverShrinks` | crates/tymux-core/src/layout.rs:248-302 | closing a pane makes no surviving pane smaller in either dimension |
| `LayoutLaws.SplitGeometry` | crates/tymux-core/src/layout.rs:134-185 | side by side for a horizontal split, on top of each other for a vertical one: the first child gets the whole part of its share, the second all the rest |
| `LayoutLaws.SplitAnswerIff` | crates/tymux-core/src/layout.rs:196-241 | each answer of a split from the rectangles it would make: too small iff below 2 rows or 10 columns, else below the recommended size iff horizontal with fewer than 20 rows, else made; the sizes reported are those |
| `LayoutLaws.SplitAnswersOfOnePane` | crates/tymux-core/src/layout.rs:196-241 | the answers for a single pane of 24, 10 and 3 rows |
| `LayoutLaws.RemoveStrips` | crates/tymux-core/src/layout.rs:248-302 | remove is the tree with the leaf taken out and its split replaced by the other side, everything else, ratios and orientations included, as it was |
| `LayoutRuns.WindowLayout.Split` | crates/tymux-core/src/layout.rs:196-241 | answers the verdict of the target's present rectangle and changes the tree only when that is Done; `LayoutLaws.SplitAnswerIff` says from the new rectangles which answer that is |
| `LayoutRuns.WindowLayout.Close` | crates/tymux-core/src/layout.rs:248-302 | the window stays exactly when the tree was not that one leaf |
| `LayoutRuns.SplitFindsItsTarget` | crates/tymux-core/src/layout.rs:196-241 | PaneNotFound iff the target is no leaf |
| `LayoutRuns.FloorOverRuns` | crates/tymux-core/src/layout.rs:196-302 | over every run of splits, closes and growth every leaf stays at least MIN_PANE_ROWS x MIN_PANE_COLS |
| `LayoutRuns.FloorFromFirstPane` | crates/tymux-core/src/layout.rs:196-302 | so in every window that opens at or above the minimum size and never shrinks |
| `LayoutRuns.ShrinkBreaksFloor` | crates/tymux-core/src/engine.rs:1270-1345 | a concrete window whose shrinking puts a leaf below the minimum |
| `LayoutRuns.FloorIffEnoughRoom` | crates/tymux-core/src/layout.rs:130-185 | for the trees this program builds every leaf has the minimum size iff the window has the room computed from the tree's shape |
| `LayoutRuns.RunsBuildHalfTrees` | crates/tymux-core/src/layout.rs:196-302 | every tree built by splits and closes has ratio 0.5 everywhere |
| `EngineTheorems.InvNext` | crates/tymux-core/src/engine.rs:354-893 | every whole operation keeps index, layouts, panes and supervision in agreement |
| `EngineTheorems.IndexAgreesWithScan` | crates/tymux-core/src/engine.rs:274-303 | after any run the reverse index holds exactly the pairs a scan of every layout finds, and those leaves are exactly the panes and the supervised panes |
| `EngineTheorems.EachPaneOnce` | crates/tymux-core/src/engine.rs:274-303 | no pane is in two windows and no window in two sessions, over any run |
| `EngineTheorems.LookupNeverLies` | crates/tymux-core/src/engine.rs:404-413 | a lookup by pane fails iff no scan finds the pane, and else names where the scan finds it |
| `EngineTheorems.ActiveNextIff` | crates/tymux-core/src/engine.rs:742-893 | one operation leaves a session with an active window it does not have iff it loads it from such a record, or it was so before and the operation neither opens nor closes a window of it |
| `EngineTheorems.ActiveWindowExistsIff` | crates/tymux-core/src/engine.rs:742-893 | after any run a session's active window is none of its windows iff the session was loaded from such a record and has neither opened nor closed a window since |
| `EngineTheorems.BadRecordLoads` | crates/tymux-core/src/engine.rs:354-399 | a record that passes validation and the run that shows such a session |
| `EngineInv.CreateSessionInv` | crates/tymux-core/src/engine.rs:470-524 | creating a session keeps the agreement |
| `EngineInv.CreateWindowInv` | crates/tymux-core/src/engine.rs:851-893 | adding a window keeps the agreement |
| `EngineInv.SplitInv` | crates/tymux-core/src/engine.rs:675-736 | splitting keeps the agreement |
| `EngineInv.CloseTakesOut` | crates/tymux-core/src/engine.rs:742-848 | closing takes out exactly the pane, its window iff that was its last pane, its session iff that was its last window |
| `EngineInv.KillTakesOut` | crates/tymux-core/src/engine.rs:588-628 | killing takes out exactly the session with all its windows and panes |
| `EngineInv.LocateFinds` | crates/tymux-core/src/engine.rs:404-413 | the pair from the index is where the pane is, and is found iff the pane is known |
| `EngineInv.StartRestoredInv` | crates/tymux-core/src/engine.rs:998-1036 | starting a restored pane keeps the agreement |
| `EngineInv.ResizeInv` | crates/tymux-core/src/engine.rs:1301-1313 | writing a window's size keeps the agreement |
| `EngineLaws.CreateSessionOpens` | crates/tymux-core/src/engine.rs:470-524 | a new session has one active window named 0 of the default size with the one pane, supervised from the spawn on under the policy given; nothing else changes; an invalid policy changes nothing |
| `EngineLaws.CreateWindowActivates` | crates/tymux-core/src/engine.rs:851-893 | a new window goes last, is named by its number and becomes the active one; its pane is supervised under the session's default policy; nothing else changes |
| `EngineLaws.DecimalReadsBack` | crates/tymux-core/src/engine.rs:866-869 | that name, read as a decimal number, is the number, without leading zeros |
| `EngineLaws.SplitPlacesPane` | crates/tymux-core/src/engine.rs:675-736 | a split changes only the layout of the target's own window and keeps the active window; the new pane is supervised under the session's default policy; a refused one changes nothing |
| `EngineLaws.SplitOfUnknownPane` | crates/tymux-core/src/engine.rs:675-752 | splitting or closing a pane that no scan finds changes nothing |
| `EngineLaws.CloseKeepsActive` | crates/tymux-core/src/engine.rs:742-804 | closing a pane with neighbours changes only its window's layout: name, size, order and the active window stay |
| `EngineLaws.CloseActivatesFirst` | crates/tymux-core/src/engine.rs:742-804 | closing the last pane of a window removes the window, keeps the others in order and makes the first of them active; without any, the session goes |
| `EngineLaws.StartRestoredAfresh` | crates/tymux-core/src/engine.rs:998-1036 | starting a restored pane keeps policy, restart count and last exit; log, failures and requests start over; nothing else changes |
| `EngineLaws.ResizeOnlySizes` | crates/tymux-core/src/engine.rs:1301-1313 | a resize changes rows and columns of one window and nothing else |
| `EngineLaws.PanesInheritDefault` | crates/tymux-core/src/engine.rs:470-893 | over every run without loading and without a policy set by hand, each pane is supervised under the default its session was created with |
| `EngineLoad.LoadInv` | crates/tymux-core/src/engine.rs:354-399 | loading validated records with new, distinct ids and ratios in [0,1] keeps the agreement |
| `DaemonRestart.LoadAgreesIff` | crates/tymux-core/src/engine.rs:354-399 | and these conditions are exact: a validated record keeps the agreement iff its ids are new and distinct and its ratios in range |
| `DaemonRestart.SharedIdBreaksAgreement` | crates/tymux-core/src/engine.rs:354-399 | a record that passes validation and breaks the agreement of an empty engine, because one pane id is used twice |
| `EngineObject.EngineMaps.CreateSession` | crates/tymux-core/src/engine.rs:470-524 | the new maps are those of the operation in the run theorems; fails iff the policy is invalid or the spawn fails |
| `EngineObject.EngineMaps.CreateWindow` | crates/tymux-core/src/engine.rs:851-893 | the new maps are those of the operation in the run theorems; fails iff the session is unknown or the spawn fails |
| `EngineObject.EngineMaps.Find` | crates/tymux-core/src/engine.rs:404-413 | index lookups and the search for the window's position |
| `EngineObject.EngineMaps.SplitPane` | crates/tymux-core/src/engine.rs:675-736 | the new maps are those of the operation in the run theorems; each error case leaves everything as it was |
| `EngineObject.EngineMaps.ClosePane` | crates/tymux-core/src/engine.rs:742-848 | the new maps are those of the operation in the run theorems; tells which window and which session went with the pane |
| `EngineObject.EngineMaps.KillSession` | crates/tymux-core/src/engine.rs:588-628 | the loops remove exactly the session's windows and panes from every map |
| `EngineObject.EngineMaps.LoadPersisted` | crates/tymux-core/src/engine.rs:354-399 | the nested loops compute the load operation of the run theorems |
| `EngineObject.EngineMaps.LoadWindowRecord` | crates/tymux-core/src/engine.rs:364-387 | one window: dead entries, index and one supervisor per leaf |
| `SplitRace.TwoSections` | crates/tymux-core/src/engine.rs:675-736 | a split is its two sections, one after the other |
| `SplitRace.LeafBeforePane` | crates/tymux-core/src/engine.rs:687-721 | between the sections of every split a scan finds a leaf that has no pane, no supervisor and no index entry |
| `SplitRace.SplitSurvivesUnlessKilled` | crates/tymux-core/src/engine.rs:588-721 | with any number of whole operations of other threads in between, everything agrees again after the split iff none of them killed the session being split; else the new pane and its supervisor are left with no window |
| `SplitRace.SplitPanicsIffKilled` | crates/tymux-core/src/engine.rs:588-727 | with ids of their own in between, split_pane returns normally and with everything in agreement iff its session was not killed, and else panics while both locks are held |
| `SplitRace.PoisonedForever` | crates/tymux-core/src/engine.rs:675-736 | after such a panic no later operation changes sessions, panes or the index any more |
| `SplitRace.StrandedForever` | crates/tymux-core/src/engine.rs:675-736 | so the pane the kill stranded keeps its entry and its supervisor for good |
| `Persistence.LoadInserts` | crates/tymux-core/src/persistence.rs:164-184 | loading inserts exactly the tree's records in leaf order, and the live leaves are theirs |
| `Persistence.SaveAfterLoad` | crates/tymux-core/src/persistence.rs:94-184 | saving a loaded tree gives shape, ratios and records back, with the restart states of the moment |
| `Persistence.RoundTripIffConsistent` | crates/tymux-core/src/persistence.rs:94-184 | load then save is the identity iff no id stands for two different records; distinct ids suffice |
| `Persistence.SharedIdDoesNotComeBack` | crates/tymux-core/src/persistence.rs:94-184 | a tree that passes validation and does not come back, because one id stands for two records |
| `Persistence.SavedIsValid` | crates/tymux-core/src/persistence.rs:70-156 | what is saved passes validation iff the live ratios do |
| `Persistence.LoadAfterSave` | crates/tymux-core/src/persistence.rs:94-184 | loading what was saved rebuilds the very same tree |
| `Persistence.SplitStaysLoadable` | crates/tymux-core/src/layout.rs:196-241 | a split keeps a tree loadable |
| `Persistence.CloseStaysLoadable` | crates/tymux-core/src/layout.rs:248-302 | a close keeps a tree loadable |
| `EngineRestart.SaveOfLoaded` | crates/tymux-core/src/persistence.rs:217-239 | saving what was just loaded writes the record back, normalized |
| `EngineRestart.LoadedSnapshots` | crates/tymux-core/src/engine.rs:354-438 | after a start with any number of records, the snapshot of each loaded session is its record, normalized |
| `EngineRestart.SecondRoundIsStable` | crates/tymux-core/src/persistence.rs:217-239 | loading and saving leaves a record unchanged iff it is settled; what comes back always is, so a second round changes nothing |
| `DaemonRestart.SnapshotLoads` | crates/tymux-core/src/engine.rs:423-438 | what the engine saves always passes validation and loads |
| `DaemonRestart.SessionRebuilt` | crates/tymux-core/src/engine.rs:354-438 | loading a saved session rebuilds it exactly, at the default window size |
| `DaemonRestart.SavedTwice` | crates/tymux-core/src/engine.rs:354-438 | saved, loaded and saved again: the same record, but for running states that became Exited |
| `DaemonRestart.RestartKeepsEverything` | crates/tymux-core/src/engine.rs:354-438 | saving all sessions and loading them into an empty engine brings back every session, window, tree and pane id and the same reverse index |
| `DaemonRestart.RestartKeepsRecords` | crates/tymux-core/src/engine.rs:354-438 | and saving any of them again writes the record it was loaded from, but for running states that became Exited |
| `DaemonRestart.RevivedAsItWas` | crates/tymux-core/src/engine.rs:998-1036 | a pane that ran before a daemon restart is revived under the same id with the same command, arguments, environment and directory, at its last size or the minimum, and its exit code is kept |
| `PersistOrder.InvStep` | crates/tymux-core/src/engine.rs:1043-1055 | every critical section keeps the ordering invariant |
| `PersistOrder.NoResurrection` | crates/tymux-core/src/engine.rs:588-628 | from any disk and in every interleaving, once the call that ended a session returned, no record of it is on disk or ever written again |
| `PersistOrder.DiskIsCurrentIff` | crates/tymux-core/src/engine.rs:1043-1055 | when nothing is under way for a live session its record on disk is its present structure always if its latest save succeeded, and iff it was loaded settled if it was never saved; if its latest save failed the clause only says that the disk holds what was last written |
| `PersistOrder.StartOfUnsettled` | crates/tymux-core/src/engine.rs:354-399 | right after a start, every unsettled record on disk differs from memory with nothing under way |
| `PersistOrder.DiskAtRest` | crates/tymux-core/src/engine.rs:787-804 | with successful saves and every call returned, there is a file for exactly the live sessions and those skipped at the start, the latter unchanged, and a live session's is current iff it was saved since or loaded settled |
| `PersistLaws.LastChangeIsOnDisk` | crates/tymux-core/src/engine.rs:1043-1055 | in every interleaving, once all calls have returned and if no save failed, the file of a session is exactly the record its last change left |
| `PersistLaws.EndedForGood` | crates/tymux-core/src/engine.rs:588-628 | once the call that removed a session has returned, told from its steps, the session is never on disk or in memory again |
| `PersistLaws.ValidIffSound` | crates/tymux-core/src/persistence.rs:70-92 | a record passes validation iff every split in it, at any depth, has two children whose ratios add up to a value in [0.99, 1.01] |
| `PersistLaws.SupervisorSurvives` | crates/tymux-core/src/engine.rs:354-438 | saved and loaded, a pane's supervisor has the same policy, counts, log and last exit; Stopped and Failed stay, all other states become Exited; nothing is pending or requested |
| `Resize.Measure` | crates/tymux-core/src/engine.rs:1280-1290 | the loop finds the dimension-wise minimum of the viewports, or the default when there are none |
| `Resize.WindowSizes.Recompute` | crates/tymux-core/src/engine.rs:1270-1345 | the window gets the effective size, every live pane its own rectangle, and no other pane changes |
| `Resize.WindowSizes.UnregisterViewport` | crates/tymux-core/src/engine.rs:1239-1243 | the client no longer counts, all others count as before; sizes change at the next recompute |
| `Resize.WindowSizes.ReportViewportAndRecompute` | crates/tymux-core/src/engine.rs:1211-1237 | the report, limited per dimension and as it is within the limits, is recorded for that client only; the window is then the least of all reports and every live pane has its rectangle |
| `Resize.FitOneMore` | crates/tymux-core/src/pane.rs:960-992 | resizing one pane gives it its own rectangle, unclamped, and spoils none resized before |
| `Resize.InvRun` | crates/tymux-core/src/engine.rs:1270-1345 | the resize invariant holds after every interleaving of reports and withdrawals |
| `Resize.ResizeConverges` | crates/tymux-core/src/engine.rs:1211-1345 | when all calls have returned the window has the dimension-wise minimum of the clamped reports and every live pane its own rectangle, dead leaves mixed in or not |
| `Resize.SiblingsAgree` | crates/tymux-core/src/engine.rs:1270-1345 | whenever nobody holds the window's resize lock, and one recompute has finished, all live panes fit the window's present size |
| `ResizeLaws.ClampedPerDimension` | crates/tymux-core/src/engine.rs:65-72 | rows between 2 and 500 and columns between 10 and 1000 are kept, smaller values become the minimum and larger ones the maximum, each dimension by itself |
| `ResizeLaws.WindowFitsLastReports` | crates/tymux-core/src/engine.rs:1211-1345 | for every interleaving, once all calls have returned, the window is the dimension-wise minimum over the attached clients of each one's last report so limited, 24 by 80 when nobody is attached, and every live pane has its own rectangle in it |
| `ResizeLaws.LoneClientGetsItsSize` | crates/tymux-core/src/engine.rs:1211-1345 | the only attached client, with a terminal within the limits, gets a window of exactly its size |
| `ResizeLaws.SiblingsAgreeOnceFinished` | crates/tymux-core/src/engine.rs:1270-1345 | from the end of the first recompute on, whenever nobody holds the resize lock every live pane has its own rectangle |
| `Input.KeystrokeReassembler.Feed` | crates/tymux-cli/src/input.rs:71-77 | one read changes state and output as the byte steps of the theorems do, one by one |
| `Input.KeystrokeReassembler.FeedByte` | crates/tymux-cli/src/input.rs:79-115 | one byte is one step of the scanner |
| `Input.KeystrokeReassembler.HandleNormalByte` | crates/tymux-cli/src/input.rs:117-158 | the binding searches find what the step of the theorems does; `InputKeys.HeldIff` and `InputKeys.SecondKey` say what that is |
| `Input.FiresIffBound` | crates/tymux-cli/src/input.rs:117-158 | a byte fires an action iff a leader is armed, nothing is scanned, the byte is neither ESC nor the leader again and a binding is exactly those two keys; the first such binding fires |
| `InputKeys.ClassifyIs` | crates/tymux-cli/src/input.rs:165-173 | bytes 1 to 26 are Ctrl-a to Ctrl-z, every other byte is a plain key |
| `InputKeys.MarkersSpelled` | crates/tymux-cli/src/input.rs:5-6 | the paste markers are ESC [200~ and ESC [201~ |
| `InputKeys.HeldIff` | crates/tymux-cli/src/input.rs:117-138 | an idle, unarmed scanner holds a byte other than ESC back iff its key is the leader or the first key of some binding; any other byte goes out at once |
| `InputKeys.SecondKey` | crates/tymux-cli/src/input.rs:139-158 | the byte after a held one: the same key goes out once, a bound pair fires its first binding, any other pair goes out whole |
| `InputKeys.BoundPairFires` | crates/tymux-cli/src/input.rs:117-158 | any two different bytes other than ESC that are the keys of a binding fire the first such binding from a fresh scanner, whatever the leader is, and forward nothing |
| `InputKeys.DoublePressForwardsOne` | crates/tymux-cli/src/input.rs:140-144 | a key that starts something, pressed twice, goes out once |
| `InputKeys.UnboundPairForwarded` | crates/tymux-cli/src/input.rs:150-157 | a key that starts something, then one it is not bound with: both go out in order |
| `InputKeys.OwnLeaderFires` | crates/tymux-cli/src/input.rs:34-46 | C-a d bound to detach fires while the leader is C-b |
| `Input.ReadsDoNotMatter` | crates/tymux-cli/src/input.rs:71-77 | how the bytes are cut into reads makes no difference |
| `Input.ProcessWellFormed` | crates/tymux-cli/src/input.rs:79-158 | the scan never holds more than 6 bytes and a leader never more than 1 |
| `Input.KeystrokesAreConserved` | crates/tymux-cli/src/input.rs:79-158 | input length = forwarded + 2 per action + 1 per doubled leader + 6 per paste marker + held, for every input and every bindings |
| `InputOrder.OrderKeptIff` | crates/tymux-cli/src/input.rs:79-158 | the forwarded bytes are those at certain input positions, and these increase iff no armed leader is released by an unbound key after something behind it was forwarded |
| `InputOrder.ForwardedKeepsOrder` | crates/tymux-cli/src/input.rs:79-158 | in particular if no ESC arrives while a leader is armed; then the forwarded bytes are a subsequence of the input |
| `InputOrder.EscapeCanOvertakeLeader` | crates/tymux-cli/src/input.rs:79-158 | a concrete input that loses order |
| `InputPaste.NoEarlyEnd` | crates/tymux-cli/src/input.rs:95-112 | the end marker cannot overlap itself, so no shorter text ends with it |
| `InputPaste.PasteIsTransparent` | crates/tymux-cli/src/input.rs:79-115 | start marker, content without end marker, end marker, cut into reads in any way: exactly the content is forwarded, nothing fires, the scanner is as before |
| `InputPaste.PasteHoldsLittle` | crates/tymux-cli/src/input.rs:95-112 | at every moment inside a paste at most 6 bytes are held and everything else has gone out in order |

## Left out

- Spawning, ptys, signals, file descriptors and file opening: a spawn or a signal succeeds or fails.
- The `vt100` emulator, terminal queries and the split of output into a replay and a live form: both forms are arbitrary bytes.
- The snapshot path of attaching (`snapshot_with_seq`): only the replay path is modelled.
- Lag and the inner workings of the broadcast channel: it delivers in order and drops nothing.
- Scrollback and replay budget counters: load-then-add is not atomic, so they are no hard cap.
- JSON, file names, rename and stale-record pruning: saving or deleting one record is one update of a map.
- The thread that escalates to SIGKILL, and lifecycle event subscriptions.
- `wait_final_exit` reads its two flags one after the other: the theorem is about the pair at one moment.
- Other interleavings of lock sections inside engine operations than those of `SplitRace`: index theorems are about whole operations.
- `list_sessions` and the other snapshot builders, window watchers and client ids: read-only or bookkeeping.
- `revive_session` and `set_session_restart_policy`: loops over operations that are modelled one by one.
- Exits and sizes that change between persists: what reaches disk is what a call that persists has changed.
- Splits and closes during a resize, and resizes that fail: the layout is fixed there.
- Rendering, status bar, copy mode, configuration parsing, the RPC layer, the Go clients and the TypeScript examples.
- EngineLoad.LoadInv: asks for new, distinct ids and ratios in [0, 1], which validation does not check; `DaemonRestart.LoadAgreesIff` proves that exactly these records keep the agreement, and `DaemonRestart.SharedIdBreaksAgreement` shows one that does not.
- EngineTheorems.IndexAgreesWithScan: runs load only such records, for the same reason.
- PersistOrder.DiskIsCurrentIff: after a failed save the condition is by value (the file last written is the present structure), since a change and its reversal, or a save without a change, can fail and leave the disk current.
- The lock sections of one create or split before its persist (crates/tymux-core/src/engine.rs:510-523, 714-731): a change of a session is one step of `PersistOrder`.
- Files whose name is not their record's session id: `PersistOrder` keys memory by file name, `load_persisted` by the id in the record; the program only writes files where the two agree.
