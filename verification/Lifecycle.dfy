/**
 The supervision protocol as a state machine: crates/tymux-core/src/supervision.rs together with the
 exit and respawn half of pane.rs.

 One event is a stretch of a critical section of `Supervision::inner`, or one step of a reader thread
 that does not take that lock. Clients read a pane's `exited` and `restart_pending` without the lock,
 so a section that changes the supervisor, one of these flags and again the supervisor is split at
 every such store: hook installation (`Installing`, `Accounting`), the spawn of a new process
 (`Spawning`, `Respawning`) and the final store of `restart_pending` (`Flagging`) keep the lock
 between their events. `stop` is one event: while it runs the supervisor is Stopped, or the process
 runs. Spawn and signal outcomes, exit codes and jitter samples are event arguments, so a run covers
 every choice of them.
 */
module Lifecycle {
  import opened Common
  import opened Restart
  import opened RestartRuns

  /** What a client names a pane by. */
  type PaneId = nat

  /** The identity of a `Pane` object; several may carry the same id over time. */
  type PaneRef = nat

  const SIGTERM := 15

  /** Where the reader thread of the current process generation is. */
  datatype Phase =
    | Running                 // the child runs; the reader forwards its output
    | Reaped                  // exit code recorded, pid cleared
    | Checked(sawHook: bool)  // `exit_checked` set, the hook (if any) picked up
    | Handling                // inside the hook: the supervisor knows, `restart_pending` is not stored yet
    | Reported                // the hook has returned
    | Published               // `exited` is true

  datatype Pane = Pane(
    id: PaneId,
    phase: Phase,
    hookInstalled: bool,
    restartPending: bool,
    retired: bool,
    generation: nat,
    exitCode: Option<int>,
    lastSignal: Option<int>,
    accountings: seq<nat>)  // history: how often the exit of each generation was accounted
  {
    predicate IsExited() {
      phase.Published?
    }

    predicate ExitChecked() {
      phase.Checked? || phase.Handling? || phase.Reported? || phase.Published?
    }

    /** `terminate`: the signal is remembered only while there is a pid to send it to. */
    function Signaled(): Pane {
      if phase.Running? then this.(lastSignal := Some(SIGTERM)) else this
    }
  }

  /** A supervised pane; `origin` and `calls` are the history that produced `sup`. */
  datatype Entry = Entry(sup: Supervisor, pane: Option<PaneRef>, origin: Supervisor, calls: seq<Call>) {
    function Do(c: Call): Entry {
      Entry(Apply(sup, c), pane, origin, calls + [c])
    }
  }

  function NewEntry(sup: Supervisor, pane: Option<PaneRef>): Entry {
    Entry(sup, pane, sup, [])
  }

  /** What a section that ends by storing `restart_pending` is about. */
  datatype Cause =
    | HookExit                     // the reader's hook accounts an exit
    | MissedExit                   // hook installation accounts an exit the reader had already looked for
    | PolicyChange
    | DueRestart                   // a restart the supervisor had pending
    | Operator(wasPending: bool)   // an operator start or restart; was a restart pending before it?

  /** Who holds `Supervision::inner` between two events. */
  datatype Lock =
    | Free
    | Installing(pane: PaneRef)
    | Accounting(pane: PaneRef)
    | Spawning(pane: PaneRef, at: nat, cause: Cause)    // restart begun, no process yet
    | Respawning(pane: PaneRef, at: nat, cause: Cause)  // the process runs, the supervisor does not know yet
    | Flagging(pane: PaneRef, cause: Cause)             // the supervisor has decided, the flag is to be stored

  datatype SpawnResult = SpawnResult(ok: bool, unit: real)

  datatype State = State(
    now: nat,
    entries: map<PaneId, Entry>,
    panes: map<PaneRef, Pane>,
    lock: Lock,
    dirty: set<PaneId>)
  {
    /** The pane of an entry, as `Weak::upgrade` finds it. */
    predicate HasPane(e: Entry) {
      e.pane.Some? && e.pane.value in panes
    }

    predicate RunningPane(e: Entry) {
      HasPane(e) && !panes[e.pane.value].IsExited()
    }

    function PutEntry(id: PaneId, e: Entry): State {
      this.(entries := entries[id := e])
    }

    /** Stores `e`; when it has a pane, that pane's `restart_pending` flag is stored next. */
    function PutUnflagged(id: PaneId, e: Entry, cause: Cause): State {
      if HasPane(e) then PutEntry(id, e).(lock := Flagging(e.pane.value, cause)) else PutEntry(id, e)
    }

    function Mark(id: PaneId): State {
      this.(dirty := dirty + {id})
    }
  }

  datatype Event =
    | Tick(to: nat)
    | Spawn(ref: PaneRef, id: PaneId)
    | Reap(ref: PaneRef, code: Option<int>)
    | CheckHook(ref: PaneRef)
    | HandleExit(ref: PaneRef, unit: real)
    | Publish(ref: PaneRef)
    | RegisterLive(id: PaneId, ref: PaneRef, policy: RestartPolicy, at: nat)
    | RegisterRestored(id: PaneId, persisted: Option<PersistedRestartState>, policy: RestartPolicy)
    | AdoptStarted(id: PaneId, ref: PaneRef, policy: RestartPolicy, at: nat)
    | InstallHook
    | AccountMissed(unit: real)
    | Forget(id: PaneId)
    | RunDue(id: PaneId, checkedAt: nat)
    | SpawnEnds(spawn: SpawnResult)
    | FinishRespawn
    | StoreFlag
    | SetPolicy(id: PaneId, policy: RestartPolicy)
    | Stop(id: PaneId, signalOk: bool)
    | Restart(id: PaneId, resetBackoff: bool, signalOk: bool)
    | Start(id: PaneId)
    | ResetBudget(id: PaneId)
  {
    /** An explicit operator start, restart or new process for pane `p`. */
    predicate Revives(p: PaneId) {
      || (RegisterLive? && id == p)
      || (RegisterRestored? && id == p)
      || (AdoptStarted? && id == p)
      || (Restart? && id == p)
      || (Start? && id == p)
    }
  }

  predicate FreshPane(s: State, ref: PaneRef, id: PaneId) {
    ref in s.panes && s.panes[ref].id == id && !s.panes[ref].hookInstalled && !s.panes[ref].retired
  }

  predicate Enabled(s: State, ev: Event) {
    match ev
    case Tick(to) => s.now <= to
    case Spawn(ref, id) => ref !in s.panes
    case Reap(ref, code) => ref in s.panes && s.panes[ref].phase.Running?
    case CheckHook(ref) => ref in s.panes && s.panes[ref].phase.Reaped?
    case HandleExit(ref, unit) => s.lock.Free? && ref in s.panes && s.panes[ref].phase == Checked(true)
    case Publish(ref) => ref in s.panes && (s.panes[ref].phase == Checked(false) || s.panes[ref].phase.Reported?)
    case RegisterLive(id, ref, policy, at) => s.lock.Free? && id !in s.entries && FreshPane(s, ref, id) && 0 < at <= s.now
    case RegisterRestored(id, persisted, policy) => s.lock.Free? && id !in s.entries
    // Only a pane known from its record is handed a process this way (engine.rs, line 1014).
    case AdoptStarted(id, ref, policy, at) =>
      s.lock.Free? && FreshPane(s, ref, id) && 0 < at <= s.now && (id in s.entries ==> s.entries[id].pane.None?)
    case InstallHook => s.lock.Installing? && s.lock.pane in s.panes
    case AccountMissed(unit) => s.lock.Accounting? && s.lock.pane in s.panes
    case RunDue(id, checkedAt) =>
      && s.lock.Free? && id in s.entries && checkedAt <= s.now && s.entries[id].sup.Due(checkedAt)
      && s.HasPane(s.entries[id]) && s.panes[s.entries[id].pane.value].IsExited()
    case SpawnEnds(spawn) => s.lock.Spawning? && s.lock.pane in s.panes && s.panes[s.lock.pane].id in s.entries
    case FinishRespawn => s.lock.Respawning? && s.lock.pane in s.panes && s.panes[s.lock.pane].id in s.entries
    case StoreFlag => s.lock.Flagging? && s.lock.pane in s.panes && s.panes[s.lock.pane].id in s.entries
    case _ => s.lock.Free?
  }

  /** `account_exit` up to the store of the flag: only the pane object the entry points to is accounted. */
  function Account(s: State, ref: PaneRef, unit: real, cause: Cause): State
    requires ref in s.panes
  {
    var p := s.panes[ref];
    if p.id !in s.entries || s.entries[p.id].pane != Some(ref) then s.(lock := Free)
    else
      var e := s.entries[p.id].Do(Exit(s.now, p.exitCode, p.lastSignal, unit));
      var p' := p.(accountings := CountExit(p.accountings, p.generation));
      s.(entries := s.entries[p.id := e], panes := s.panes[ref := p'], lock := Flagging(ref, cause)).Mark(p.id)
  }

  function CountExit(counts: seq<nat>, generation: nat): seq<nat> {
    if generation < |counts| then counts[generation := counts[generation] + 1] else counts
  }

  /** `do_respawn` on entry `e` of pane `id`, up to the spawn. */
  function Respawn(s: State, id: PaneId, e: Entry, automatic: bool, cause: Cause): State {
    if !s.HasPane(e) || s.panes[e.pane.value].retired then s.PutEntry(id, e)
    else s.PutEntry(id, e.Do(Begin(s.now, automatic))).(lock := Spawning(e.pane.value, s.now, cause))
  }

  /** `respawn_with` and, when it fails, `on_spawn_failed`, with the time read before the spawn. */
  function DoSpawn(s: State, spawn: SpawnResult): State
    requires s.lock.Spawning? && s.lock.pane in s.panes && s.panes[s.lock.pane].id in s.entries
  {
    var ref, at, cause := s.lock.pane, s.lock.at, s.lock.cause;
    var p := s.panes[ref];
    if p.IsExited() && spawn.ok then
      s.(panes := s.panes[ref := NextGeneration(p)], lock := Respawning(ref, at, cause))
    else
      s.PutEntry(p.id, s.entries[p.id].Do(SpawnFailed(at, spawn.unit))).(lock := Flagging(ref, cause))
  }

  /** `set_restart_pending`, the end of a section; a hook returns to its reader. */
  function DoStoreFlag(s: State): State
    requires s.lock.Flagging? && s.lock.pane in s.panes && s.panes[s.lock.pane].id in s.entries
  {
    var p := s.panes[s.lock.pane];
    var p' := p.(restartPending := s.entries[p.id].sup.RestartPending(),
                 phase := if p.phase.Handling? then Reported else p.phase);
    s.(panes := s.panes[s.lock.pane := p'], lock := Free)
  }

  function NextGeneration(p: Pane): Pane {
    p.(phase := Running, generation := p.generation + 1, exitCode := None, lastSignal := None,
       accountings := p.accountings + [0])
  }

  /** `stop` returns an error: a running process could not be signaled. */
  predicate StopFails(s: State, id: PaneId, signalOk: bool) {
    || id !in s.entries
    || (&& s.entries[id].sup.StopMustSignal() && s.RunningPane(s.entries[id])
        && s.panes[s.entries[id].pane.value].phase.Running? && !signalOk)
  }

  function DoStop(s: State, id: PaneId, signalOk: bool): State {
    if id !in s.entries then s
    else
      var e := s.entries[id];
      if !s.HasPane(e) then s.PutEntry(id, e.Do(StopCall)).Mark(id)
      else
        var ref := e.pane.value;
        var p := if e.sup.StopMustSignal() && s.RunningPane(e) then s.panes[ref].Signaled() else s.panes[ref];
        if StopFails(s, id, signalOk)
        then s.(panes := s.panes[ref := p.(restartPending := e.sup.RestartPending())])
        else s.(entries := s.entries[id := e.Do(StopCall)], panes := s.panes[ref := p.(restartPending := false)]).Mark(id)
  }

  function DoRestart(s: State, id: PaneId, reset: bool, signalOk: bool): State {
    if id !in s.entries then s
    else
      var e := s.entries[id];
      var s1 := s.Mark(id);
      if e.sup.startedAt.Some? then
        if !s.RunningPane(e) then s1.PutEntry(id, e.Do(RestartCall(reset)))
        else
          var ref := e.pane.value;
          var s2 := s1.(panes := s1.panes[ref := s1.panes[ref].Signaled()]);
          if s.panes[ref].phase.Running? && !signalOk then s2 else s2.PutEntry(id, e.Do(RestartCall(reset)))
      else
        var asked := e.Do(RestartCall(reset));
        if s.RunningPane(e)
        then s1.PutUnflagged(id, asked.Do(ScheduleNow(s.now)), Operator(e.sup.RestartPending()))
        else Respawn(s1, id, asked, false, Operator(e.sup.RestartPending()))
  }

  function DoStart(s: State, id: PaneId): State {
    if id !in s.entries || s.RunningPane(s.entries[id]) then s
    else Respawn(s.Mark(id), id, s.entries[id].Do(StartReset), false, Operator(s.entries[id].sup.RestartPending()))
  }

  function DoSetPolicy(s: State, id: PaneId, policy: RestartPolicy): State {
    if !policy.Valid() || id !in s.entries then s
    else
      s.PutUnflagged(id, s.entries[id].Do(PolicyCall(policy)), PolicyChange).Mark(id)
  }

  function DoForget(s: State, id: PaneId): State {
    if id !in s.entries then s.(dirty := s.dirty - {id})
    else
      var e := s.entries[id];
      var panes := if s.HasPane(e)
                   then s.panes[e.pane.value := s.panes[e.pane.value].(retired := true, restartPending := false)]
                   else s.panes;
      s.(entries := s.entries - {id}, panes := panes, dirty := s.dirty - {id})
  }

  function Next(s: State, ev: Event): State
    requires Enabled(s, ev)
  {
    match ev
    case Tick(to) => s.(now := to)
    case Spawn(ref, id) =>
      s.(panes := s.panes[ref := Pane(id, Running, false, false, false, 0, None, None, [0])])
    case Reap(ref, code) => s.(panes := s.panes[ref := s.panes[ref].(phase := Reaped, exitCode := code)])
    case CheckHook(ref) =>
      s.(panes := s.panes[ref := s.panes[ref].(phase := Checked(s.panes[ref].hookInstalled))])
    case HandleExit(ref, unit) =>
      var s1 := Account(s, ref, unit, HookExit);
      s1.(panes := s1.panes[ref := s1.panes[ref].(phase := if s1.lock.Free? then Reported else Handling)])
    case Publish(ref) => s.(panes := s.panes[ref := s.panes[ref].(phase := Published)])
    case RegisterLive(id, ref, policy, at) =>
      s.PutEntry(id, NewEntry(NewSupervisor(policy), Some(ref)).Do(Started(at))).Mark(id).(lock := Installing(ref))
    case RegisterRestored(id, persisted, policy) =>
      s.PutEntry(id, NewEntry(if persisted.Some? then Restore(persisted.value) else NewSupervisor(policy), None))
    case AdoptStarted(id, ref, policy, at) =>
      var e := if id in s.entries then s.entries[id] else NewEntry(NewSupervisor(policy), None);
      s.PutEntry(id, e.Do(StartReset).Do(Started(at)).(pane := Some(ref))).Mark(id).(lock := Installing(ref))
    case InstallHook =>
      var ref := s.lock.pane;
      s.(panes := s.panes[ref := s.panes[ref].(hookInstalled := true)],
         lock := if s.panes[ref].ExitChecked() then Accounting(ref) else Free)
    case AccountMissed(unit) => Account(s, s.lock.pane, unit, MissedExit)
    case Forget(id) => DoForget(s, id)
    case RunDue(id, checkedAt) => Respawn(s.Mark(id), id, s.entries[id], s.entries[id].sup.state.Backoff?, DueRestart)
    case SpawnEnds(spawn) => DoSpawn(s, spawn)
    case FinishRespawn =>
      var id := s.panes[s.lock.pane].id;
      s.PutEntry(id, s.entries[id].Do(Started(s.lock.at))).(lock := Flagging(s.lock.pane, s.lock.cause))
    case StoreFlag => DoStoreFlag(s)
    case SetPolicy(id, policy) => DoSetPolicy(s, id, policy)
    case Stop(id, signalOk) => DoStop(s, id, signalOk)
    case Restart(id, reset, signalOk) => DoRestart(s, id, reset, signalOk)
    case Start(id) => DoStart(s, id)
    case ResetBudget(id) =>
      if id in s.entries then s.PutEntry(id, s.entries[id].Do(BudgetReset)).Mark(id) else s
  }

  predicate Init(s: State) {
    s.now > 0 && s.entries == map[] && s.panes == map[] && s.lock.Free?
  }

  /** A run: every event is enabled in the state the earlier ones lead to. */
  predicate Run(s: State, evs: seq<Event>)
    decreases |evs|
  {
    evs == [] || (Enabled(s, evs[0]) && Run(Next(s, evs[0]), evs[1..]))
  }

  function After(s: State, evs: seq<Event>): State
    requires Run(s, evs)
    decreases |evs|
  {
    if evs == [] then s else After(Next(s, evs[0]), evs[1..])
  }

  // ------------------------------------------------------------------ the invariant

  /**
   No stuck restart: Backoff has a deadline and no process; Restarting has either a process that
   was asked to go or a deadline; Exited and Failed have neither; Stopped has no deadline and a
   process exactly while the stop is still being carried out.
   */
  predicate Shape(s: Supervisor) {
    match s.state
    case Live => s.startedAt.Some? && s.nextRestartAt.None? && !s.stopRequested && !s.restartRequested
    case Exited => Idle(s)
    case Failed => Idle(s)
    case Backoff => s.startedAt.None? && s.nextRestartAt.Some? && !s.stopRequested && !s.restartRequested
    case Restarting =>
      && !s.stopRequested
      && (s.startedAt.Some? <==> s.restartRequested)
      && (s.startedAt.Some? <==> s.nextRestartAt.None?)
    case Stopped => s.nextRestartAt.None? && !s.restartRequested && (s.startedAt.Some? <==> s.stopRequested)
  }

  predicate Idle(s: Supervisor) {
    s.startedAt.None? && s.nextRestartAt.None? && !s.stopRequested && !s.restartRequested
  }

  /** Between `begin_restart` and `on_started` or `on_spawn_failed`, with the lock held throughout. */
  predicate MidRespawn(s: Supervisor) {
    s.state.Restarting? && Idle(s)
  }

  /** Facts about any pane object, supervised or not. */
  predicate PaneOk(p: Pane) {
    && |p.accountings| == p.generation + 1
    && (!p.hookInstalled ==>
          && p.generation == 0 && p.accountings == [0] && !p.restartPending
          && !p.phase.Handling? && !p.phase.Reported? && p.phase != Checked(true))
  }

  predicate LockedOn(lock: Lock, ref: PaneRef) {
    !lock.Free? && lock.pane == ref
  }

  /** A restart of `ref` is begun: with or without its new process yet. */
  predicate BegunOn(lock: Lock, ref: PaneRef) {
    (lock.Spawning? || lock.Respawning?) && lock.pane == ref
  }

  predicate RespawnedOn(lock: Lock, ref: PaneRef) {
    lock.Respawning? && lock.pane == ref
  }

  /** An exit of `ref` that hook installation will have to account, if there was one. */
  predicate MissedOn(lock: Lock, ref: PaneRef) {
    (lock.Installing? || lock.Accounting?) && lock.pane == ref
  }

  /**
   `restart_pending` of a pane without a process: what the supervisor says, or, while a section that
   will store it is under way, what the section found.
   */
  predicate FlagOk(sup: Supervisor, p: Pane, ref: PaneRef, lock: Lock) {
    if (lock.Spawning? || lock.Flagging?) && lock.pane == ref then
      match lock.cause
      case HookExit => true
      case MissedExit => !p.restartPending
      case PolicyChange => sup.RestartPending() ==> p.restartPending
      case DueRestart => p.restartPending
      case Operator(was) => p.restartPending == was
    else p.restartPending == sup.RestartPending()
  }

  /** The supervisor's last exit is that of this very process: its code, and the signal it was sent, if any. */
  predicate ExitTold(sup: Supervisor, p: Pane) {
    sup.lastExit.Some? && sup.lastExit.value.code == p.exitCode && sup.lastExit.value.signal == p.lastSignal
  }

  /** How a supervisor and the pane object it points to agree. */
  predicate Linked(sup: Supervisor, p: Pane, ref: PaneRef, lock: Lock) {
    && |p.accountings| == p.generation + 1
    && !p.retired
    && (p.hookInstalled <==> lock != Installing(ref))
    && (forall g :: 0 <= g < p.generation ==> p.accountings[g] == 1)
    && p.accountings[p.generation] == (if sup.startedAt.Some? || RespawnedOn(lock, ref) then 0 else 1)
    && (if MissedOn(lock, ref) then
          && sup.startedAt.Some? && sup.state.Live? && !p.restartPending
          && (if lock.Installing? then !p.phase.Reported? && p.phase != Checked(true)
              else p.phase == Checked(false) || p.phase.Published?)
        else
          (sup.startedAt.Some? || RespawnedOn(lock, ref)) <==> (p.phase.Running? || p.phase.Reaped? || p.phase == Checked(true)))
    && (p.phase.Handling? <==> lock == Flagging(ref, HookExit))
    && (lock.Spawning? && lock.pane == ref ==> p.phase.Published?)
    && (BegunOn(lock, ref) ==> lock.cause.DueRestart? || lock.cause.Operator?)
    && (sup.startedAt.None? && !RespawnedOn(lock, ref) ==> FlagOk(sup, p, ref, lock) && ExitTold(sup, p))
  }

  predicate History(e: Entry, now: nat) {
    && Replay(e.origin, e.calls) == e.sup
    && Legal(e.origin, e.calls)
    && LastTime(e.calls) <= now
    && Idle(e.origin) && !e.origin.RestartPending()
  }

  predicate EntryOk(s: State, id: PaneId, e: Entry) {
    && History(e, s.now)
    && (e.pane.None? ==> Shape(e.sup) && e.sup.startedAt.None? && !e.sup.RestartPending() && LastTime(e.calls) == 0)
    && (e.pane.Some? ==>
          && e.pane.value in s.panes
          && s.panes[e.pane.value].id == id
          && (if BegunOn(s.lock, e.pane.value)
              then MidRespawn(e.sup) && LastTime(e.calls) == s.lock.at > 0
              else Shape(e.sup))
          && Linked(e.sup, s.panes[e.pane.value], e.pane.value, s.lock))
  }

  predicate LockOk(s: State) {
    s.lock.Free? ||
    (&& s.lock.pane in s.panes
     && s.panes[s.lock.pane].id in s.entries
     && s.entries[s.panes[s.lock.pane].id].pane == Some(s.lock.pane))
  }

  ghost predicate Inv(s: State) {
    && s.now > 0
    && LockOk(s)
    && (forall ref :: ref in s.panes ==> PaneOk(s.panes[ref]))
    && (forall id :: id in s.entries ==> EntryOk(s, id, s.entries[id]))
  }
}
