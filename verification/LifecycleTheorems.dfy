/** What the supervision protocol guarantees over whole runs. */
module LifecycleTheorems {
  import opened Common
  import opened Restart
  import opened RestartRuns
  import opened Lifecycle
  import opened LifecycleInv

  /** The states the daemon can be in, at any point of any interleaving. */
  ghost predicate Reachable(s: State) {
    exists s0, evs :: Init(s0) && Run(s0, evs) && After(s0, evs) == s
  }

  lemma ReachableInv(s: State)
    requires Reachable(s)
    ensures Inv(s)
  {
    var s0, evs :| Init(s0) && Run(s0, evs) && After(s0, evs) == s;
    hide Inv, Run, After;
    InvInit(s0);
    InvRun(s0, evs);
  }

  lemma ReachableStep(s: State, ev: Event)
    requires Reachable(s) && Enabled(s, ev)
    ensures Reachable(Next(s, ev))
  {
    hide Enabled, Next, Init;
    var s0, evs :| Init(s0) && Run(s0, evs) && After(s0, evs) == s;
    RunSnoc(s0, evs, ev);
  }

  lemma {:induction false} RunSnoc(s: State, evs: seq<Event>, ev: Event)
    requires Run(s, evs) && Enabled(After(s, evs), ev)
    ensures Run(s, evs + [ev]) && After(s, evs + [ev]) == Next(After(s, evs), ev)
    decreases |evs|
  {
    hide Enabled, Next;
    if evs == [] {
      assert (evs + [ev])[1..] == [];
    } else {
      RunSnoc(Next(s, evs[0]), evs[1..], ev);
      assert (evs + [ev])[1..] == evs[1..] + [ev];
    }
  }

  // ------------------------------------------------------------------ no stuck restart

  /** The current process of an entry's pane still has an exit to be accounted. */
  predicate HasProcess(s: State, e: Entry) {
    s.HasPane(e) &&
    (var p := s.panes[e.pane.value]; p.generation < |p.accountings| && p.accountings[p.generation] == 0)
  }

  /**
   Between lock sections: Backoff has a deadline and no process; Restarting has either a process
   that was asked to go, or no process and a deadline; Exited and Failed have neither; Stopped has
   no deadline, and a process exactly while the requested stop has not taken effect; Live has a
   process and no deadline.
   */
  lemma NoStuckRestart(s: State, id: PaneId)
    requires Reachable(s) && s.lock.Free? && id in s.entries
    ensures var e := s.entries[id];
            match e.sup.state
            case Live => HasProcess(s, e) && e.sup.nextRestartAt.None?
            case Exited => !HasProcess(s, e) && e.sup.nextRestartAt.None?
            case Failed => !HasProcess(s, e) && e.sup.nextRestartAt.None?
            case Backoff => !HasProcess(s, e) && e.sup.nextRestartAt.Some?
            case Restarting =>
              if HasProcess(s, e) then e.sup.restartRequested && e.sup.nextRestartAt.None? else e.sup.nextRestartAt.Some?
            case Stopped => e.sup.nextRestartAt.None? && (HasProcess(s, e) <==> e.sup.stopRequested)
  {
    ReachableInv(s);
    hide Reachable, History;
    assert EntryOk(s, id, s.entries[id]);
  }

  // ------------------------------------------------------------------ exactly-once accounting

  /**
   Whichever way hook installation raced the reader: between lock sections every finished process
   generation of a supervised pane was accounted exactly once, and the current one exactly when its
   supervisor no longer counts a process, which is the case whenever the exit is published.
   */
  lemma AccountedExactlyOnce(s: State, id: PaneId)
    requires Reachable(s) && s.lock.Free? && id in s.entries && s.entries[id].pane.Some?
    ensures var e := s.entries[id];
            && s.HasPane(e)
            && var p := s.panes[e.pane.value];
            && |p.accountings| == p.generation + 1
            && (forall g :: 0 <= g < p.generation ==> p.accountings[g] == 1)
            && p.accountings[p.generation] == (if e.sup.startedAt.Some? then 0 else 1)
            && (p.IsExited() ==> p.accountings[p.generation] == 1)
  {
    ReachableInv(s);
    hide Reachable, History, Shape;
    assert EntryOk(s, id, s.entries[id]);
  }

  /** Between lock sections a published exit is a settled one: no process, and both flags agree. */
  lemma PublishedIsSettled(s: State, id: PaneId)
    requires Reachable(s) && s.lock.Free? && id in s.entries && s.HasPane(s.entries[id])
    requires s.panes[s.entries[id].pane.value].IsExited()
    ensures s.entries[id].sup.startedAt.None?
    ensures s.panes[s.entries[id].pane.value].restartPending == s.entries[id].sup.RestartPending()
  {
    ReachableInv(s);
    hide Reachable, History, Shape;
    assert EntryOk(s, id, s.entries[id]);
  }

  // ------------------------------------------------------------------ when a client is told "final"

  /** `wait_final_exit` would resolve: the exit is visible and no restart is announced. */
  predicate LooksFinal(p: Pane) {
    p.IsExited() && !p.restartPending
  }

  /** A restart of entry `e` is pending, or its next process is being spawned. */
  predicate ComesBack(s: State, e: Entry) {
    e.sup.RestartPending() || (e.pane.Some? && BegunOn(s.lock, e.pane.value))
  }

  /**
   A section that decides on a restart nobody announced before: an operator start or restart of a
   pane with nothing pending, or hook installation that accounts an exit the reader did not report.
   */
  predicate Unannounced(lock: Lock, ref: PaneRef) {
    (lock.Spawning? || lock.Flagging?) && lock.pane == ref && (lock.cause.MissedExit? || lock.cause == Operator(false))
  }

  /**
   The pair of flags a client waits on says "final" while the pane comes back exactly in this window:
   an unannounced section is under way, its pane's exit is published, and the supervisor has decided
   on a restart. At every other point of every run, lock held or not, the pair tells the truth; so it
   never lies about an automatic or scheduled restart, nor about an exit accounted by the hook.
   */
  lemma FinalWhileComingBackIff(s: State, id: PaneId)
    requires Reachable(s) && id in s.entries && s.HasPane(s.entries[id])
    ensures var e := s.entries[id];
            var p := s.panes[e.pane.value];
            LooksFinal(p) && ComesBack(s, e) <==> Unannounced(s.lock, e.pane.value) && p.IsExited() && e.sup.RestartPending()
  {
    ReachableInv(s);
    hide Reachable, History;
    assert EntryOk(s, id, s.entries[id]);
  }

  /** In particular while nobody holds the lock, and in a section about a restart that was pending or an exit the hook reported. */
  lemma AnnouncedNeverLooksFinal(s: State, id: PaneId)
    requires Reachable(s) && id in s.entries && s.HasPane(s.entries[id])
    requires s.lock.Flagging? || s.lock.Spawning? || s.lock.Respawning? ==>
               s.lock.cause.DueRestart? || s.lock.cause.HookExit? || s.lock.cause.PolicyChange? || s.lock.cause == Operator(true)
    ensures LooksFinal(s.panes[s.entries[id].pane.value]) ==> !ComesBack(s, s.entries[id])
  {
    hide Reachable;
    FinalWhileComingBackIff(s, id);
  }

  /** Whenever an operator starts or restarts a pane whose exit is published and that has nothing pending, the window opens. */
  lemma OperatorOpensWindow(s: State, id: PaneId, ev: Event)
    requires Reachable(s) && s.lock.Free? && id in s.entries && s.HasPane(s.entries[id])
    requires s.panes[s.entries[id].pane.value].IsExited() && !s.entries[id].sup.RestartPending()
    requires (ev.Start? || ev.Restart?) && ev.id == id
    ensures var s' := Next(s, ev);
            && Reachable(s') && id in s'.entries && s'.HasPane(s'.entries[id])
            && LooksFinal(s'.panes[s'.entries[id].pane.value]) && ComesBack(s', s'.entries[id])
  {
    ReachableStep(s, ev);
    ReachableInv(s);
    hide Reachable, History, DelayMs, Prune;
    assert EntryOk(s, id, s.entries[id]);
  }

  /** A pane that exits before it is registered with a policy that restarts it: the window of a missed exit. */
  lemma MissedExitOpensWindow(s0: State, policy: RestartPolicy) returns (s: State, id: PaneId)
    requires Init(s0) && policy.mode.Always? && policy.maxRestarts > 0
    ensures Reachable(s) && id in s.entries && s.HasPane(s.entries[id])
    ensures LooksFinal(s.panes[s.entries[id].pane.value]) && ComesBack(s, s.entries[id]) && s.lock.Flagging?
  {
    hide Reachable, DelayMs, Prune, Replay, Legal;
    id := 7;
    s := LateRegistration(s0, policy, id);
    assert Prune([], s.entries[id].sup.WindowStart(s0.now)) == [] by { EmptyPrune(s.entries[id].sup.WindowStart(s0.now)); }
  }

  lemma EmptyPrune(start: nat)
    ensures Prune([], start) == []
  {
  }

  /** Spawned, exited and published before it is registered; the exit is accounted by `install_hook`. */
  lemma LateRegistration(s0: State, policy: RestartPolicy, id: PaneId) returns (s: State)
    requires Init(s0)
    ensures Reachable(s) && id in s.entries && s.entries[id].pane == Some(0) && 0 in s.panes && s.now == s0.now
    ensures s.lock == Flagging(0, MissedExit) && s.panes[0].id == id && s.panes[0].IsExited() && !s.panes[0].restartPending
    ensures s.entries[id].sup == NewSupervisor(policy).OnStarted(s0.now).OnExit(s0.now, Some(1), None, 0.5).0
  {
    s := PublishedPane(s0, id);
    hide Reachable, DelayMs, Prune, Replay, Legal, Respawn, DoSpawn, DoStop, DoRestart, DoStart, DoSetPolicy, DoForget;
    ReachableStep(s, RegisterLive(id, 0, policy, s.now));
    s := Next(s, RegisterLive(id, 0, policy, s.now));
    ReachableStep(s, InstallHook);
    s := Next(s, InstallHook);
    ReachableStep(s, AccountMissed(0.5));
    s := Next(s, AccountMissed(0.5));
  }

  lemma PublishedPane(s0: State, id: PaneId) returns (s: State)
    requires Init(s0)
    ensures Reachable(s) && s.lock.Free? && s.now == s0.now && s.entries == map[]
    ensures s.panes == map[0 := Pane(id, Published, false, false, false, 0, Some(1), None, [0])]
  {
    assert Reachable(s0) by { assert Run(s0, []) && After(s0, []) == s0; }
    hide Reachable, Account, Respawn, DoSpawn, DoStop, DoRestart, DoStart, DoSetPolicy, DoForget;
    s := s0;
    ReachableStep(s, Spawn(0, id));
    s := Next(s, Spawn(0, id));
    ReachableStep(s, Reap(0, Some(1)));
    s := Next(s, Reap(0, Some(1)));
    ReachableStep(s, CheckHook(0));
    s := Next(s, CheckHook(0));
    ReachableStep(s, Publish(0));
    s := Next(s, Publish(0));
  }

  /** The window of an operator start is reachable too: a pane that was never to be restarted, started by hand. */
  lemma StartOpensWindow(s0: State, policy: RestartPolicy) returns (s: State, id: PaneId)
    requires Init(s0) && policy.mode.Never?
    ensures Reachable(s) && id in s.entries && s.HasPane(s.entries[id])
    ensures LooksFinal(s.panes[s.entries[id].pane.value]) && ComesBack(s, s.entries[id]) && s.lock.Spawning?
  {
    hide Reachable, DelayMs, Prune, Replay, Legal, Next, Enabled;
    id := 7;
    s := LateRegistration(s0, policy, id);
    assert s.entries[id].sup.state.Exited?;
    s := FlagStored(s, id);
    OperatorOpensWindow(s, id, Start(id));
    s := StartBegins(s, id);
  }

  lemma FlagStored(s: State, id: PaneId) returns (s': State)
    requires Reachable(s) && id in s.entries && s.entries[id].pane == Some(0) && 0 in s.panes && s.panes[0].id == id
    requires s.lock == Flagging(0, MissedExit) && s.panes[0].IsExited() && s.entries[id].sup.state.Exited?
    ensures Reachable(s') && s'.lock.Free? && s'.entries == s.entries && 0 in s'.panes && s'.panes[0].id == id && s'.panes[0].IsExited()
    ensures !s'.panes[0].retired
  {
    hide Reachable, Account, Respawn, DoSpawn, DoStop, DoRestart, DoStart, DoSetPolicy, DoForget;
    ReachableStep(s, StoreFlag);
    s' := Next(s, StoreFlag);
    NotRetired(s', id);
  }

  lemma NotRetired(s: State, id: PaneId)
    requires Reachable(s) && id in s.entries && s.HasPane(s.entries[id])
    ensures !s.panes[s.entries[id].pane.value].retired
  {
    ReachableInv(s);
    hide Reachable, History, Shape;
    assert EntryOk(s, id, s.entries[id]);
  }

  lemma StartBegins(s: State, id: PaneId) returns (s': State)
    requires s.lock.Free? && id in s.entries && s.HasPane(s.entries[id])
    requires s.panes[s.entries[id].pane.value].IsExited() && !s.panes[s.entries[id].pane.value].retired
    ensures s' == Next(s, Start(id)) && s'.lock.Spawning?
  {
    hide Apply, Account, DoSpawn, DoStop, DoRestart, DoSetPolicy, DoForget;
    s' := Next(s, Start(id));
  }

  // ------------------------------------------------------------------ stop and close win

  /** Stopped, given up, or exited for good: nothing but an operator brings this pane back. */
  predicate Parked(s: State, id: PaneId) {
    id in s.entries && (s.entries[id].sup.state.Stopped? || s.entries[id].sup.state.Failed? || s.entries[id].sup.state.Exited?)
  }

  /** How a parked state may drift without an operator start: a budget reset turns Failed into
      Exited, and an operator may still stop the pane. */
  predicate Drifts(a: LifecycleState, b: LifecycleState) {
    a == b || (a.Failed? && b.Exited?) || b.Stopped?
  }

  predicate StaysParked(s: State, s': State, id: PaneId) {
    && id in s.entries && id in s'.entries && Parked(s', id)
    && s'.entries[id].pane == s.entries[id].pane
    && Drifts(s.entries[id].sup.state, s'.entries[id].sup.state)
  }

  lemma StopParks(s: State, id: PaneId, signalOk: bool)
    requires s.lock.Free? && !StopFails(s, id, signalOk)
    ensures var s' := Next(s, Stop(id, signalOk)); Parked(s', id) && s'.entries[id].sup.state.Stopped?
  {
    hide DelayMs, Account, Respawn, DoSpawn, DoStoreFlag, DoRestart, DoStart, DoSetPolicy, DoForget;
  }

  lemma AccountDrift(s: State, ref: PaneRef, unit: real, cause: Cause, id: PaneId)
    requires Inv(s) && Parked(s, id) && ref in s.panes
    requires (s.lock.Free? && s.panes[ref].phase == Checked(true)) || s.lock == Accounting(ref)
    ensures StaysParked(s, Account(s, ref, unit, cause), id)
  {
    hide History, Apply;
    if s.panes[ref].id == id && s.entries[id].pane == Some(ref) {
      assert EntryOk(s, id, s.entries[id]);
      var p := s.panes[ref];
      ExitShape(s.entries[id].sup, s.now, p.exitCode, p.lastSignal, unit);
    }
  }

  /** The sections that change entry `id` of a parked pane without starting a process. */
  lemma OperatorDrift(s: State, ev: Event, id: PaneId)
    requires Enabled(s, ev) && Parked(s, id)
    requires ev.SetPolicy? || ev.Stop? || ev.ResetBudget?
    ensures StaysParked(s, Next(s, ev), id)
  {
    hide DelayMs, Prune, Account, Respawn, DoSpawn, DoStoreFlag, DoRestart, DoStart, DoForget;
  }

  lemma RespawnElsewhere(s: State, other: PaneId, e: Entry, automatic: bool, cause: Cause, id: PaneId)
    requires id in s.entries && id != other
    ensures var s' := Respawn(s, other, e, automatic, cause); id in s'.entries && s'.entries[id] == s.entries[id]
  {
    hide Apply;
  }

  lemma ParkedStep(s: State, ev: Event, id: PaneId)
    requires Inv(s) && Enabled(s, ev) && Parked(s, id) && !ev.Revives(id) && ev != Forget(id)
    ensures StaysParked(s, Next(s, ev), id)
  {
    hide Inv, Apply, Account, Respawn, DoSpawn, DoStop, DoRestart, DoStart, DoSetPolicy;
    match ev
    case HandleExit(ref, unit) => AccountDrift(s, ref, unit, HookExit, id);
    case AccountMissed(unit) => AccountDrift(s, s.lock.pane, unit, MissedExit, id);
    case SpawnEnds(spawn) => SpawnElsewhere(s, spawn, id);
    case FinishRespawn => BegunElsewhere(s, id);
    case SetPolicy(other, policy) => OperatorDrift(s, ev, id);
    case Stop(other, signalOk) => OperatorDrift(s, ev, id);
    case ResetBudget(other) => OperatorDrift(s, ev, id);
    case RunDue(other, checkedAt) => OthersRestart(s, ev, id);
    case Restart(other, reset, signalOk) => OthersRestart(s, ev, id);
    case Start(other) => OthersRestart(s, ev, id);
    case _ =>
  }

  lemma SpawnElsewhere(s: State, spawn: SpawnResult, id: PaneId)
    requires Inv(s) && Enabled(s, SpawnEnds(spawn)) && Parked(s, id)
    ensures StaysParked(s, DoSpawn(s, spawn), id)
  {
    hide Inv, Apply;
    BegunElsewhere(s, id);
  }

  /** Sections that begin a restart of another pane; a parked one is not due. */
  lemma OthersRestart(s: State, ev: Event, id: PaneId)
    requires Inv(s) && Enabled(s, ev) && Parked(s, id) && !ev.Revives(id) && (ev.RunDue? || ev.Restart? || ev.Start?)
    ensures StaysParked(s, Next(s, ev), id)
  {
    hide Inv, Apply, Account, Respawn, DoSpawn, DoStoreFlag, DoStop, DoSetPolicy, DoForget;
    var other := ev.id;
    if other in s.entries {
      var e, s1 := s.entries[other], s.Mark(other);
      var cause := Operator(e.sup.RestartPending());
      match ev
      case RunDue(_, _) => RespawnElsewhere(s1, other, e, e.sup.state.Backoff?, DueRestart, id);
      case Restart(_, reset, _) => RespawnElsewhere(s1, other, e.Do(RestartCall(reset)), false, cause, id);
      case Start(_) => RespawnElsewhere(s1, other, e.Do(StartReset), false, cause, id);
    }
  }

  /** A spawn in flight belongs to a pane whose state is Restarting, so not to a parked one. */
  lemma BegunElsewhere(s: State, id: PaneId)
    requires Inv(s) && (s.lock.Spawning? || s.lock.Respawning?) && Parked(s, id)
    ensures s.panes[s.lock.pane].id != id
  {
    hide Apply, History, Linked, Shape;
    assert LockOk(s) && EntryOk(s, id, s.entries[id]);
  }

  /** An unregistered pane stays unregistered unless somebody registers it. */
  lemma GoneStep(s: State, ev: Event, id: PaneId)
    requires Enabled(s, ev) && id !in s.entries && !ev.Revives(id)
    ensures id !in Next(s, ev).entries
  {
    hide DelayMs, Prune, Apply;
  }

  predicate SameGeneration(s: State, s': State, ref: PaneRef)
    requires ref in s.panes
  {
    && ref in s'.panes && s'.panes[ref].id == s.panes[ref].id
    && s'.panes[ref].generation == s.panes[ref].generation
    && (s.panes[ref].retired ==> s'.panes[ref].retired)
  }

  /** Only the end of a spawn moves a generation. */
  lemma QuietGeneration(s: State, ev: Event, ref: PaneRef)
    requires Enabled(s, ev) && ref in s.panes && !ev.SpawnEnds?
    ensures SameGeneration(s, Next(s, ev), ref)
  {
    hide Apply;
  }

  /** A pane object that is being given a process is neither retired nor parked. */
  lemma SpawnsElsewhere(s: State, ref: PaneRef)
    requires Inv(s) && s.lock.Spawning? && ref in s.panes && (s.panes[ref].retired || Parked(s, s.panes[ref].id))
    ensures s.lock.pane != ref
  {
    hide History, Shape, Apply;
    assert LockOk(s);
    var id := s.panes[s.lock.pane].id;
    assert EntryOk(s, id, s.entries[id]);
  }

  /** A retired pane object, or one whose entry is parked, is given no process by any event at all:
      an operator start or restart has to move the entry out of its parked state first. */
  lemma GenerationStep(s: State, ev: Event, ref: PaneRef)
    requires Inv(s) && Enabled(s, ev) && ref in s.panes
    requires s.panes[ref].retired || Parked(s, s.panes[ref].id)
    ensures SameGeneration(s, Next(s, ev), ref)
  {
    if ev.SpawnEnds? {
      hide Inv, Apply, Account, Respawn, DoStop, DoRestart, DoStart, DoSetPolicy, DoForget;
      SpawnsElsewhere(s, ref);
    } else {
      hide Inv, Next, SameGeneration;
      QuietGeneration(s, ev, ref);
    }
  }

  /** A pane object that was retired is never respawned again, whatever anybody does. */
  lemma {:induction false} ForgottenNeverRespawned(s: State, evs: seq<Event>, ref: PaneRef)
    requires Inv(s) && Run(s, evs) && ref in s.panes && s.panes[ref].retired
    ensures var s' := After(s, evs);
            ref in s'.panes && s'.panes[ref].retired && s'.panes[ref].generation == s.panes[ref].generation
    decreases |evs|
  {
    hide Inv, Next, Enabled;
    if evs != [] {
      GenerationStep(s, evs[0], ref);
      InvStep(s, evs[0]);
      ForgottenNeverRespawned(Next(s, evs[0]), evs[1..], ref);
    }
  }

  lemma ForgetRetires(s: State, id: PaneId)
    requires s.lock.Free? && id in s.entries && s.HasPane(s.entries[id])
    ensures var s', ref := Next(s, Forget(id)), s.entries[id].pane.value;
            id !in s'.entries && ref in s'.panes && s'.panes[ref].retired && s'.panes[ref].generation == s.panes[ref].generation
  {
    hide Account, Respawn, DoSpawn, DoStoreFlag, DoStop, DoRestart, DoStart, DoSetPolicy;
  }

  /**
   Stop and close win: from a state in which pane `id` is Stopped, Failed or Exited, along any run
   without an operator start, restart or new process for `id` - any exits, publications, ticks,
   policy changes, budget resets, stops and closes - its pane object is never given another process.
   As long as it is registered it stays where it was, except that a budget reset makes Failed Exited.
   */
  lemma {:induction false} StopAndCloseWin(s: State, evs: seq<Event>, id: PaneId)
    requires Inv(s) && Run(s, evs) && Parked(s, id)
    requires forall i :: 0 <= i < |evs| ==> !evs[i].Revives(id)
    ensures var s' := After(s, evs);
            && (id in s'.entries ==> StaysParked(s, s', id))
            && (s.HasPane(s.entries[id]) ==>
                  var ref := s.entries[id].pane.value;
                  ref in s'.panes && s'.panes[ref].generation == s.panes[ref].generation)
    decreases |evs|
  {
    hide Inv, Next, Enabled;
    if evs != [] {
      var s1 := Next(s, evs[0]);
      InvStep(s, evs[0]);
      ParkedPane(s, id);
      if evs[0] == Forget(id) {
        ForgetThenNothing(s, evs, id);
      } else {
        ParkedStep(s, evs[0], id);
        if s.HasPane(s.entries[id]) {
          GenerationStep(s, evs[0], s.entries[id].pane.value);
        }
        StopAndCloseWin(s1, evs[1..], id);
      }
    }
  }

  lemma ParkedPane(s: State, id: PaneId)
    requires Inv(s) && id in s.entries
    ensures s.HasPane(s.entries[id]) ==> s.panes[s.entries[id].pane.value].id == id
  {
    hide History, Linked, Shape;
    assert EntryOk(s, id, s.entries[id]);
  }

  lemma ForgetThenNothing(s: State, evs: seq<Event>, id: PaneId)
    requires Inv(s) && Run(s, evs) && evs != [] && evs[0] == Forget(id) && id in s.entries
    requires forall i :: 0 <= i < |evs| ==> !evs[i].Revives(id)
    ensures var s' := After(s, evs);
            && id !in s'.entries
            && (s.HasPane(s.entries[id]) ==>
                  var ref := s.entries[id].pane.value;
                  ref in s'.panes && s'.panes[ref].generation == s.panes[ref].generation)
  {
    hide Inv, Next;
    InvStep(s, evs[0]);
    var s1 := Next(s, evs[0]);
    ForgetEmpties(s, id);
    GoneRun(s1, evs[1..], id);
    if s.HasPane(s.entries[id]) {
      ForgetRetires(s, id);
      ForgottenNeverRespawned(s1, evs[1..], s.entries[id].pane.value);
    }
  }

  lemma ForgetEmpties(s: State, id: PaneId)
    requires Enabled(s, Forget(id))
    ensures id !in Next(s, Forget(id)).entries
  {
    hide Account, Respawn, DoStop, DoRestart, DoStart, DoSetPolicy;
  }

  lemma {:induction false} GoneRun(s: State, evs: seq<Event>, id: PaneId)
    requires Run(s, evs) && id !in s.entries
    requires forall i :: 0 <= i < |evs| ==> !evs[i].Revives(id)
    ensures id !in After(s, evs).entries
    decreases |evs|
  {
    hide Next, Enabled;
    if evs != [] {
      GoneStep(s, evs[0], id);
      GoneRun(Next(s, evs[0]), evs[1..], id);
    }
  }

  // ------------------------------------------------------------------ history of a supervised pane

  /**
   The budget theorem for the protocol: take any moment of the history of any pane, registered, started,
   revived, reset or given a new policy just before, and let policy and budget be left alone since.
   Then the automatic restarts the protocol charged to it since that moment obey the sliding window of
   the policy of that moment (one that was scheduled then is kept), and without a window their total does.
   */
  lemma ProtocolKeepsBudget(s: State, id: PaneId, k: nat, i: nat)
    requires Reachable(s) && id in s.entries
    requires var calls := s.entries[id].calls; k <= |calls| && FixedBudget(calls[k..])
    ensures var e := s.entries[id];
            var moment, auto := Replay(e.origin, e.calls[..k]), AutoTimes(e.calls[k..]);
            && (i < |auto| ==> CountAfter(auto[..i + 1], auto[i] - moment.policy.windowMs) <= Limit(moment))
            && (moment.policy.windowMs == 0 ==> |auto| <= Limit(moment))
  {
    hide *;
    ReachableInv(s);
    EntryHistory(s, id);
    HistoryLegal(s.entries[id], s.now);
    BudgetSince(s.entries[id].origin, s.entries[id].calls, k, i);
  }

  lemma EntryHistory(s: State, id: PaneId)
    requires Inv(s) && id in s.entries
    ensures History(s.entries[id], s.now)
  {
    hide History, Linked, Shape;
    assert EntryOk(s, id, s.entries[id]);
  }

  lemma HistoryLegal(e: Entry, now: nat)
    requires History(e, now)
    ensures Legal(e.origin, e.calls) && Replay(e.origin, e.calls) == e.sup && !e.origin.state.Backoff?
  {
    hide Legal, Replay;
  }

  /** In the protocol no automatic restart begins before its failure time plus its delay. */
  lemma ProtocolWaitsOutDelays(s: State, id: PaneId, k: nat)
    requires Reachable(s) && id in s.entries
    requires var calls := s.entries[id].calls; k < |calls| && calls[k].Begin? && calls[k].automatic
    ensures var e := s.entries[id];
            var h := Schedules(e.origin, e.calls[..k]);
            h != [] && e.calls[k].now >= SatAdd(h[|h| - 1].failedAt, h[|h| - 1].delayMs, U64_MAX)
  {
    hide *;
    ReachableInv(s);
    EntryHistory(s, id);
    HistoryLegal(s.entries[id], s.now);
    NoRestartBeforeItsDelay(s.entries[id].origin, s.entries[id].calls, k);
  }

  // ------------------------------------------------------------------ injected output

  /** The event writes a marker or a banner into the output stream of pane object `ref`. */
  predicate Injects(s: State, ev: Event, ref: PaneRef)
    requires Enabled(s, ev)
  {
    match ev
    case HandleExit(r, unit) => r == ref && Account(s, r, unit, HookExit).lock.Flagging?
    case AccountMissed(unit) => s.lock.pane == ref
    case SpawnEnds(spawn) => s.lock.pane == ref
    case SetPolicy(id, policy) =>
      id in s.entries && s.entries[id].pane == Some(ref) && s.entries[id].sup.state.Backoff?
    case Stop(id, signalOk) =>
      && id in s.entries && s.entries[id].pane == Some(ref)
      && !s.entries[id].sup.StopMustSignal() && !s.entries[id].sup.state.Stopped?
    case _ => false
  }

  /**
   `inject_output` must not run beside a reader that still forwards output. In every reachable
   state, an event that injects finds the child of that pane reaped, so the stream has one writer.
   */
  lemma InjectsOnlyWhenReaderIsQuiet(s: State, ev: Event, ref: PaneRef)
    requires Reachable(s) && Enabled(s, ev) && Injects(s, ev, ref)
    ensures ref in s.panes && !s.panes[ref].phase.Running?
  {
    ReachableInv(s);
    hide Reachable, History, Next, Apply, Account;
    if ev.SetPolicy? || ev.Stop? {
      assert EntryOk(s, ev.id, s.entries[ev.id]);
    } else if ev.AccountMissed? || ev.SpawnEnds? {
      assert LockOk(s);
      var id := s.panes[s.lock.pane].id;
      assert EntryOk(s, id, s.entries[id]);
    }
  }
}
