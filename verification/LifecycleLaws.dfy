/**
 What the supervision protocol does to a pane, said by the events that happen to it: which restarts are
 charged, what an operator's call leaves behind, what is told about an exit, what is to be saved.
 crates/tymux-core/src/supervision.rs, lines 101-462.
 */
module LifecycleLaws {
  import opened Common
  import opened Restart
  import opened RestartRuns
  import opened Lifecycle
  import opened LifecycleInv
  import opened LifecycleTheorems

  // ------------------------------------------------------------------ every due backoff is charged

  /** The event respawns pane `id` and finds it in Backoff. */
  predicate FindsBackoff(s: State, ev: Event, id: PaneId) {
    ev.RunDue? && ev.id == id && id in s.entries && s.entries[id].sup.state.Backoff?
  }

  /** The times at which the events of a run respawn pane `id` out of Backoff. */
  function DueTimes(s: State, evs: seq<Event>, id: PaneId): seq<nat>
    requires Run(s, evs)
    decreases |evs|
  {
    if evs == [] then []
    else (if FindsBackoff(s, evs[0], id) then [s.now] else []) + DueTimes(Next(s, evs[0]), evs[1..], id)
  }

  /** The event neither replaces pane `id`'s entry nor changes its policy nor resets its budget. */
  predicate LeavesBudget(s: State, ev: Event, id: PaneId) {
    match ev
    case RegisterLive(i, _, _, _) => i != id
    case RegisterRestored(i, _, _) => i != id
    case AdoptStarted(i, _, _, _) => i != id
    case Forget(i) => i != id
    case SetPolicy(i, policy) => i != id || !policy.Valid()
    case ResetBudget(i) => i != id
    case Restart(i, reset, _) => i != id || !reset
    case Start(i) => i != id || (id in s.entries && s.RunningPane(s.entries[id]))
    case _ => true
  }

  predicate BudgetLeftAlone(s: State, evs: seq<Event>, id: PaneId)
    requires Run(s, evs)
    decreases |evs|
  {
    evs == [] || (LeavesBudget(s, evs[0], id) && BudgetLeftAlone(Next(s, evs[0]), evs[1..], id))
  }

  /** Entry `id` went on from `e` to `e'` by the calls `more`. */
  predicate WentOn(e: Entry, e': Entry, more: seq<Call>) {
    e'.origin == e.origin && e'.calls == e.calls + more
  }

  lemma WentNowhere(e: Entry)
    ensures WentOn(e, e, []) && FixedBudget([]) && AutoTimes([]) == []
  {
  }

  lemma OneCall(e: Entry, c: Call)
    ensures WentOn(e, e.Do(c), [c]) && AutoTimes([c]) == AutoTime(c) && (c.KeepsBudget() ==> FixedBudget([c]))
  {
    hide Apply;
    assert [c][..0] == [];
    assert AutoTimes([]) == [];
  }

  lemma TwoCalls(e: Entry, c: Call, d: Call)
    ensures WentOn(e, e.Do(c).Do(d), [c, d]) && AutoTimes([c, d]) == AutoTime(c) + AutoTime(d)
    ensures c.KeepsBudget() && d.KeepsBudget() ==> FixedBudget([c, d])
  {
    hide Apply, AutoTime;
    OneCall(e, c);
    assert [c, d][..1] == [c];
    assert (e.calls + [c]) + [d] == e.calls + [c, d];
  }

  /** What an exit does to the entry of the pane. */
  lemma AccountCalls(s: State, ref: PaneRef, unit: real, cause: Cause, id: PaneId) returns (more: seq<Call>)
    requires ref in s.panes && id in s.entries
    ensures var s' := Account(s, ref, unit, cause);
            id in s'.entries && WentOn(s.entries[id], s'.entries[id], more) && FixedBudget(more) && AutoTimes(more) == []
  {
    hide Apply;
    var p := s.panes[ref];
    if p.id == id && s.entries[id].pane == Some(ref) {
      var c := Exit(s.now, p.exitCode, p.lastSignal, unit);
      OneCall(s.entries[id], c);
      more := [c];
    } else {
      WentNowhere(s.entries[id]);
      more := [];
    }
  }

  /** What the beginning of a respawn does to it. */
  lemma RespawnCalls(s: State, other: PaneId, e: Entry, automatic: bool, cause: Cause, id: PaneId) returns (more: seq<Call>)
    requires id in s.entries && other == id && s.HasPane(e) && !s.panes[e.pane.value].retired
    ensures var s' := Respawn(s, other, e, automatic, cause);
            && id in s'.entries && WentOn(e, s'.entries[id], more) && FixedBudget(more)
            && AutoTimes(more) == if automatic then [s.now] else []
  {
    hide Apply;
    OneCall(e, Begin(s.now, automatic));
    more := [Begin(s.now, automatic)];
  }

  /** One event: the calls it adds to entry `id`, and which of them are charged to the budget. */
  lemma CallsStep(s: State, ev: Event, id: PaneId) returns (more: seq<Call>)
    requires Inv(s) && Enabled(s, ev) && id in s.entries && LeavesBudget(s, ev, id)
    ensures var s' := Next(s, ev);
            && id in s'.entries && WentOn(s.entries[id], s'.entries[id], more) && FixedBudget(more)
            && AutoTimes(more) == if FindsBackoff(s, ev, id) then [s.now] else []
  {
    hide Inv, Apply, AutoTimes, FixedBudget, WentOn;
    WentNowhere(s.entries[id]);
    if ev.RunDue? || ev.Restart? {
      more := RestartCalls(s, ev, id);
    } else if ev.SpawnEnds? || ev.FinishRespawn? {
      more := SpawnCalls(s, ev, id);
    } else {
      more := OtherCalls(s, ev, id);
    }
  }

  lemma RestartCalls(s: State, ev: Event, id: PaneId) returns (more: seq<Call>)
    requires Inv(s) && Enabled(s, ev) && id in s.entries && LeavesBudget(s, ev, id) && (ev.RunDue? || ev.Restart?)
    ensures var s' := Next(s, ev);
            && id in s'.entries && WentOn(s.entries[id], s'.entries[id], more) && FixedBudget(more)
            && AutoTimes(more) == if FindsBackoff(s, ev, id) then [s.now] else []
  {
    hide Inv, Apply, AutoTimes, FixedBudget, WentOn, Respawn, Account, DoSpawn, DoStop, DoSetPolicy, DoForget;
    var e := s.entries[id];
    WentNowhere(e);
    var s1 := s.Mark(ev.id);
    if ev.id != id {
      more := [];
      if ev.id in s.entries {
        var o := s.entries[ev.id];
        RespawnElsewhere(s1, ev.id, o, o.sup.state.Backoff?, DueRestart, id);
        if ev.Restart? {
          RespawnElsewhere(s1, ev.id, o.Do(RestartCall(ev.resetBackoff)), false, Operator(o.sup.RestartPending()), id);
        }
      }
    } else if ev.RunDue? {
      NotRetiredNow(s, id);
      more := RespawnCalls(s1, id, e, e.sup.state.Backoff?, DueRestart, id);
    } else {
      more := OwnRestartCalls(s, ev, id);
    }
  }

  /** A supervised pane object is not retired. */
  lemma NotRetiredNow(s: State, id: PaneId)
    requires Inv(s) && id in s.entries && s.HasPane(s.entries[id])
    ensures !s.panes[s.entries[id].pane.value].retired
  {
    hide History, Shape;
    assert EntryOk(s, id, s.entries[id]);
  }

  lemma OwnRestartCalls(s: State, ev: Event, id: PaneId) returns (more: seq<Call>)
    requires Inv(s) && Enabled(s, ev) && id in s.entries && ev.Restart? && ev.id == id && !ev.resetBackoff
    ensures var s' := Next(s, ev);
            id in s'.entries && WentOn(s.entries[id], s'.entries[id], more) && FixedBudget(more) && AutoTimes(more) == []
  {
    hide Inv, Apply, AutoTimes, FixedBudget, WentOn, Account, DoSpawn, DoStop, DoSetPolicy, DoForget;
    var e, call := s.entries[id], RestartCall(false);
    WentNowhere(e);
    OneCall(e, call);
    TwoCalls(e, call, ScheduleNow(s.now));
    TwoCalls(e, call, Begin(s.now, false));
    var e' := Next(s, ev).entries[id];
    if e' == e {
      more := [];
    } else if e' == e.Do(call) {
      more := [call];
    } else if e' == e.Do(call).Do(ScheduleNow(s.now)) {
      more := [call, ScheduleNow(s.now)];
    } else {
      more := [call, Begin(s.now, false)];
    }
  }

  lemma SpawnCalls(s: State, ev: Event, id: PaneId) returns (more: seq<Call>)
    requires Enabled(s, ev) && id in s.entries && (ev.SpawnEnds? || ev.FinishRespawn?)
    ensures var s' := Next(s, ev);
            id in s'.entries && WentOn(s.entries[id], s'.entries[id], more) && FixedBudget(more) && AutoTimes(more) == []
  {
    hide Apply, AutoTimes, FixedBudget, WentOn, Account, Respawn, DoStop, DoRestart, DoStart, DoSetPolicy, DoForget;
    var e := s.entries[id];
    WentNowhere(e);
    OneCall(e, Started(s.lock.at));
    more := [];
    if s.panes[s.lock.pane].id == id {
      if ev.FinishRespawn? {
        more := [Started(s.lock.at)];
      } else {
        OneCall(e, SpawnFailed(s.lock.at, ev.spawn.unit));
        if Next(s, ev).lock.Flagging? {
          more := [SpawnFailed(s.lock.at, ev.spawn.unit)];
        }
      }
    }
  }

  lemma OtherCalls(s: State, ev: Event, id: PaneId) returns (more: seq<Call>)
    requires Enabled(s, ev) && id in s.entries && LeavesBudget(s, ev, id)
    requires !ev.RunDue? && !ev.Restart? && !ev.SpawnEnds? && !ev.FinishRespawn?
    ensures var s' := Next(s, ev);
            id in s'.entries && WentOn(s.entries[id], s'.entries[id], more) && FixedBudget(more) && AutoTimes(more) == []
  {
    hide Apply, AutoTimes, FixedBudget, WentOn, Account, Respawn;
    var e := s.entries[id];
    WentNowhere(e);
    more := [];
    match ev
    case HandleExit(ref, unit) => more := AccountCalls(s, ref, unit, HookExit, id);
    case AccountMissed(unit) => more := AccountCalls(s, s.lock.pane, unit, MissedExit, id);
    case Stop(i, signalOk) =>
      OneCall(e, StopCall);
      if i == id && !StopFails(s, id, signalOk) {
        more := [StopCall];
      }
    case Start(i) =>
      if i != id && i in s.entries {
        RespawnElsewhere(s.Mark(i), i, s.entries[i].Do(StartReset), false, Operator(s.entries[i].sup.RestartPending()), id);
      }
    case _ =>
  }

  lemma {:induction false} AutoTimesConcat(a: seq<Call>, b: seq<Call>)
    ensures AutoTimes(a + b) == AutoTimes(a) + AutoTimes(b)
  {
    hide AutoTime;
    if b == [] {
      assert a + b == a;
    } else {
      AutoTimesConcat(a, b[..|b| - 1]);
      assert (a + b)[..|a + b| - 1] == a + b[..|b| - 1];
    }
  }

  /** A whole run: the calls it adds to entry `id`, of which exactly the respawns out of Backoff are charged. */
  lemma {:induction false} CallsRun(s: State, evs: seq<Event>, id: PaneId) returns (more: seq<Call>)
    requires Inv(s) && Run(s, evs) && id in s.entries && BudgetLeftAlone(s, evs, id)
    ensures var s' := After(s, evs);
            && id in s'.entries && WentOn(s.entries[id], s'.entries[id], more) && FixedBudget(more)
            && AutoTimes(more) == DueTimes(s, evs, id)
    decreases |evs|
  {
    hide Inv, Next, Enabled, AutoTimes, FindsBackoff, LeavesBudget;
    WentNowhere(s.entries[id]);
    if evs == [] {
      more := [];
    } else {
      var s1 := Next(s, evs[0]);
      var first := CallsStep(s, evs[0], id);
      InvStep(s, evs[0]);
      var rest := CallsRun(s1, evs[1..], id);
      AutoTimesConcat(first, rest);
      assert (s.entries[id].calls + first) + rest == s.entries[id].calls + (first + rest);
      more := first + rest;
    }
  }

  /**
   Every due backoff is charged: over any run of protocol events that leaves the policy and the budget of
   a pane alone, the respawns that find it in Backoff - counted by the events, not by what is recorded of
   them - keep the sliding window of the policy, and without a window its total. Only a restart that was
   scheduled when the run began may be one too many.
   */
  lemma DueRestartsKeepBudget(s: State, evs: seq<Event>, id: PaneId, i: nat)
    requires Reachable(s) && Run(s, evs) && id in s.entries && BudgetLeftAlone(s, evs, id)
    ensures var sup, due := s.entries[id].sup, DueTimes(s, evs, id);
            && (i < |due| ==> CountAfter(due[..i + 1], due[i] - sup.policy.windowMs) <= Limit(sup))
            && (sup.policy.windowMs == 0 ==> |due| <= Limit(sup))
  {
    hide *;
    ReachableInv(s);
    var more := CallsRun(s, evs, id);
    ReachableRun(s, evs);
    var s', e := After(s, evs), s.entries[id];
    ReachableInv(s');
    EntryHistory(s', id);
    HistoryLegal(s'.entries[id], s'.now);
    EntryHistory(s, id);
    HistoryLegal(e, s.now);
    Tail(e, s'.entries[id], more);
    BudgetSince(s'.entries[id].origin, s'.entries[id].calls, |e.calls|, i);
  }

  lemma Tail(e: Entry, e': Entry, more: seq<Call>)
    requires WentOn(e, e', more)
    ensures |e.calls| <= |e'.calls| && e'.calls[..|e.calls|] == e.calls && e'.calls[|e.calls|..] == more && e'.origin == e.origin
  {
  }

  lemma {:induction false} ReachableRun(s: State, evs: seq<Event>)
    requires Reachable(s) && Run(s, evs)
    ensures Reachable(After(s, evs))
    decreases |evs|
  {
    hide Reachable, Next, Enabled;
    if evs != [] {
      ReachableStep(s, evs[0]);
      ReachableRun(Next(s, evs[0]), evs[1..]);
    }
  }

  /** A respawn out of Backoff is logged at its time; one of a restart an operator asked for costs nothing. */
  lemma DueRestartCosts(s: State, id: PaneId, checkedAt: nat)
    requires Inv(s) && Enabled(s, RunDue(id, checkedAt))
    ensures var sup, s' := s.entries[id].sup, Next(s, RunDue(id, checkedAt));
            && id in s'.entries
            && s'.entries[id].sup.restartLog == (if sup.state.Backoff? then sup.restartLog + [s.now] else sup.restartLog)
            && s'.entries[id].sup.consecutiveFailures == sup.consecutiveFailures
            && s'.entries[id].sup.restartCount == SatAdd(sup.restartCount, 1, U32_MAX)
            && s'.lock.Spawning? && s'.lock.pane == s.entries[id].pane.value
  {
    hide Inv, DelayMs, Prune, Account, DoSpawn, DoStop, DoRestart, DoStart, DoSetPolicy, DoForget;
    NotRetiredNow(s, id);
  }

  // ------------------------------------------------------------------ operators

  /** A stop or a restart whose signal was refused leaves every supervisor, and what is to be saved, as it was. */
  lemma RefusedSignalChangesNothing(s: State, id: PaneId, reset: bool)
    requires s.lock.Free? && id in s.entries && s.RunningPane(s.entries[id])
    requires s.panes[s.entries[id].pane.value].phase.Running?
    ensures s.entries[id].sup.StopMustSignal() ==>
              var s' := Next(s, Stop(id, false)); s'.entries == s.entries && s'.dirty == s.dirty && s'.lock.Free?
    ensures s.entries[id].sup.startedAt.Some? ==>
              var s' := Next(s, Restart(id, reset, false)); s'.entries == s.entries && s'.lock.Free?
  {
    hide Apply, Account, Respawn, DoSpawn, DoStart, DoSetPolicy, DoForget;
  }

  /** After a stop, refused or not, the pane announces a restart iff its supervisor has one pending. */
  lemma StopStoresFlag(s: State, id: PaneId, signalOk: bool)
    requires s.lock.Free? && id in s.entries && s.HasPane(s.entries[id])
    ensures var s', ref := Next(s, Stop(id, signalOk)), s.entries[id].pane.value;
            && id in s'.entries && ref in s'.panes
            && s'.panes[ref].restartPending == s'.entries[id].sup.RestartPending()
            && s'.panes[ref].phase == s.panes[ref].phase && s'.panes[ref].generation == s.panes[ref].generation
  {
    hide Account, Respawn, DoSpawn, DoStart, DoSetPolicy, DoForget, DelayMs, Prune;
  }

  /** An operator start of a pane without a process starts its budget and its backoff over, under the same policy. */
  lemma StartBeginsAfresh(s: State, id: PaneId)
    requires Inv(s) && s.lock.Free? && id in s.entries && s.HasPane(s.entries[id]) && !s.RunningPane(s.entries[id])
    ensures var sup, s' := s.entries[id].sup, Next(s, Start(id));
            && id in s'.entries && s'.lock.Spawning? && s'.lock.pane == s.entries[id].pane.value
            && s'.entries[id].sup.restartLog == [] && s'.entries[id].sup.consecutiveFailures == 0
            && s'.entries[id].sup.policy == sup.policy && s'.entries[id].sup.lastExit == sup.lastExit
  {
    hide Inv, DelayMs, Prune, Account, DoSpawn, DoStop, DoRestart, DoSetPolicy, DoForget;
    NotRetiredNow(s, id);
  }

  /** A restart of a pane whose process runs waits for its exit, and is then due at once, at no cost. */
  lemma RestartOfLiveIsDueAtExit(sup: Supervisor, reset: bool, now: nat, code: Option<int>, signal: Option<int>, unit: real)
    requires sup.startedAt.Some?
    ensures var asked := sup.RequestRestart(reset);
            var (s', kind) := asked.OnExit(now, code, signal, unit);
            && asked.state.Restarting? && asked.restartRequested
            && kind.ManualRestart? && s'.state.Restarting? && s'.nextRestartAt == Some(now) && s'.Due(now)
            && s'.restartLog == (if reset then [] else sup.restartLog)
            && s'.consecutiveFailures == (if reset then 0 else sup.consecutiveFailures)
  {
    hide DelayMs, Prune;
  }

  /** A restart of a pane whose process is gone but not yet published: due at once, and run only when it is published. */
  lemma RestartBeforePublishIsDue(s: State, id: PaneId, reset: bool, signalOk: bool)
    requires s.lock.Free? && id in s.entries && s.RunningPane(s.entries[id]) && s.entries[id].sup.startedAt.None?
    ensures var sup, s' := s.entries[id].sup, Next(s, Restart(id, reset, signalOk));
            && id in s'.entries && s'.now == s.now && s'.lock.Flagging? && s'.panes == s.panes
            && var asked := s'.entries[id].sup;
               && asked.state.Restarting? && asked.nextRestartAt == Some(s.now) && asked.Due(s.now)
               && asked.restartCount == sup.restartCount && asked.policy == sup.policy
               && asked.restartLog == (if reset then [] else sup.restartLog)
               && asked.consecutiveFailures == (if reset then 0 else sup.consecutiveFailures)
               && forall checkedAt :: !Enabled(s'.(lock := Free), RunDue(id, checkedAt))
  {
    hide DelayMs, Prune, Account, Respawn, DoSpawn, DoStop, DoStart, DoSetPolicy, DoForget;
  }

  /** A restored pane that is given a process keeps its policy and history and starts its budget over. */
  lemma AdoptKeepsPolicy(s: State, id: PaneId, ref: PaneRef, fallback: RestartPolicy, at: nat)
    requires Enabled(s, AdoptStarted(id, ref, fallback, at))
    ensures var s' := Next(s, AdoptStarted(id, ref, fallback, at));
            && id in s'.entries && s'.entries[id].pane == Some(ref)
            && var sup := s'.entries[id].sup;
               && sup.state.Live? && sup.startedAt == Some(at) && sup.restartLog == [] && sup.consecutiveFailures == 0
               && (if id in s.entries then sup.policy == s.entries[id].sup.policy && sup.restartCount == s.entries[id].sup.restartCount
                   else sup.policy == fallback && sup.restartCount == 0)
  {
    hide DelayMs, Prune, Account, Respawn, DoSpawn, DoStop, DoRestart, DoStart, DoSetPolicy, DoForget;
  }

  /** A pane known from its record comes back without a process: what the record says of its restarts, Stopped or Failed if it was. */
  lemma RegisterRestoredTakesRecord(s: State, id: PaneId, persisted: Option<PersistedRestartState>, policy: RestartPolicy)
    requires Enabled(s, RegisterRestored(id, persisted, policy))
    ensures var s' := Next(s, RegisterRestored(id, persisted, policy));
            && id in s'.entries && s'.entries[id].pane.None? && s'.dirty == s.dirty && s'.lock.Free?
            && var sup := s'.entries[id].sup;
               && sup.startedAt.None? && sup.nextRestartAt.None? && !sup.RestartPending()
               && (if persisted.None? then sup.policy == policy && sup.state.Exited? && sup.restartCount == 0 && sup.restartLog == []
                   else
                     var r := persisted.value;
                     && sup.policy == r.policy && sup.restartCount == r.restartCount && sup.restartLog == r.restartLog
                     && sup.consecutiveFailures == r.consecutiveFailures && sup.lastExit == r.lastExit
                     && (sup.state.Stopped? <==> r.state.Stopped?) && (sup.state.Failed? <==> r.state.Failed?))
  {
    hide DelayMs, Prune, Account, Respawn, DoSpawn, DoStop, DoRestart, DoStart, DoSetPolicy, DoForget;
  }

  /** A new pane is supervised with the policy it is given, from the time it is given. */
  lemma RegisterTakesPolicy(s: State, id: PaneId, ref: PaneRef, policy: RestartPolicy, at: nat)
    requires Enabled(s, RegisterLive(id, ref, policy, at))
    ensures var s' := Next(s, RegisterLive(id, ref, policy, at));
            && id in s'.entries && s'.entries[id].pane == Some(ref)
            && var sup := s'.entries[id].sup;
               sup.policy == policy && sup.state.Live? && sup.startedAt == Some(at) && sup.restartLog == [] && sup.lastExit.None?
  {
    hide DelayMs, Prune, Account, Respawn, DoSpawn, DoStop, DoRestart, DoStart, DoSetPolicy, DoForget;
  }

  // ------------------------------------------------------------------ what is told about an exit

  /** Between sections, the last exit of a pane without a process is that of the process it had last: its code and its signal. */
  lemma LastExitTellsProcess(s: State, id: PaneId)
    requires Reachable(s) && s.lock.Free? && id in s.entries && s.HasPane(s.entries[id]) && s.entries[id].sup.startedAt.None?
    ensures var e := s.entries[id];
            var p := s.panes[e.pane.value];
            e.sup.lastExit.Some? && e.sup.lastExit.value.code == p.exitCode && e.sup.lastExit.value.signal == p.lastSignal
  {
    ReachableInv(s);
    hide Reachable, History, Shape;
    assert EntryOk(s, id, s.entries[id]);
  }

  /** A new process starts without an exit code and without a signal; an exit code is the one that was reaped. */
  lemma NewProcessIsClean(s: State, ev: Event, ref: PaneRef)
    requires Enabled(s, ev) && ref in s.panes
    ensures var p, p' := s.panes[ref], Next(s, ev).panes[ref];
            && (p'.generation != p.generation ==> p'.phase.Running? && p'.exitCode.None? && p'.lastSignal.None?)
            && (p'.generation == p.generation && p'.exitCode != p.exitCode ==> ev == Reap(ref, p'.exitCode))
  {
    hide Next, Enabled;
    PaneStep(s, ev, ref);
  }

  /** How an event treats a pane object: it leaves the process alone, signals it, reaps it or replaces it. */
  lemma PaneStep(s: State, ev: Event, ref: PaneRef)
    requires Enabled(s, ev) && ref in s.panes
    ensures ref in Next(s, ev).panes
    ensures var p, p' := s.panes[ref], Next(s, ev).panes[ref];
            || (SameProcess(p, p') && p'.lastSignal == p.lastSignal && p'.exitCode == p.exitCode)
            || (SameProcess(p, p') && p'.exitCode == p.exitCode && Signals(s, ev, ref))
            || (SameProcess(p, p') && p'.lastSignal == p.lastSignal && ev == Reap(ref, p'.exitCode))
            || (p'.generation == p.generation + 1 && p'.phase.Running? && p'.exitCode.None? && p'.lastSignal.None?)
  {
    if ev.Stop? || ev.Restart? {
      PaneSignaled(s, ev, ref);
    } else if ev.RunDue? || ev.Start? || ev.SetPolicy? || ev.Forget? {
      PaneOfSection(s, ev, ref);
    } else {
      PaneOfReader(s, ev, ref);
    }
  }

  predicate SameProcess(p: Pane, p': Pane) {
    p'.id == p.id && p'.generation == p.generation
  }

  lemma PaneSignaled(s: State, ev: Event, ref: PaneRef)
    requires Enabled(s, ev) && ref in s.panes && (ev.Stop? || ev.Restart?)
    ensures ref in Next(s, ev).panes
    ensures var p, p' := s.panes[ref], Next(s, ev).panes[ref];
            SameProcess(p, p') && p'.exitCode == p.exitCode && (p'.lastSignal == p.lastSignal || Signals(s, ev, ref))
  {
    hide Apply, Account, DoSpawn, DoStoreFlag, DoStart, DoSetPolicy, DoForget;
  }

  lemma PaneOfSection(s: State, ev: Event, ref: PaneRef)
    requires Enabled(s, ev) && ref in s.panes && (ev.RunDue? || ev.Start? || ev.SetPolicy? || ev.Forget?)
    ensures ref in Next(s, ev).panes
    ensures var p, p' := s.panes[ref], Next(s, ev).panes[ref];
            SameProcess(p, p') && p'.exitCode == p.exitCode && p'.lastSignal == p.lastSignal
  {
    hide Apply, Account, DoSpawn, DoStoreFlag, DoStop, DoRestart;
  }

  lemma PaneOfReader(s: State, ev: Event, ref: PaneRef)
    requires Enabled(s, ev) && ref in s.panes
    requires !ev.Stop? && !ev.Restart? && !ev.RunDue? && !ev.Start? && !ev.SetPolicy? && !ev.Forget?
    ensures ref in Next(s, ev).panes
    ensures var p, p' := s.panes[ref], Next(s, ev).panes[ref];
            || (SameProcess(p, p') && p'.lastSignal == p.lastSignal && (p'.exitCode == p.exitCode || ev == Reap(ref, p'.exitCode)))
            || (p'.generation == p.generation + 1 && p'.phase.Running? && p'.exitCode.None? && p'.lastSignal.None?)
  {
    hide Apply, Respawn, DoStop, DoRestart, DoStart, DoSetPolicy, DoForget;
  }

  /** The event signals the process of pane object `ref`, which runs. */
  predicate Signals(s: State, ev: Event, ref: PaneRef) {
    && (ev.Stop? || ev.Restart?) && ev.id in s.entries && s.entries[ev.id].pane == Some(ref)
    && ref in s.panes && s.panes[ref].phase.Running?
  }

  lemma SignalStep(s: State, ev: Event, ref: PaneRef)
    requires Enabled(s, ev) && ref in s.panes && s.panes[ref].lastSignal.None?
    ensures ref in Next(s, ev).panes && (Next(s, ev).panes[ref].lastSignal.Some? ==> Signals(s, ev, ref))
  {
    hide Next, Enabled, Signals;
    PaneStep(s, ev, ref);
  }

  /** Some event of the run signals it. */
  predicate SignalsSometime(s: State, evs: seq<Event>, ref: PaneRef)
    requires Run(s, evs)
    decreases |evs|
  {
    evs != [] && (Signals(s, evs[0], ref) || SignalsSometime(Next(s, evs[0]), evs[1..], ref))
  }

  /** A process is only said to have been signaled if an operator's stop or restart signaled it while it ran. */
  lemma {:induction false} SignalWasSent(s: State, evs: seq<Event>, ref: PaneRef)
    requires Run(s, evs) && ref in s.panes && s.panes[ref].lastSignal.None?
    ensures var s' := After(s, evs);
            ref in s'.panes && (s'.panes[ref].lastSignal.Some? ==> SignalsSometime(s, evs, ref))
    decreases |evs|
  {
    hide Next, Enabled, Signals;
    if evs != [] {
      SignalStep(s, evs[0], ref);
      if Next(s, evs[0]).panes[ref].lastSignal.None? {
        SignalWasSent(Next(s, evs[0]), evs[1..], ref);
      } else {
        PaneStays(Next(s, evs[0]), evs[1..], ref);
      }
    }
  }

  lemma {:induction false} PaneStays(s: State, evs: seq<Event>, ref: PaneRef)
    requires Run(s, evs) && ref in s.panes
    ensures ref in After(s, evs).panes
    decreases |evs|
  {
    hide Next, Enabled;
    if evs != [] {
      PaneStep(s, evs[0], ref);
      PaneStays(Next(s, evs[0]), evs[1..], ref);
    }
  }

  // ------------------------------------------------------------------ what is to be saved

  /** The pane a section is about is marked as changed. */
  predicate SectionMarked(s: State) {
    s.lock.Free? || (s.lock.pane in s.panes && s.panes[s.lock.pane].id in s.dirty)
  }

  predicate Changed(s: State, s': State, id: PaneId) {
    id in s.entries && id in s'.entries && s'.entries[id].sup.Persisted() != s.entries[id].sup.Persisted()
  }

  lemma MarkStep(s: State, ev: Event, id: PaneId)
    requires Inv(s) && Enabled(s, ev) && SectionMarked(s)
    ensures var s' := Next(s, ev);
            && SectionMarked(s')
            && (id in s.dirty && ev != Forget(id) ==> id in s'.dirty)
            && (Changed(s, s', id) ==> id in s'.dirty)
  {
    hide Inv, Apply;
    if (ev.RunDue? || ev.Restart? || ev.Start? || ev.SetPolicy? || ev.Stop? || ev.ResetBudget?) && ev.id in s.entries {
      EntryPane(s, ev.id);
    }
    if ev.RunDue? || ev.Restart? || ev.Start? || ev.SetPolicy? || ev.Stop? {
      SectionMarks(s, ev, id);
    } else {
      ReaderMarks(s, ev, id);
    }
  }

  lemma EntryPane(s: State, id: PaneId)
    requires Inv(s) && id in s.entries
    ensures s.entries[id].pane.Some? ==> s.entries[id].pane.value in s.panes && s.panes[s.entries[id].pane.value].id == id
  {
    hide EntryOk, PaneOk;
    assert EntryOk(s, id, s.entries[id]);
    PaneOfEntry(s, id, s.entries[id]);
  }

  lemma SectionMarks(s: State, ev: Event, id: PaneId)
    requires Enabled(s, ev) && SectionMarked(s) && (ev.RunDue? || ev.Restart? || ev.Start? || ev.SetPolicy? || ev.Stop?)
    requires ev.id in s.entries && s.entries[ev.id].pane.Some? ==>
               s.entries[ev.id].pane.value in s.panes && s.panes[s.entries[ev.id].pane.value].id == ev.id
    ensures var s' := Next(s, ev);
            && SectionMarked(s')
            && (id in s.dirty ==> id in s'.dirty)
            && (Changed(s, s', id) ==> id in s'.dirty)
  {
    hide Apply, Account, DoSpawn, DoStoreFlag, DoForget;
  }

  lemma ReaderMarks(s: State, ev: Event, id: PaneId)
    requires Enabled(s, ev) && SectionMarked(s)
    requires !ev.RunDue? && !ev.Restart? && !ev.Start? && !ev.SetPolicy? && !ev.Stop?
    ensures var s' := Next(s, ev);
            && SectionMarked(s')
            && (id in s.dirty && ev != Forget(id) ==> id in s'.dirty)
            && (Changed(s, s', id) ==> id in s'.dirty)
  {
    hide Apply, Respawn, DoStop, DoRestart, DoStart, DoSetPolicy;
  }

  /**
   Nothing a supervisor decides is lost for the disk: over any run in which a pane stays registered, a
   pane whose persistent state is not what it was is marked to be saved.
   */
  lemma {:induction false} ChangesAreMarked(s: State, evs: seq<Event>, id: PaneId)
    requires Inv(s) && SectionMarked(s) && Run(s, evs) && id in s.entries
    requires forall i :: 0 <= i < |evs| ==> evs[i] != Forget(id)
    ensures var s' := After(s, evs);
            id in s'.entries && (id in s.dirty || Changed(s, s', id) ==> id in s'.dirty)
    decreases |evs|
  {
    hide Inv, Next, Enabled, SectionMarked;
    if evs != [] {
      var s1 := Next(s, evs[0]);
      InvStep(s, evs[0]);
      MarkStep(s, evs[0], id);
      StaysRegistered(s, evs[0], id);
      assert forall i :: 0 <= i < |evs[1..]| ==> evs[1..][i] == evs[i + 1];
      ChangesAreMarked(s1, evs[1..], id);
    }
  }

  lemma StaysRegistered(s: State, ev: Event, id: PaneId)
    requires Enabled(s, ev) && id in s.entries && ev != Forget(id)
    ensures id in Next(s, ev).entries
  {
    hide Apply;
  }
}
