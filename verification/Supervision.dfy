/**
 `Supervision` as the object it is: a map of entries and a set of dirty panes, updated in place
 under one mutex, next to the flags of the pane objects. Every method is one call of
 crates/tymux-core/src/supervision.rs, proved to take exactly the steps of the protocol in
 `Lifecycle`, to the end of its section; so what is proved about runs of the protocol holds of
 sequences of these calls.
 */
module Supervision {
  import opened Common
  import opened Restart
  import opened RestartRuns
  import opened Lifecycle
  import opened LifecycleInv

  datatype Outcome = Ok(signaled: bool) | PaneNotFound | PaneStart | PaneRunning | InvalidPolicy

  class Supervision {
    var now: nat
    var entries: map<PaneId, Entry>
    var panes: map<PaneRef, Pane>
    var dirty: set<PaneId>
    var lock: Lock

    ghost function View(): State
      reads this
    {
      State(now, entries, panes, lock, dirty)
    }

    constructor (start: nat)
      requires start > 0
      ensures Init(View()) && now == start && dirty == {}
    {
      now, entries, panes, dirty, lock := start, map[], map[], {}, Free;
    }

    /** `set_restart_pending` on the pane of an entry, when there is one. */
    method SetRestartPending(e: Entry, pending: bool)
      modifies this`panes
      ensures panes == if old(View()).HasPane(e)
                       then old(panes)[e.pane.value := old(panes)[e.pane.value].(restartPending := pending)]
                       else old(panes)
    {
      if e.pane.Some? && e.pane.value in panes {
        panes := panes[e.pane.value := panes[e.pane.value].(restartPending := pending)];
      }
    }

    /** `terminate`: fails only when there is a pid and it cannot be signaled. */
    method Terminate(ref: PaneRef, signalOk: bool) returns (ok: bool)
      requires ref in panes
      modifies this`panes
      ensures panes == old(panes)[ref := old(panes)[ref].Signaled()]
      ensures ok <==> !(old(panes)[ref].phase.Running? && !signalOk)
    {
      ok := true;
      if panes[ref].phase.Running? {
        panes := panes[ref := panes[ref].(lastSignal := Some(SIGTERM))];
        ok := signalOk;
      }
    }

    /** `account_exit`: the supervisor decides, then the flag is stored. */
    method AccountExit(ref: PaneRef, unit: real, ghost cause: Cause) returns (pending: bool)
      requires ref in panes && lock.Free? && !panes[ref].phase.Handling?
      modifies this`entries, this`panes, this`dirty
      ensures View() == Flagged(Account(old(View()), ref, unit, cause))
      ensures pending == (var id := old(panes[ref].id);
                          id in entries && entries[id].pane == Some(ref) && entries[id].sup.RestartPending())
    {
      hide Apply, Next, Enabled, Flagged, Spawned;
      var id := panes[ref].id;
      ghost var decided := Account(View(), ref, unit, cause);
      if id !in entries || entries[id].pane != Some(ref) {
        Settles(decided, SpawnResult(false, 0.0));
        return false;
      }
      StoresFlag(decided, SpawnResult(false, 0.0));
      var e := entries[id].Do(Exit(now, panes[ref].exitCode, panes[ref].lastSignal, unit));
      entries := entries[id := e];
      panes := panes[ref := panes[ref].(accountings := CountExit(panes[ref].accountings, panes[ref].generation))];
      pending := e.sup.RestartPending();
      panes := panes[ref := panes[ref].(restartPending := pending)];
      dirty := dirty + {id};
    }

    /** The reader's entry point; when it returns the reader goes on to publish the exit. */
    method HandleExit(ref: PaneRef, unit: real) returns (pending: bool)
      requires Enabled(View(), Event.HandleExit(ref, unit))
      modifies this`entries, this`panes, this`dirty
      ensures View() == Flagged(Next(old(View()), Event.HandleExit(ref, unit)))
    {
      hide Apply, Respawn, DoSpawn, DoStop, DoRestart, DoStart, DoSetPolicy, DoForget;
      pending := AccountExit(ref, unit, HookExit);
      panes := panes[ref := panes[ref].(phase := Reported)];
    }

    method RegisterLive(id: PaneId, ref: PaneRef, policy: RestartPolicy, at: nat, unit: real)
      requires Inv(View()) && Enabled(View(), Event.RegisterLive(id, ref, policy, at))
      modifies this
      ensures var s := Next(Next(old(View()), Event.RegisterLive(id, ref, policy, at)), Event.InstallHook);
              View() == if s.lock.Accounting? then Flagged(Next(s, AccountMissed(unit))) else s
    {
      hide Inv, Apply, Respawn, DoSpawn, DoStop, DoRestart, DoStart, DoSetPolicy, DoForget;
      FreshNotHandling(View(), ref, id);
      entries := entries[id := NewEntry(NewSupervisor(policy), Some(ref)).Do(Started(at))];
      dirty := dirty + {id};
      InstallHook(ref, unit);
    }

    /** A pane known only from its record: no pane object, and whatever restart state was saved. */
    method RegisterRestored(id: PaneId, persisted: Option<PersistedRestartState>, policy: RestartPolicy)
      requires Enabled(View(), Event.RegisterRestored(id, persisted, policy))
      modifies this`entries
      ensures View() == Next(old(View()), Event.RegisterRestored(id, persisted, policy))
    {
      hide Apply, Respawn, DoStop, DoRestart, DoStart, DoSetPolicy, DoForget, Account;
      var sup := if persisted.Some? then Restore(persisted.value) else NewSupervisor(policy);
      entries := entries[id := NewEntry(sup, None)];
    }

    /** Hands a restored pane its new process; the policy is kept and the budget starts over. */
    method AdoptStarted(id: PaneId, ref: PaneRef, policy: RestartPolicy, at: nat, unit: real)
      requires Inv(View()) && Enabled(View(), Event.AdoptStarted(id, ref, policy, at))
      modifies this
      ensures var s := Next(Next(old(View()), Event.AdoptStarted(id, ref, policy, at)), Event.InstallHook);
              View() == if s.lock.Accounting? then Flagged(Next(s, AccountMissed(unit))) else s
    {
      hide Inv, Apply, Respawn, DoSpawn, DoStop, DoRestart, DoStart, DoSetPolicy, DoForget;
      FreshNotHandling(View(), ref, id);
      var e := if id in entries then entries[id] else NewEntry(NewSupervisor(policy), None);
      entries := entries[id := e.Do(StartReset).Do(Started(at)).(pane := Some(ref))];
      dirty := dirty + {id};
      InstallHook(ref, unit);
    }

    /** Called with the mutex held; an exit the reader has already looked for is accounted here. */
    method InstallHook(ref: PaneRef, unit: real)
      requires ref in panes && lock.Free? && !panes[ref].phase.Handling?
      modifies this`entries, this`panes, this`dirty
      ensures var s := Next(old(View()).(lock := Installing(ref)), Event.InstallHook);
              View() == if s.lock.Accounting? then Flagged(Next(s, AccountMissed(unit))) else s
    {
      hide Apply, Respawn, DoSpawn, DoStop, DoRestart, DoStart, DoSetPolicy, DoForget;
      var exitedBeforeHook := panes[ref].ExitChecked();
      panes := panes[ref := panes[ref].(hookInstalled := true)];
      if exitedBeforeHook {
        var _ := AccountExit(ref, unit, MissedExit);
      }
    }

    method Forget(id: PaneId)
      requires lock.Free?
      modifies this`entries, this`panes, this`dirty
      ensures View() == Next(old(View()), Event.Forget(id))
    {
      hide Apply, Respawn, Account, DoStop, DoRestart, DoStart, DoSetPolicy;
      if id in entries {
        var e := entries[id];
        entries := entries - {id};
        if e.pane.Some? && e.pane.value in panes {
          panes := panes[e.pane.value := panes[e.pane.value].(retired := true, restartPending := false)];
        }
      }
      dirty := dirty - {id};
    }

    /** `do_respawn`: the whole section, from `begin_restart` to `on_started` or `on_spawn_failed`. */
    method DoRespawn(id: PaneId, e: Entry, automatic: bool, spawn: SpawnResult, ghost cause: Cause) returns (outcome: Outcome)
      requires lock.Free? && (e.pane.Some? && e.pane.value in panes ==> panes[e.pane.value].id == id && !panes[e.pane.value].phase.Handling?)
      modifies this`entries, this`panes
      ensures View() == RespawnSection(old(View()), id, e, automatic, spawn, cause)
      ensures outcome.Ok? <==> old(View()).HasPane(e) && !old(panes)[e.pane.value].retired && old(panes)[e.pane.value].IsExited() && spawn.ok
      ensures !outcome.PaneRunning? && (outcome.Ok? ==> !outcome.signaled)
      ensures if outcome.Ok? then e.pane.Some? && NewProcess(old(panes), panes, e.pane.value) else SameProcesses(old(panes), panes)
    {
      hide Apply, RespawnSection;
      if e.pane.None? || e.pane.value !in panes || panes[e.pane.value].retired {
        entries := entries[id := e];
        RespawnRefused(old(View()), id, e, automatic, spawn, cause);
        return PaneNotFound;
      }
      var ref := e.pane.value;
      var at := now;
      RespawnSteps(View(), id, e, automatic, spawn, cause);
      var entry := e.Do(Begin(at, automatic));
      var pane := panes[ref];
      if pane.IsExited() && spawn.ok {
        pane := NextGeneration(pane);
        entry := entry.Do(Started(at));
        outcome := Ok(false);
      } else {
        entry := entry.Do(SpawnFailed(at, spawn.unit));
        outcome := PaneStart;
      }
      entries := entries[id := entry];
      panes := panes[ref := pane.(restartPending := entry.sup.RestartPending())];
    }

    method SetPolicy(id: PaneId, policy: RestartPolicy) returns (outcome: Outcome)
      requires Inv(View()) && lock.Free?
      modifies this`entries, this`panes, this`dirty
      ensures View() == Flagged(Next(old(View()), Event.SetPolicy(id, policy)))
      ensures outcome.Ok? <==> policy.Valid() && id in old(entries)
    {
      hide Inv, Apply, Respawn, DoSpawn, DoStoreFlag, Account, DoStop, DoRestart, DoStart, DoForget, Flagged;
      if !policy.Valid() || id !in entries {
        Settles(View(), SpawnResult(false, 0.0));
        return if policy.Valid() then PaneNotFound else InvalidPolicy;
      }
      PaneIdOf(View(), id);
      ghost var decided := Next(View(), Event.SetPolicy(id, policy));
      if decided.lock.Flagging? {
        StoresFlag(decided, SpawnResult(false, 0.0));
      } else {
        Settles(decided, SpawnResult(false, 0.0));
      }
      var e := entries[id].Do(PolicyCall(policy));
      entries := entries[id := e];
      SetRestartPending(e, e.sup.RestartPending());
      dirty := dirty + {id};
      outcome := Ok(false);
    }

    method Stop(id: PaneId, signalOk: bool) returns (outcome: Outcome)
      requires lock.Free?
      modifies this`entries, this`panes, this`dirty
      ensures View() == Next(old(View()), Event.Stop(id, signalOk))
      ensures outcome.Ok? <==> !StopFails(old(View()), id, signalOk)
    {
      hide Apply, Next, Enabled;
      StopIsEvent(View(), id, signalOk);
      if id !in entries {
        return PaneNotFound;
      }
      var before := entries[id];
      var needsSignal := before.sup.StopMustSignal();
      entries := entries[id := before.Do(StopCall)];
      SetRestartPending(before, false);
      if needsSignal && before.pane.Some? && before.pane.value in panes && !panes[before.pane.value].IsExited() {
        var ok := Terminate(before.pane.value, signalOk);
        if !ok {
          SetRestartPending(before, before.sup.RestartPending());
          entries := entries[id := before];
          assert entries == old(entries);
          return PaneStart;
        }
      }
      dirty := dirty + {id};
      outcome := Ok(needsSignal);
    }

    method Restart(id: PaneId, resetBackoff: bool, signalOk: bool, spawn: SpawnResult) returns (outcome: Outcome)
      requires Inv(View()) && lock.Free?
      modifies this`entries, this`panes, this`dirty
      ensures View() == Spawned(DoRestart(old(View()), id, resetBackoff, signalOk), spawn)
      ensures outcome == Ok(true) <==> RestartWaits(old(View()), id, signalOk)
      ensures if outcome == Ok(false) then id in old(entries) && old(entries)[id].pane.Some?
                                           && NewProcess(old(panes), panes, old(entries)[id].pane.value)
              else SameProcesses(old(panes), panes)
    {
      hide Inv, Apply, Respawn, Spawned, Next, Enabled;
      ghost var decided := DoRestart(View(), id, resetBackoff, signalOk);
      if id !in entries {
        Settles(decided, spawn);
        return PaneNotFound;
      }
      PaneIdOf(View(), id);
      var before := entries[id];
      dirty := dirty + {id};
      var running := before.pane.Some? && before.pane.value in panes && !panes[before.pane.value].IsExited();
      var entry := before.Do(RestartCall(resetBackoff));
      if before.sup.startedAt.Some? {
        Settles(decided, spawn);
        if running {
          var ok := Terminate(before.pane.value, signalOk);
          if !ok {
            return PaneStart;
          }
        }
        entries := entries[id := entry];
        return Ok(true);
      }
      if running {
        StoresFlag(decided, spawn);
        ScheduledIsPending(entry, now);
        entry := entry.Do(ScheduleNow(now));
        entries := entries[id := entry];
        SetRestartPending(entry, true);
        return Ok(true);
      }
      outcome := DoRespawn(id, entry, false, spawn, Operator(before.sup.RestartPending()));
    }

    method Start(id: PaneId, spawn: SpawnResult) returns (outcome: Outcome)
      requires Inv(View()) && lock.Free?
      modifies this`entries, this`panes, this`dirty
      ensures View() == Spawned(DoStart(old(View()), id), spawn)
      ensures outcome.PaneRunning? <==> id in old(entries) && old(View()).RunningPane(old(entries)[id])
      ensures if outcome.Ok? then id in old(entries) && old(entries)[id].pane.Some?
                                  && NewProcess(old(panes), panes, old(entries)[id].pane.value)
              else SameProcesses(old(panes), panes)
    {
      hide Inv, Apply, Respawn, Spawned, Next, Enabled;
      if id !in entries {
        Settles(View(), spawn);
        return PaneNotFound;
      }
      PaneIdOf(View(), id);
      var e := entries[id];
      if e.pane.Some? && e.pane.value in panes && !panes[e.pane.value].IsExited() {
        Settles(View(), spawn);
        return PaneRunning;
      }
      dirty := dirty + {id};
      outcome := DoRespawn(id, e.Do(StartReset), false, spawn, Operator(e.sup.RestartPending()));
    }

    method ResetBudget(id: PaneId) returns (outcome: Outcome)
      requires lock.Free?
      modifies this`entries, this`dirty
      ensures View() == Next(old(View()), Event.ResetBudget(id))
      ensures outcome.Ok? <==> id in old(entries)
    {
      hide Apply, Respawn, Account, DoStop, DoRestart, DoStart, DoSetPolicy, DoForget;
      if id !in entries {
        return PaneNotFound;
      }
      entries := entries[id := entries[id].Do(BudgetReset)];
      dirty := dirty + {id};
      outcome := Ok(false);
    }

    /**
     `run_due`: respawns every pane whose restart is due and whose exit is published, and returns
     when to look again. `checkedAt` is the clock reading taken before the lock, and `evs` the steps
     of the protocol the call took.
     */
    method RunDue(checkedAt: nat, spawn: map<PaneId, SpawnResult>) returns (next: Option<nat>, ghost evs: seq<Event>)
      requires Inv(View()) && lock.Free? && checkedAt <= now
      requires forall id :: id in entries ==> id in spawn
      modifies this`entries, this`panes, this`dirty
      ensures Inv(View()) && lock.Free?
      ensures Run(old(View()), evs) && After(old(View()), evs) == View()
      ensures forall i :: 0 <= i < |evs| ==> OfRunDue(evs[i])
      ensures forall id :: id in old(entries) && IsDue(old(View()), id, checkedAt) ==>
                             Event.RunDue(id, checkedAt) in evs
      ensures forall id :: id in entries && Waiting(entries[id]) ==>
                             next.Some? && checkedAt < next.value <= Max(entries[id].sup.nextRestartAt.value, checkedAt + 1)
      ensures next.Some? ==> exists id :: id in entries && Waiting(entries[id])
                                          && next.value == Max(entries[id].sup.nextRestartAt.value, checkedAt + 1)
    {
      hide Inv, Apply, Respawn, Next, Enabled, DueSteps, RespawnSection;
      var due := set id | id in entries && entries[id].sup.Due(checkedAt) && entries[id].pane.Some?
                          && entries[id].pane.value in panes && panes[entries[id].pane.value].IsExited();
      ghost var all := due;
      evs := [];
      while due != {}
        invariant Inv(View()) && lock.Free? && due <= all && now == old(now) && entries.Keys == old(entries).Keys
        invariant Run(old(View()), evs) && After(old(View()), evs) == View()
        invariant forall i :: 0 <= i < |evs| ==> OfRunDue(evs[i])
        invariant forall id :: id in due ==> IsDue(View(), id, checkedAt)
        invariant forall id :: id in all - due ==> Event.RunDue(id, checkedAt) in evs
        decreases |due|
      {
        var id :| id in due;
        due := due - {id};
        ghost var s := View();
        ghost var steps := RespawnDue(id, checkedAt, spawn[id]);
        RunConcat(old(View()), evs, steps);
        forall other | other in due ensures IsDue(View(), other, checkedAt) {
          DueElsewhere(s, id, checkedAt, spawn[id], other);
        }
        evs := evs + steps;
      }
      next := NextWake(checkedAt);
    }

    /** One iteration of `run_due`. */
    method RespawnDue(id: PaneId, checkedAt: nat, spawn: SpawnResult) returns (ghost steps: seq<Event>)
      requires Inv(View()) && lock.Free? && checkedAt <= now && IsDue(View(), id, checkedAt)
      modifies this`entries, this`panes, this`dirty
      ensures Inv(View()) && entries.Keys == old(entries).Keys
      ensures View() == DueSection(old(View()), id, spawn)
      ensures Run(old(View()), steps) && After(old(View()), steps) == View()
      ensures Event.RunDue(id, checkedAt) in steps
      ensures forall i :: 0 <= i < |steps| ==> OfRunDue(steps[i])
    {
      hide Inv, Apply, Respawn, Next, Enabled, Run, After;
      PaneIdOf(View(), id);
      RunDueSection(View(), id, checkedAt, spawn);
      var automatic := entries[id].sup.state == Backoff;
      dirty := dirty + {id};
      var _ := DoRespawn(id, entries[id], automatic, spawn, DueRestart);
      steps := DueSteps(id, checkedAt, spawn);
    }

    method NextWake(checkedAt: nat) returns (next: Option<nat>)
      ensures forall id :: id in entries && Waiting(entries[id]) ==>
                             next.Some? && checkedAt < next.value <= Max(entries[id].sup.nextRestartAt.value, checkedAt + 1)
      ensures next.Some? ==> exists id :: id in entries && Waiting(entries[id])
                                          && next.value == Max(entries[id].sup.nextRestartAt.value, checkedAt + 1)
    {
      var ids := entries.Keys;
      next := None;
      while ids != {}
        invariant ids <= entries.Keys
        invariant forall id :: id in entries && id !in ids && Waiting(entries[id]) ==>
                                 next.Some? && next.value <= Max(entries[id].sup.nextRestartAt.value, checkedAt + 1)
        invariant next.Some? ==> exists id :: id in entries && Waiting(entries[id])
                                              && next.value == Max(entries[id].sup.nextRestartAt.value, checkedAt + 1)
        decreases |ids|
      {
        var id :| id in ids;
        ids := ids - {id};
        if Waiting(entries[id]) {
          var at := Max(entries[id].sup.nextRestartAt.value, checkedAt + 1);
          if next.None? || at < next.value {
            next := Some(at);
          }
        }
      }
    }
  }

  /** Exactly the pane object `ref` was given one more process generation. */
  predicate NewProcess(before: map<PaneRef, Pane>, after: map<PaneRef, Pane>, ref: PaneRef) {
    && before.Keys == after.Keys && ref in before && after[ref].generation == before[ref].generation + 1
    && forall r :: r in before && r != ref ==> after[r] == before[r]
  }

  predicate SameProcesses(before: map<PaneRef, Pane>, after: map<PaneRef, Pane>) {
    before.Keys == after.Keys && forall r :: r in before ==> after[r].generation == before[r].generation
  }

  /** A restart replaces the process only later: one that still runs, or whose exit is not published yet. */
  predicate RestartWaits(s: State, id: PaneId, signalOk: bool) {
    && id in s.entries && (s.entries[id].sup.startedAt.Some? || s.RunningPane(s.entries[id]))
    && !(&& s.entries[id].sup.startedAt.Some? && s.RunningPane(s.entries[id])
         && s.panes[s.entries[id].pane.value].phase.Running? && !signalOk)
  }

  /** A pending restart with a deadline. */
  predicate Waiting(e: Entry) {
    e.sup.RestartPending() && e.sup.nextRestartAt.Some?
  }

  predicate IsDue(s: State, id: PaneId, checkedAt: nat) {
    && id in s.entries && s.entries[id].sup.Due(checkedAt)
    && s.HasPane(s.entries[id]) && s.panes[s.entries[id].pane.value].IsExited()
  }

  /** The state once the flag of a section that has decided is stored. */
  function Flagged(s: State): State {
    if Enabled(s, StoreFlag) then Next(s, StoreFlag) else s
  }

  /** The state at the end of a section in which a spawn may be in flight. */
  function Spawned(s: State, spawn: SpawnResult): State {
    var s1 := if Enabled(s, SpawnEnds(spawn)) then Next(s, SpawnEnds(spawn)) else s;
    var s2 := if Enabled(s1, FinishRespawn) then Next(s1, FinishRespawn) else s1;
    Flagged(s2)
  }

  function RespawnSection(s: State, id: PaneId, e: Entry, automatic: bool, spawn: SpawnResult, cause: Cause): State {
    Spawned(Respawn(s, id, e, automatic, cause), spawn)
  }

  lemma StopIsEvent(s: State, id: PaneId, signalOk: bool)
    requires s.lock.Free?
    ensures Next(s, Event.Stop(id, signalOk)) == DoStop(s, id, signalOk)
  {
    hide DoStop;
  }

  lemma Settles(s: State, spawn: SpawnResult)
    requires s.lock.Free?
    ensures Spawned(s, spawn) == s && Flagged(s) == s
  {
    hide Next;
  }

  /** The end of a section that has decided. */
  lemma StoresFlag(s: State, spawn: SpawnResult)
    requires s.lock.Flagging? && s.lock.pane in s.panes
    requires s.panes[s.lock.pane].id in s.entries && !s.panes[s.lock.pane].phase.Handling?
    ensures var ref := s.lock.pane;
            var p := s.panes[ref];
            var s' := s.(panes := s.panes[ref := p.(restartPending := s.entries[p.id].sup.RestartPending())], lock := Free);
            Spawned(s, spawn) == s' && Flagged(s) == s'
  {
    hide Apply, Account, Respawn, DoSpawn, DoStop, DoRestart, DoStart, DoSetPolicy, DoForget;
  }

  lemma RespawnRefused(s: State, id: PaneId, e: Entry, automatic: bool, spawn: SpawnResult, cause: Cause)
    requires s.lock.Free? && (!s.HasPane(e) || s.panes[e.pane.value].retired)
    ensures RespawnSection(s, id, e, automatic, spawn, cause) == s.PutEntry(id, e)
  {
    hide Spawned;
    Settles(s.PutEntry(id, e), spawn);
  }

  /** What a respawn that was begun and ended did, all in all. */
  lemma RespawnSteps(s: State, id: PaneId, e: Entry, automatic: bool, spawn: SpawnResult, cause: Cause)
    requires s.lock.Free? && s.HasPane(e) && !s.panes[e.pane.value].retired && s.panes[e.pane.value].id == id
    requires !s.panes[e.pane.value].phase.Handling?
    ensures var s', ref, begun := RespawnSection(s, id, e, automatic, spawn, cause), e.pane.value, e.Do(Begin(s.now, automatic));
            var ok := s.panes[ref].IsExited() && spawn.ok;
            var done := if ok then begun.Do(Started(s.now)) else begun.Do(SpawnFailed(s.now, spawn.unit));
            var p := if ok then NextGeneration(s.panes[ref]) else s.panes[ref];
            s' == s.(entries := s.entries[id := done], panes := s.panes[ref := p.(restartPending := done.sup.RestartPending())])
  {
    hide Apply, Account, DoStoreFlag, DoStop, DoRestart, DoStart, DoSetPolicy, DoForget, Flagged;
    var s1 := Respawn(s, id, e, automatic, cause);
    var s2 := DoSpawn(s1, spawn);
    assert Next(s1, SpawnEnds(spawn)) == s2;
    if s2.lock.Respawning? {
      StoresFlag(Next(s2, FinishRespawn), spawn);
    } else {
      StoresFlag(s2, spawn);
    }
  }

  lemma ScheduledIsPending(e: Entry, now: nat)
    ensures e.Do(ScheduleNow(now)).sup.RestartPending()
  {
    hide DelayMs, Prune;
  }

  /** A pane nobody supervises yet is not inside the hook. */
  lemma FreshNotHandling(s: State, ref: PaneRef, id: PaneId)
    requires Inv(s) && FreshPane(s, ref, id)
    ensures !s.panes[ref].phase.Handling?
  {
    hide EntryOk;
    assert PaneOk(s.panes[ref]);
  }

  lemma PaneIdOf(s: State, id: PaneId)
    requires Inv(s) && id in s.entries
    ensures s.HasPane(s.entries[id]) ==> s.panes[s.entries[id].pane.value].id == id
    ensures s.HasPane(s.entries[id]) && s.lock.Free? ==> !s.panes[s.entries[id].pane.value].phase.Handling?
                                                         && !s.panes[s.entries[id].pane.value].retired
  {
    hide History, Shape;
    assert EntryOk(s, id, s.entries[id]);
  }

  /** The steps a call of `run_due` takes. */
  predicate OfRunDue(ev: Event) {
    ev.RunDue? || ev.SpawnEnds? || ev.FinishRespawn? || ev.StoreFlag?
  }

  /** The protocol steps of one iteration of `run_due`. */
  ghost function DueSteps(id: PaneId, checkedAt: nat, spawn: SpawnResult): seq<Event> {
    if spawn.ok then [Event.RunDue(id, checkedAt), SpawnEnds(spawn), FinishRespawn, StoreFlag]
    else [Event.RunDue(id, checkedAt), SpawnEnds(spawn), StoreFlag]
  }

  ghost function DueSection(s: State, id: PaneId, spawn: SpawnResult): State
    requires id in s.entries
  {
    RespawnSection(s.Mark(id), id, s.entries[id], s.entries[id].sup.state.Backoff?, spawn, DueRestart)
  }

  lemma RunDueSection(s: State, id: PaneId, checkedAt: nat, spawn: SpawnResult)
    requires Inv(s) && s.lock.Free? && checkedAt <= s.now && IsDue(s, id, checkedAt)
    ensures var steps := DueSteps(id, checkedAt, spawn);
            && Run(s, steps)
            && After(s, steps) == DueSection(s, id, spawn)
            && After(s, steps).lock.Free?
            && After(s, steps).entries.Keys == s.entries.Keys
            && Inv(After(s, steps))
  {
    hide Inv, Run, After, Next, Enabled, IsDue, DueSection;
    var a := Event.RunDue(id, checkedAt);
    DueChain(s, id, checkedAt, spawn);
    var s2 := Next(Next(s, a), SpawnEnds(spawn));
    TwoSteps(s, a, SpawnEnds(spawn));
    if spawn.ok {
      TwoSteps(s2, FinishRespawn, StoreFlag);
      RunConcat(s, [a, SpawnEnds(spawn)], [FinishRespawn, StoreFlag]);
      assert [a, SpawnEnds(spawn)] + [FinishRespawn, StoreFlag] == DueSteps(id, checkedAt, spawn);
    } else {
      OneStep(s2, StoreFlag);
      RunConcat(s, [a, SpawnEnds(spawn)], [StoreFlag]);
      assert [a, SpawnEnds(spawn)] + [StoreFlag] == DueSteps(id, checkedAt, spawn);
    }
    InvRun(s, DueSteps(id, checkedAt, spawn));
  }

  /** Each step of the section of a due pane is enabled after the one before. */
  lemma DueChain(s: State, id: PaneId, checkedAt: nat, spawn: SpawnResult)
    requires Inv(s) && s.lock.Free? && checkedAt <= s.now && IsDue(s, id, checkedAt)
    ensures var a := Event.RunDue(id, checkedAt);
            && Enabled(s, a) && Enabled(Next(s, a), SpawnEnds(spawn))
            && var s2 := Next(Next(s, a), SpawnEnds(spawn));
               && (spawn.ok ==> Enabled(s2, FinishRespawn))
               && var s3 := if spawn.ok then Next(s2, FinishRespawn) else s2;
                  && Enabled(s3, StoreFlag) && Next(s3, StoreFlag) == DueSection(s, id, spawn)
                  && DueSection(s, id, spawn).lock.Free? && DueSection(s, id, spawn).entries.Keys == s.entries.Keys
  {
    hide Inv, Apply, Account, DoStop, DoRestart, DoStart, DoSetPolicy, DoForget;
    PaneIdOf(s, id);
  }

  lemma OneStep(s: State, ev: Event)
    requires Enabled(s, ev)
    ensures Run(s, [ev]) && After(s, [ev]) == Next(s, ev)
  {
    hide Enabled, Next;
    assert [ev][1..] == [];
  }

  lemma TwoSteps(s: State, a: Event, b: Event)
    requires Enabled(s, a) && Enabled(Next(s, a), b)
    ensures Run(s, [a, b]) && After(s, [a, b]) == Next(Next(s, a), b)
  {
    hide Enabled, Next;
    OneStep(Next(s, a), b);
    assert [a, b][1..] == [b];
  }

  /** Respawning one pane leaves another due pane exactly as it was. */
  lemma DueElsewhere(s: State, id: PaneId, checkedAt: nat, spawn: SpawnResult, other: PaneId)
    requires Inv(s) && s.lock.Free? && IsDue(s, id, checkedAt) && IsDue(s, other, checkedAt) && id != other
    ensures IsDue(DueSection(s, id, spawn), other, checkedAt)
  {
    hide Inv, Apply, Account, DoStop, DoRestart, DoStart, DoSetPolicy, DoForget;
    PaneIdOf(s, id);
    PaneIdOf(s, other);
  }

  lemma {:induction false} RunConcat(s: State, a: seq<Event>, b: seq<Event>)
    requires Run(s, a) && Run(After(s, a), b)
    ensures Run(s, a + b) && After(s, a + b) == After(After(s, a), b)
    decreases |a|
  {
    hide Enabled, Next;
    if a == [] {
      assert a + b == b;
    } else {
      RunConcat(Next(s, a[0]), a[1..], b);
      assert (a + b)[1..] == a[1..] + b;
    }
  }
}
