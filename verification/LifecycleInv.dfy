/** The invariant of the supervision protocol holds in every reachable state. */
module LifecycleInv {
  import opened Common
  import opened Restart
  import opened RestartRuns
  import opened Lifecycle

  // ------------------------------------------------------------------ one supervisor

  lemma ExitShape(s: Supervisor, now: nat, code: Option<int>, signal: Option<int>, unit: real)
    requires Shape(s) && s.startedAt.Some?
    ensures var s' := Apply(s, Exit(now, code, signal, unit));
            && Shape(s') && s'.startedAt.None? && (s.state.Stopped? ==> s'.state.Stopped?)
            && s'.lastExit == Some(ExitRecord(code, signal, now))
  {
    hide DelayMs, Prune;
  }

  lemma SpawnFailedShape(s: Supervisor, now: nat, unit: real)
    requires MidRespawn(s)
    ensures var s' := Apply(s, SpawnFailed(now, unit));
            Shape(s') && s'.startedAt.None? && s'.lastExit == s.lastExit
  {
    hide DelayMs, Prune;
  }

  // ------------------------------------------------------------------ histories

  lemma HistoryDo(e: Entry, c: Call, now: nat)
    requires History(e, now) && Admissible(e.sup, LastTime(e.calls), c)
    requires c.Timed() ==> c.now <= now
    ensures History(e.Do(c), now)
    ensures LastTime(e.Do(c).calls) == if c.Timed() then c.now else LastTime(e.calls)
  {
    hide Apply;
    ReplaySnoc(e.origin, e.calls, c);
  }

  lemma HistoryNew(sup: Supervisor, pane: Option<PaneRef>, now: nat)
    requires Idle(sup) && !sup.RestartPending()
    ensures History(NewEntry(sup, pane), now)
  {
  }

  // ------------------------------------------------------------------ frames

  /** An entry whose pane, and the lock on it, did not change is still fine later. */
  lemma FrameEntry(s: State, s': State, id: PaneId, e: Entry)
    requires EntryOk(s, id, e) && s.now <= s'.now
    requires e.pane.Some? ==> e.pane.value in s'.panes && s'.panes[e.pane.value] == s.panes[e.pane.value]
    requires s'.lock == s.lock || (e.pane.Some? ==> !LockedOn(s.lock, e.pane.value) && !LockedOn(s'.lock, e.pane.value))
    ensures EntryOk(s', id, e)
  {
    hide Apply, Replay, Legal;
  }

  /** Only entry `id` and pane object `ref` (which carries that id) changed. */
  lemma OneChanged(s: State, s': State, id: PaneId, ref: PaneRef)
    requires Inv(s) && s.now <= s'.now && LockOk(s')
    requires ref in s.panes && s.panes[ref].id == id
    requires s'.panes.Keys == s.panes.Keys && s'.panes[ref].id == id && PaneOk(s'.panes[ref])
    requires forall r :: r in s.panes && r != ref ==> s'.panes[r] == s.panes[r]
    requires s'.entries.Keys == s.entries.Keys + {id} && EntryOk(s', id, s'.entries[id])
    requires forall i :: i in s.entries && i != id ==> s'.entries[i] == s.entries[i]
    requires s'.lock == s.lock || ((s.lock.Free? || s.lock.pane == ref) && (s'.lock.Free? || s'.lock.pane == ref))
    ensures Inv(s')
  {
    hide EntryOk, PaneOk;
    forall i | i in s'.entries ensures EntryOk(s', i, s'.entries[i]) {
      if i != id {
        assert EntryOk(s, i, s.entries[i]);
        var e := s.entries[i];
        assert e.pane.Some? ==> e.pane.value in s.panes && s.panes[e.pane.value].id == i by { PaneOfEntry(s, i, e); }
        FrameEntry(s, s', i, e);
      }
    }
    forall r | r in s'.panes ensures PaneOk(s'.panes[r]) {
      if r != ref {
        assert PaneOk(s.panes[r]);
      }
    }
  }

  lemma PaneOfEntry(s: State, id: PaneId, e: Entry)
    requires EntryOk(s, id, e)
    ensures e.pane.Some? ==> e.pane.value in s.panes && s.panes[e.pane.value].id == id
  {
    hide History, Linked, Shape;
  }

  /** Only entry `id` changed, and it has no pane. */
  lemma PanelessChanged(s: State, s': State, id: PaneId)
    requires Inv(s) && s.lock.Free? && s' == s.(entries := s'.entries, dirty := s'.dirty)
    requires s'.entries.Keys == s.entries.Keys + {id} && EntryOk(s', id, s'.entries[id])
    requires forall i :: i in s.entries && i != id ==> s'.entries[i] == s.entries[i]
    ensures Inv(s')
  {
    hide EntryOk, PaneOk;
    forall i | i in s'.entries ensures EntryOk(s', i, s'.entries[i]) {
      if i != id {
        assert EntryOk(s, i, s.entries[i]);
        PaneOfEntry(s, i, s.entries[i]);
        FrameEntry(s, s', i, s.entries[i]);
      }
    }
  }

  /** No entry points to pane object `ref`, and only that object changed. */
  lemma OrphanChanged(s: State, s': State, ref: PaneRef)
    requires Inv(s) && ref in s.panes
    requires ref in s'.panes && s' == s.(panes := s.panes[ref := s'.panes[ref]])
    requires s'.panes[ref].id == s.panes[ref].id && PaneOk(s'.panes[ref])
    requires s.panes[ref].id in s.entries ==> s.entries[s.panes[ref].id].pane != Some(ref)
    ensures Inv(s')
  {
    hide EntryOk, PaneOk;
    forall i | i in s'.entries ensures EntryOk(s', i, s'.entries[i]) {
      assert EntryOk(s, i, s.entries[i]);
      PaneOfEntry(s, i, s.entries[i]);
      FrameEntry(s, s', i, s.entries[i]);
    }
    forall r | r in s'.panes ensures PaneOk(s'.panes[r]) {
      assert r != ref ==> PaneOk(s.panes[r]);
    }
  }

  // ------------------------------------------------------------------ events without the lock

  lemma TickInv(s: State, to: nat)
    requires Inv(s) && s.now <= to
    ensures Inv(s.(now := to))
  {
    hide EntryOk, PaneOk;
    var s' := s.(now := to);
    forall i | i in s'.entries ensures EntryOk(s', i, s'.entries[i]) {
      assert EntryOk(s, i, s.entries[i]);
      PaneOfEntry(s, i, s.entries[i]);
      FrameEntry(s, s', i, s.entries[i]);
    }
  }

  lemma SpawnInv(s: State, ref: PaneRef, id: PaneId)
    requires Inv(s) && ref !in s.panes
    ensures Inv(Next(s, Spawn(ref, id)))
  {
    hide EntryOk, Account, Respawn, DoSpawn, DoStoreFlag, DoStop, DoRestart, DoStart, DoSetPolicy, DoForget;
    var s' := Next(s, Spawn(ref, id));
    forall i | i in s'.entries ensures EntryOk(s', i, s'.entries[i]) {
      assert EntryOk(s, i, s.entries[i]);
      PaneOfEntry(s, i, s.entries[i]);
      FrameEntry(s, s', i, s.entries[i]);
    }
  }

  /** Reap, hook check and publication move only the phase (and the exit code) of one pane object. */
  lemma ReaderInv(s: State, ev: Event)
    requires Inv(s) && Enabled(s, ev) && (ev.Reap? || ev.CheckHook? || ev.Publish?)
    ensures Inv(Next(s, ev))
  {
    hide EntryOk, History, Shape, MidRespawn, Account, Respawn, DoSpawn, DoStoreFlag, DoStop, DoRestart, DoStart, DoSetPolicy, DoForget;
    var ref := ev.ref;
    var s', id := Next(s, ev), s.panes[ref].id;
    assert PaneOk(s.panes[ref]);
    if id in s.entries && s.entries[id].pane == Some(ref) {
      assert EntryOk(s, id, s.entries[id]);
      ReaderKeepsEntry(s, ev, id);
      OneChanged(s, s', id, ref);
    } else {
      OrphanChanged(s, s', ref);
    }
  }

  lemma ReaderKeepsEntry(s: State, ev: Event, id: PaneId)
    requires Enabled(s, ev) && (ev.Reap? || ev.CheckHook? || ev.Publish?)
    requires id in s.entries && EntryOk(s, id, s.entries[id]) && s.entries[id].pane == Some(ev.ref)
    ensures EntryOk(Next(s, ev), id, s.entries[id])
  {
    hide History, Shape, MidRespawn, Account, Respawn, DoSpawn, DoStoreFlag, DoStop, DoRestart, DoStart, DoSetPolicy, DoForget;
  }

  // ------------------------------------------------------------------ accounting

  /** Accounting the exit of the process an entry supervises, up to the store of the flag. */
  lemma AccountEntry(s: State, ref: PaneRef, unit: real, id: PaneId, cause: Cause, phase: Phase)
    requires id in s.entries && EntryOk(s, id, s.entries[id]) && s.entries[id].pane == Some(ref) && s.now > 0
    requires if cause.HookExit? then s.lock.Free? && s.panes[ref].phase == Checked(true) && phase == Handling
             else cause.MissedExit? && s.lock == Accounting(ref) && phase == s.panes[ref].phase
    ensures var s1 := Account(s, ref, unit, cause);
            var s' := s1.(panes := s1.panes[ref := s1.panes[ref].(phase := phase)]);
            && s' == s.(entries := s.entries[id := s'.entries[id]], panes := s.panes[ref := s'.panes[ref]],
                        lock := Flagging(ref, cause), dirty := s'.dirty)
            && s'.panes[ref].id == id && PaneOk(s'.panes[ref])
            && EntryOk(s', id, s'.entries[id])
  {
    hide Apply, Shape, History, Respawn, DoSpawn, DoStoreFlag, DoStop, DoRestart, DoStart, DoSetPolicy, DoForget;
    var e, p := s.entries[id], s.panes[ref];
    var c := Exit(s.now, p.exitCode, p.lastSignal, unit);
    assert Admissible(e.sup, LastTime(e.calls), c) by { HistoryBound(e, s.now); }
    HistoryDo(e, c, s.now);
    ExitShape(e.sup, s.now, p.exitCode, p.lastSignal, unit);
  }

  lemma HistoryBound(e: Entry, now: nat)
    requires History(e, now)
    ensures LastTime(e.calls) <= now
  {
  }

  lemma HandleExitInv(s: State, ref: PaneRef, unit: real)
    requires Inv(s) && Enabled(s, HandleExit(ref, unit))
    ensures Inv(Next(s, HandleExit(ref, unit)))
  {
    hide EntryOk, Respawn, DoSpawn, DoStoreFlag, DoStop, DoRestart, DoStart, DoSetPolicy, DoForget;
    var s', id := Next(s, HandleExit(ref, unit)), s.panes[ref].id;
    assert PaneOk(s.panes[ref]);
    if id in s.entries && s.entries[id].pane == Some(ref) {
      assert EntryOk(s, id, s.entries[id]);
      AccountEntry(s, ref, unit, id, HookExit, Handling);
      OneChanged(s, s', id, ref);
    } else {
      OrphanChanged(s, s', ref);
    }
  }

  lemma AccountMissedInv(s: State, unit: real)
    requires Inv(s) && Enabled(s, AccountMissed(unit))
    ensures Inv(Next(s, AccountMissed(unit)))
  {
    hide EntryOk, Respawn, DoSpawn, DoStoreFlag, DoStop, DoRestart, DoStart, DoSetPolicy, DoForget;
    var ref := s.lock.pane;
    var s', id := Next(s, AccountMissed(unit)), s.panes[ref].id;
    assert PaneOk(s.panes[ref]) && EntryOk(s, id, s.entries[id]);
    AccountEntry(s, ref, unit, id, MissedExit, s.panes[ref].phase);
    assert s'.panes[ref := s'.panes[ref]] == s'.panes;
    OneChanged(s, s', id, ref);
  }

  lemma StoreFlagInv(s: State)
    requires Inv(s) && Enabled(s, StoreFlag)
    ensures Inv(Next(s, StoreFlag))
  {
    hide EntryOk, Account, Respawn, DoSpawn, DoStop, DoRestart, DoStart, DoSetPolicy, DoForget;
    var ref := s.lock.pane;
    var s', id := Next(s, StoreFlag), s.panes[ref].id;
    assert PaneOk(s.panes[ref]) && EntryOk(s, id, s.entries[id]);
    StoreFlagEntry(s, id);
    OneChanged(s, s', id, ref);
  }

  lemma StoreFlagEntry(s: State, id: PaneId)
    requires Enabled(s, StoreFlag) && id in s.entries && EntryOk(s, id, s.entries[id]) && s.entries[id].pane == Some(s.lock.pane)
    requires PaneOk(s.panes[s.lock.pane])
    ensures var s' := DoStoreFlag(s); EntryOk(s', id, s.entries[id]) && PaneOk(s'.panes[s.lock.pane])
  {
    hide History, Shape;
  }

  // ------------------------------------------------------------------ registration

  lemma RegisterLiveInv(s: State, id: PaneId, ref: PaneRef, policy: RestartPolicy, at: nat)
    requires Inv(s) && Enabled(s, RegisterLive(id, ref, policy, at))
    ensures Inv(Next(s, RegisterLive(id, ref, policy, at)))
  {
    hide EntryOk, History, Legal, Replay, Respawn, DoSpawn, DoStoreFlag, Account, DoStop, DoRestart, DoStart, DoSetPolicy, DoForget;
    var s' := Next(s, RegisterLive(id, ref, policy, at));
    var e0 := NewEntry(NewSupervisor(policy), Some(ref));
    assert PaneOk(s.panes[ref]);
    HistoryNew(NewSupervisor(policy), Some(ref), s.now);
    HistoryDo(e0, Started(at), s.now);
    FreshlyStarted(s', id, e0.Do(Started(at)), ref);
    OneChanged(s, s', id, ref);
  }

  /** A fresh pane object under an entry that was just told its process started. */
  lemma FreshlyStarted(s: State, id: PaneId, e: Entry, ref: PaneRef)
    requires History(e, s.now) && e.pane == Some(ref) && s.lock == Installing(ref)
    requires FreshPane(s, ref, id) && PaneOk(s.panes[ref])
    requires e.sup.state.Live? && e.sup.startedAt.Some? && e.sup.nextRestartAt.None? && !e.sup.stopRequested && !e.sup.restartRequested
    ensures EntryOk(s, id, e)
  {
    hide History;
  }

  lemma AdoptStartedInv(s: State, id: PaneId, ref: PaneRef, policy: RestartPolicy, at: nat)
    requires Inv(s) && Enabled(s, AdoptStarted(id, ref, policy, at))
    ensures Inv(Next(s, AdoptStarted(id, ref, policy, at)))
  {
    hide EntryOk, History, Legal, Replay, Apply, Respawn, DoSpawn, DoStoreFlag, Account, DoStop, DoRestart, DoStart, DoSetPolicy, DoForget;
    var s' := Next(s, AdoptStarted(id, ref, policy, at));
    var e := if id in s.entries then s.entries[id] else NewEntry(NewSupervisor(policy), None);
    assert PaneOk(s.panes[ref]);
    assert History(e, s.now) && LastTime(e.calls) == 0 by {
      if id in s.entries {
        assert EntryOk(s, id, e);
        HistoryOfEntry(s, id, e);
      } else {
        HistoryNew(NewSupervisor(policy), None, s.now);
      }
    }
    var e' := e.Do(StartReset).Do(Started(at)).(pane := Some(ref));
    Adopted(e, e', s.now, at);
    FreshlyStarted(s', id, e', ref);
    OneChanged(s, s', id, ref);
  }

  lemma Adopted(e: Entry, e': Entry, now: nat, at: nat)
    requires History(e, now) && LastTime(e.calls) <= at <= now && at > 0
    requires e' == e.Do(StartReset).Do(Started(at)).(pane := e'.pane)
    ensures History(e', now)
    ensures e'.sup.state.Live? && e'.sup.startedAt.Some? && e'.sup.nextRestartAt.None?
            && !e'.sup.stopRequested && !e'.sup.restartRequested
  {
    hide History, Replay, Legal, DelayMs, Prune;
    HistoryDo(e, StartReset, now);
    HistoryDo(e.Do(StartReset), Started(at), now);
    HistoryAnyPane(e.Do(StartReset).Do(Started(at)), e', now);
  }

  lemma HistoryOfEntry(s: State, id: PaneId, e: Entry)
    requires EntryOk(s, id, e)
    ensures History(e, s.now) && (e.pane.None? ==> LastTime(e.calls) == 0)
  {
    hide History, Linked, Shape;
  }

  lemma HistoryAnyPane(e: Entry, e': Entry, now: nat)
    requires History(e, now) && e' == e.(pane := e'.pane)
    ensures History(e', now)
  {
    hide Legal, Replay;
  }

  lemma RegisterRestoredInv(s: State, id: PaneId, persisted: Option<PersistedRestartState>, policy: RestartPolicy)
    requires Inv(s) && Enabled(s, RegisterRestored(id, persisted, policy))
    ensures Inv(Next(s, RegisterRestored(id, persisted, policy)))
  {
    hide History, Linked, Legal, Replay, Respawn, DoSpawn, DoStoreFlag, Account, DoStop, DoRestart, DoStart, DoSetPolicy, DoForget;
    var sup := if persisted.Some? then Restore(persisted.value) else NewSupervisor(policy);
    HistoryNew(sup, None, s.now);
    assert LastTime(NewEntry(sup, None).calls) == 0;
    PanelessChanged(s, Next(s, RegisterRestored(id, persisted, policy)), id);
  }

  lemma InstallHookInv(s: State)
    requires Inv(s) && Enabled(s, InstallHook)
    ensures Inv(Next(s, InstallHook))
  {
    hide EntryOk, Respawn, DoSpawn, DoStoreFlag, Account, DoStop, DoRestart, DoStart, DoSetPolicy, DoForget;
    var ref := s.lock.pane;
    var s', id := Next(s, InstallHook), s.panes[ref].id;
    assert PaneOk(s.panes[ref]) && EntryOk(s, id, s.entries[id]);
    InstallHookEntry(s, id);
    OneChanged(s, s', id, ref);
  }

  lemma InstallHookEntry(s: State, id: PaneId)
    requires Enabled(s, InstallHook) && id in s.entries && EntryOk(s, id, s.entries[id]) && s.entries[id].pane == Some(s.lock.pane)
    ensures EntryOk(Next(s, InstallHook), id, s.entries[id])
  {
    hide History, Shape, Respawn, DoSpawn, DoStoreFlag, Account, DoStop, DoRestart, DoStart, DoSetPolicy, DoForget;
  }

  lemma ForgetInv(s: State, id: PaneId)
    requires Inv(s) && s.lock.Free?
    ensures Inv(DoForget(s, id))
  {
    hide EntryOk;
    var s' := DoForget(s, id);
    forall i | i in s'.entries ensures EntryOk(s', i, s'.entries[i]) {
      assert EntryOk(s, i, s.entries[i]);
      PaneOfEntry(s, i, s.entries[i]);
      if id in s.entries {
        assert EntryOk(s, id, s.entries[id]);
        PaneOfEntry(s, id, s.entries[id]);
      }
      FrameEntry(s, s', i, s.entries[i]);
    }
    forall r | r in s'.panes ensures PaneOk(s'.panes[r]) {
      assert PaneOk(s.panes[r]);
    }
  }

  // ------------------------------------------------------------------ respawn

  /** What the callers of `do_respawn` hand over: a supervisor without a process. */
  predicate ReadyToRespawn(s: State, id: PaneId, e: Entry, automatic: bool, cause: Cause) {
    && s.lock.Free? && id in s.entries && s.entries[id].pane == e.pane && e.sup.lastExit == s.entries[id].sup.lastExit
    && History(e, s.now)
    && e.sup.startedAt.None? && !e.sup.stopRequested && !e.sup.restartRequested
    && (automatic ==> e.sup.state.Backoff? && e.sup.Due(s.now))
    && (e.pane.None? ==> Shape(e.sup) && !e.sup.RestartPending() && LastTime(e.calls) == 0)
    && (e.pane.Some? ==>
          && e.pane.value in s.panes && s.panes[e.pane.value].IsExited()
          && (cause.DueRestart? || cause.Operator?)
          && s.panes[e.pane.value].restartPending == (if cause.Operator? then cause.wasPending else true))
  }

  lemma RespawnInv(s: State, id: PaneId, e: Entry, automatic: bool, cause: Cause)
    requires Inv(s) && ReadyToRespawn(s, id, e, automatic, cause)
    ensures Inv(Respawn(s, id, e, automatic, cause))
  {
    hide EntryOk, History, Legal, Replay, Account, DoSpawn, DoStoreFlag, DoStop, DoRestart, DoStart, DoSetPolicy, DoForget;
    var s' := Respawn(s, id, e, automatic, cause);
    assert EntryOk(s, id, s.entries[id]);
    if e.pane.None? {
      PanelessEntry(s', id, e);
      PanelessChanged(s, s', id);
    } else {
      var ref := e.pane.value;
      PaneOfEntry(s, id, s.entries[id]);
      assert PaneOk(s.panes[ref]);
      RespawnEntry(s, id, e, automatic, cause);
      OneChanged(s, s', id, ref);
    }
  }

  lemma PanelessEntry(s: State, id: PaneId, e: Entry)
    requires History(e, s.now) && e.pane.None? && Shape(e.sup) && e.sup.startedAt.None? && !e.sup.RestartPending()
    requires LastTime(e.calls) == 0
    ensures EntryOk(s, id, e)
  {
  }

  lemma RespawnEntry(s: State, id: PaneId, e: Entry, automatic: bool, cause: Cause)
    requires s.now > 0 && ReadyToRespawn(s, id, e, automatic, cause) && e.pane.Some?
    requires EntryOk(s, id, s.entries[id])
    ensures var s' := Respawn(s, id, e, automatic, cause);
            id in s'.entries && EntryOk(s', id, s'.entries[id])
  {
    hide History, Legal, Replay, DelayMs, Prune;
    HistoryBound(e, s.now);
    HistoryDo(e, Begin(s.now, automatic), s.now);
    assert MidRespawn(e.Do(Begin(s.now, automatic)).sup);
  }

  lemma SpawnEndsInv(s: State, spawn: SpawnResult)
    requires Inv(s) && Enabled(s, SpawnEnds(spawn))
    ensures Inv(Next(s, SpawnEnds(spawn)))
  {
    hide EntryOk, History, Legal, Replay, Respawn, Account, DoStoreFlag, DoStop, DoRestart, DoStart, DoSetPolicy, DoForget;
    var ref := s.lock.pane;
    var s', id := Next(s, SpawnEnds(spawn)), s.panes[ref].id;
    assert PaneOk(s.panes[ref]) && EntryOk(s, id, s.entries[id]);
    SpawnEndsEntry(s, id, spawn);
    OneChanged(s, s', id, ref);
  }

  lemma SpawnEndsEntry(s: State, id: PaneId, spawn: SpawnResult)
    requires Enabled(s, SpawnEnds(spawn)) && id in s.entries && EntryOk(s, id, s.entries[id])
    requires s.entries[id].pane == Some(s.lock.pane) && PaneOk(s.panes[s.lock.pane])
    ensures var s' := DoSpawn(s, spawn);
            && id in s'.entries && EntryOk(s', id, s'.entries[id])
            && s.lock.pane in s'.panes && PaneOk(s'.panes[s.lock.pane])
  {
    hide History, Legal, Replay, Apply, Shape;
    var e := s.entries[id];
    if !spawn.ok {
      HistoryBound(e, s.now);
      HistoryDo(e, SpawnFailed(s.lock.at, spawn.unit), s.now);
      SpawnFailedShape(e.sup, s.lock.at, spawn.unit);
    }
  }

  lemma FinishRespawnInv(s: State)
    requires Inv(s) && Enabled(s, FinishRespawn)
    ensures Inv(Next(s, FinishRespawn))
  {
    hide EntryOk, History, Legal, Replay, Respawn, DoSpawn, DoStoreFlag, Account, DoStop, DoRestart, DoStart, DoSetPolicy, DoForget;
    var ref := s.lock.pane;
    var s', id := Next(s, FinishRespawn), s.panes[ref].id;
    assert PaneOk(s.panes[ref]) && EntryOk(s, id, s.entries[id]);
    FinishRespawnEntry(s, id);
    OneChanged(s, s', id, ref);
  }

  lemma FinishRespawnEntry(s: State, id: PaneId)
    requires Enabled(s, FinishRespawn) && id in s.entries && EntryOk(s, id, s.entries[id]) && s.entries[id].pane == Some(s.lock.pane)
    ensures var s' := Next(s, FinishRespawn);
            id in s'.entries && EntryOk(s', id, s'.entries[id])
  {
    hide History, Legal, Replay, Respawn, DoSpawn, DoStoreFlag, Account, DoStop, DoRestart, DoStart, DoSetPolicy, DoForget;
    HistoryBound(s.entries[id], s.now);
    HistoryDo(s.entries[id], Started(s.lock.at), s.now);
  }

  // ------------------------------------------------------------------ operator events

  /**
   An untimed call on entry `id` that starts no process, with the pane's pending flag set to
   `pending` and at most its remembered signal changed besides.
   */
  predicate Adjusted(s: State, s': State, id: PaneId, c: Call) {
    && id in s.entries && s.lock.Free? && !c.Timed()
    && s'.entries == s.entries[id := s.entries[id].Do(c)]
    && s'.lock == s.lock && s'.now == s.now
    && (if s.HasPane(s.entries[id]) then
          var ref := s.entries[id].pane.value;
          && ref in s'.panes
          && s'.panes == s.panes[ref := s'.panes[ref]]
          && (s'.panes[ref] == s.panes[ref].(restartPending := s'.panes[ref].restartPending,
                                             lastSignal := s'.panes[ref].lastSignal))
        else s'.panes == s.panes)
  }

  lemma AdjustedInv(s: State, s': State, id: PaneId, c: Call)
    requires Inv(s) && Adjusted(s, s', id, c)
    requires var sup, sup' := s.entries[id].sup, Apply(s.entries[id].sup, c);
             && (Shape(sup) ==> Shape(sup'))
             && sup'.startedAt == sup.startedAt && sup'.lastExit == sup.lastExit
             && (s.HasPane(s.entries[id]) && sup.startedAt.None? ==>
                   s'.panes[s.entries[id].pane.value].lastSignal == s.panes[s.entries[id].pane.value].lastSignal)
             && (s.HasPane(s.entries[id]) && sup.startedAt.None? ==>
                   s'.panes[s.entries[id].pane.value].restartPending == sup'.RestartPending())
             && (s.entries[id].pane.None? && !sup.RestartPending() ==> !sup'.RestartPending())
    ensures Inv(s')
  {
    hide EntryOk, History, Legal, Replay, Apply, Linked, Shape;
    assert EntryOk(s, id, s.entries[id]);
    PaneOfEntry(s, id, s.entries[id]);
    AdjustedEntry(s, s', id, c);
    if s.HasPane(s.entries[id]) {
      var ref := s.entries[id].pane.value;
      assert PaneOk(s.panes[ref]);
      HookedWhenFree(s, id, s.entries[id]);
      OneChanged(s, s', id, ref);
    } else {
      PanelessChanged(s, s', id);
    }
  }

  lemma HookedWhenFree(s: State, id: PaneId, e: Entry)
    requires EntryOk(s, id, e) && s.lock.Free? && e.pane.Some?
    ensures e.pane.value in s.panes && s.panes[e.pane.value].hookInstalled
  {
    hide History, Shape;
  }

  lemma AdjustedEntry(s: State, s': State, id: PaneId, c: Call)
    requires s.now > 0 && Adjusted(s, s', id, c) && EntryOk(s, id, s.entries[id])
    requires var sup, sup' := s.entries[id].sup, Apply(s.entries[id].sup, c);
             && (Shape(sup) ==> Shape(sup'))
             && sup'.startedAt == sup.startedAt && sup'.lastExit == sup.lastExit
             && (s.HasPane(s.entries[id]) && sup.startedAt.None? ==>
                   s'.panes[s.entries[id].pane.value].lastSignal == s.panes[s.entries[id].pane.value].lastSignal)
             && (s.HasPane(s.entries[id]) && sup.startedAt.None? ==>
                   s'.panes[s.entries[id].pane.value].restartPending == sup'.RestartPending())
             && (s.entries[id].pane.None? && !sup.RestartPending() ==> !sup'.RestartPending())
    ensures id in s'.entries && EntryOk(s', id, s'.entries[id])
  {
    hide History, Legal, Replay, Apply, Shape;
    HistoryDo(s.entries[id], c, s.now);
  }

  lemma SetPolicyInv(s: State, id: PaneId, policy: RestartPolicy)
    requires Inv(s) && s.lock.Free?
    ensures Inv(DoSetPolicy(s, id, policy))
  {
    if policy.Valid() && id in s.entries {
      assert EntryOk(s, id, s.entries[id]);
      if s.HasPane(s.entries[id]) {
        PolicyInv(s, id, policy);
      } else {
        hide Inv, DelayMs, Prune, History, Replay, Legal, Linked;
        AdjustedInv(s, DoSetPolicy(s, id, policy), id, PolicyCall(policy));
      }
    }
  }

  /** A new policy can only cancel a pending restart, so until the flag is stored it is never too low. */
  lemma PolicyInv(s: State, id: PaneId, policy: RestartPolicy)
    requires Inv(s) && s.lock.Free? && policy.Valid() && id in s.entries && s.HasPane(s.entries[id])
    ensures Inv(DoSetPolicy(s, id, policy))
  {
    hide EntryOk, History, Replay, Legal, Apply, Linked, Shape;
    var s', ref := DoSetPolicy(s, id, policy), s.entries[id].pane.value;
    assert PaneOk(s.panes[ref]) && EntryOk(s, id, s.entries[id]);
    PaneOfEntry(s, id, s.entries[id]);
    PolicyEntry(s, id, policy);
    OneChanged(s, s', id, ref);
  }

  lemma PolicyEntry(s: State, id: PaneId, policy: RestartPolicy)
    requires s.lock.Free? && policy.Valid() && id in s.entries && s.HasPane(s.entries[id]) && EntryOk(s, id, s.entries[id])
    ensures var s' := DoSetPolicy(s, id, policy); id in s'.entries && EntryOk(s', id, s'.entries[id])
  {
    hide History, Replay, Legal, DelayMs, Prune;
    HistoryDo(s.entries[id], PolicyCall(policy), s.now);
  }

  lemma ResetBudgetInv(s: State, id: PaneId)
    requires Inv(s) && s.lock.Free? && id in s.entries
    ensures Inv(s.PutEntry(id, s.entries[id].Do(BudgetReset)).Mark(id))
  {
    hide DelayMs, Prune, History, Replay, Legal;
    var s' := s.PutEntry(id, s.entries[id].Do(BudgetReset)).Mark(id);
    assert EntryOk(s, id, s.entries[id]);
    if s.HasPane(s.entries[id]) {
      var ref := s.entries[id].pane.value;
      assert s'.panes == s.panes[ref := s.panes[ref]];
    }
    AdjustedInv(s, s', id, BudgetReset);
  }

  lemma StopInv(s: State, id: PaneId, signalOk: bool)
    requires Inv(s) && s.lock.Free?
    ensures Inv(DoStop(s, id, signalOk))
  {
    if id in s.entries {
      assert EntryOk(s, id, s.entries[id]);
      if StopFails(s, id, signalOk) {
        StopFailedInv(s, id, signalOk);
      } else {
        hide Inv, DelayMs, Prune, History, Replay, Legal;
        AdjustedInv(s, DoStop(s, id, signalOk), id, StopCall);
      }
    }
  }

  /** A stop that could not signal the process leaves everything but two pane flags as it was. */
  lemma StopFailedInv(s: State, id: PaneId, signalOk: bool)
    requires Inv(s) && s.lock.Free? && id in s.entries && StopFails(s, id, signalOk)
    ensures Inv(DoStop(s, id, signalOk))
  {
    hide History, Replay, Legal, Apply, Shape;
    var e := s.entries[id];
    var s', ref := DoStop(s, id, signalOk), e.pane.value;
    assert PaneOk(s.panes[ref]) && EntryOk(s, id, e);
    assert EntryOk(s', id, e);
    OneChanged(s, s', id, ref);
  }

  /** A supervised process that is running, seen from its supervisor. */
  lemma StartedIsRunning(s: State, id: PaneId)
    requires Inv(s) && s.lock.Free? && id in s.entries
    ensures var e := s.entries[id];
            && (e.pane.Some? <==> s.HasPane(e))
            && (e.sup.startedAt.Some? ==> s.RunningPane(e))
            && Shape(e.sup)
            && (s.HasPane(e) && e.sup.startedAt.None? ==>
                  s.panes[e.pane.value].restartPending == e.sup.RestartPending())
            && (e.pane.None? ==> !e.sup.RestartPending() && LastTime(e.calls) == 0)
  {
    hide History;
    assert EntryOk(s, id, s.entries[id]);
  }

  lemma RestartInv(s: State, id: PaneId, reset: bool, signalOk: bool)
    requires Inv(s) && s.lock.Free?
    ensures Inv(DoRestart(s, id, reset, signalOk))
  {
    if id in s.entries {
      StartedIsRunning(s, id);
      if s.entries[id].sup.startedAt.Some? {
        RestartRunningInv(s, id, reset, signalOk);
      } else {
        RestartDeadInv(s, id, reset, signalOk);
      }
    }
  }

  lemma RestartRunningInv(s: State, id: PaneId, reset: bool, signalOk: bool)
    requires Inv(s) && s.lock.Free? && id in s.entries && s.entries[id].sup.startedAt.Some?
    ensures Inv(DoRestart(s, id, reset, signalOk))
  {
    StartedIsRunning(s, id);
    var e := s.entries[id];
    var s', ref := DoRestart(s, id, reset, signalOk), e.pane.value;
    if s.panes[ref].phase.Running? && !signalOk {
      SignalOnlyInv(s, s', id, ref);
    } else {
      hide Inv, DelayMs, Prune, History, Replay, Legal;
      AdjustedInv(s, s', id, RestartCall(reset));
    }
  }

  lemma SignalOnlyInv(s: State, s': State, id: PaneId, ref: PaneRef)
    requires Inv(s) && s.lock.Free? && id in s.entries && s.entries[id].pane == Some(ref) && ref in s.panes
    requires s' == s.(panes := s.panes[ref := s.panes[ref].Signaled()], dirty := s'.dirty)
    ensures Inv(s')
  {
    hide History, Replay, Legal, Apply, Shape;
    assert PaneOk(s.panes[ref]) && EntryOk(s, id, s.entries[id]);
    assert EntryOk(s', id, s.entries[id]);
    OneChanged(s, s', id, ref);
  }

  lemma RestartDeadInv(s: State, id: PaneId, reset: bool, signalOk: bool)
    requires Inv(s) && s.lock.Free? && id in s.entries && s.entries[id].sup.startedAt.None?
    ensures Inv(DoRestart(s, id, reset, signalOk))
  {
    hide EntryOk, History, Replay, Legal, DelayMs, Prune, Linked;
    StartedIsRunning(s, id);
    var e := s.entries[id];
    assert EntryOk(s, id, e);
    HistoryOfEntry(s, id, e);
    HistoryDo(e, RestartCall(reset), s.now);
    var asked := e.Do(RestartCall(reset));
    var cause := Operator(e.sup.RestartPending());
    if s.RunningPane(e) {
      HistoryBound(asked, s.now);
      HistoryDo(asked, ScheduleNow(s.now), s.now);
      ScheduledInv(s, DoRestart(s, id, reset, signalOk), id, asked.Do(ScheduleNow(s.now)));
    } else {
      MarkInv(s, id);
      RespawnInv(s.Mark(id), id, asked, false, cause);
    }
  }

  lemma MarkInv(s: State, id: PaneId)
    requires Inv(s)
    ensures Inv(s.Mark(id))
  {
    hide EntryOk, PaneOk;
    forall i | i in s.entries ensures EntryOk(s.Mark(id), i, s.entries[i]) {
      assert EntryOk(s, i, s.entries[i]);
      PaneOfEntry(s, i, s.entries[i]);
      FrameEntry(s, s.Mark(id), i, s.entries[i]);
    }
  }

  /** A manual restart scheduled while the exited process is accounted but not yet published. */
  lemma ScheduledInv(s: State, s': State, id: PaneId, e': Entry)
    requires Inv(s) && s.lock.Free? && id in s.entries && s.RunningPane(s.entries[id]) && s.entries[id].sup.startedAt.None?
    requires s' == s.Mark(id).PutUnflagged(id, e', Operator(s.entries[id].sup.RestartPending()))
    requires e'.pane == s.entries[id].pane && History(e', s.now) && e'.sup.lastExit == s.entries[id].sup.lastExit
    requires e'.sup.state.Restarting? && Shape(e'.sup) && e'.sup.startedAt.None?
    ensures Inv(s')
  {
    hide History, Shape;
    var ref := e'.pane.value;
    assert PaneOk(s.panes[ref]) && EntryOk(s, id, s.entries[id]);
    assert EntryOk(s', id, e');
    OneChanged(s, s', id, ref);
  }

  lemma StartInv(s: State, id: PaneId)
    requires Inv(s) && s.lock.Free?
    ensures Inv(DoStart(s, id))
  {
    if id in s.entries && !s.RunningPane(s.entries[id]) {
      hide EntryOk, History, Replay, Legal, DelayMs, Prune, Linked;
      StartedIsRunning(s, id);
      var e := s.entries[id];
      assert EntryOk(s, id, e);
      HistoryOfEntry(s, id, e);
      HistoryDo(e, StartReset, s.now);
      MarkInv(s, id);
      RespawnInv(s.Mark(id), id, e.Do(StartReset), false, Operator(e.sup.RestartPending()));
    }
  }

  lemma RunDueInv(s: State, id: PaneId, checkedAt: nat)
    requires Inv(s) && Enabled(s, RunDue(id, checkedAt))
    ensures Inv(Next(s, RunDue(id, checkedAt)))
  {
    hide EntryOk, History, Replay, Legal, Apply, Linked, Respawn, DoSpawn, DoStoreFlag, Account, DoStop, DoRestart, DoStart, DoSetPolicy, DoForget;
    StartedIsRunning(s, id);
    var e := s.entries[id];
    assert EntryOk(s, id, e);
    HistoryOfEntry(s, id, e);
    MarkInv(s, id);
    RespawnInv(s.Mark(id), id, e, e.sup.state.Backoff?, DueRestart);
  }

  // ------------------------------------------------------------------ all events, all runs

  lemma InvInit(s: State)
    requires Init(s)
    ensures Inv(s)
  {
  }

  lemma InvStep(s: State, ev: Event)
    requires Inv(s) && Enabled(s, ev)
    ensures Inv(Next(s, ev))
  {
    hide Inv, Respawn, DoSpawn, DoStoreFlag, Account, DoStop, DoRestart, DoStart, DoSetPolicy, DoForget;
    match ev
    case Tick(to) => TickInv(s, to);
    case Spawn(ref, id) => SpawnInv(s, ref, id);
    case Reap(ref, code) => ReaderInv(s, ev);
    case CheckHook(ref) => ReaderInv(s, ev);
    case HandleExit(ref, unit) => HandleExitInv(s, ref, unit);
    case Publish(ref) => ReaderInv(s, ev);
    case RegisterLive(id, ref, policy, at) => RegisterLiveInv(s, id, ref, policy, at);
    case RegisterRestored(id, persisted, policy) => RegisterRestoredInv(s, id, persisted, policy);
    case AdoptStarted(id, ref, policy, at) => AdoptStartedInv(s, id, ref, policy, at);
    case InstallHook => InstallHookInv(s);
    case AccountMissed(unit) => AccountMissedInv(s, unit);
    case Forget(id) => ForgetInv(s, id);
    case RunDue(id, checkedAt) => RunDueInv(s, id, checkedAt);
    case SpawnEnds(spawn) => SpawnEndsInv(s, spawn);
    case FinishRespawn => FinishRespawnInv(s);
    case StoreFlag => StoreFlagInv(s);
    case SetPolicy(id, policy) => SetPolicyInv(s, id, policy);
    case Stop(id, signalOk) => StopInv(s, id, signalOk);
    case Restart(id, reset, signalOk) => RestartInv(s, id, reset, signalOk);
    case Start(id) => StartInv(s, id);
    case ResetBudget(id) => if id in s.entries { ResetBudgetInv(s, id); }
  }

  /** Whatever the interleaving, the invariant holds after every run that starts from nothing. */
  lemma {:induction false} InvRun(s: State, evs: seq<Event>)
    requires Inv(s) && Run(s, evs)
    ensures Inv(After(s, evs))
    decreases |evs|
  {
    hide Inv, Next, Enabled;
    if evs != [] {
      InvStep(s, evs[0]);
      InvRun(Next(s, evs[0]), evs[1..]);
    }
  }
}
