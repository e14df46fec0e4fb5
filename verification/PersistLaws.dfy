/**
 What is on disk, told from the calls, and what a pane's supervisor remembers across a restart.
 crates/tymux-core/src/persistence.rs, lines 70-184, and crates/tymux-core/src/engine.rs, lines 354-438,
 588-628 and 1043-1055.
 */
module PersistLaws {
  import opened Common
  import opened Restart
  import opened Layout
  import opened Persistence
  import opened Engine
  import opened EngineInv
  import opened EngineLoad
  import opened EngineRestart
  import opened DaemonRestart
  import P = PersistOrder

  // ------------------------------------------------------------------ which records pass validation

  /** `n` is `node` or lies somewhere below it. */
  ghost predicate Occurs(n: PersistedNode, node: PersistedNode)
    decreases node
  {
    n == node || (node.SavedSplit? && exists i :: 0 <= i < |node.children| && Occurs(n, node.children[i].node))
  }

  /** Two children whose ratios add up to one, give or take a hundredth. */
  predicate SoundSplit(n: PersistedNode) {
    n.SavedSplit? ==> |n.children| == 2 && 0.99 <= n.children[0].ratio + n.children[1].ratio <= 1.01
  }

  /** A record passes iff every split in it, at any depth, is sound. */
  lemma {:induction false} ValidIffSound(node: PersistedNode)
    ensures ValidStructure(node) <==> forall n :: Occurs(n, node) ==> SoundSplit(n)
    decreases node
  {
    assert Occurs(node, node);
    if node.SavedSplit? && |node.children| == 2 {
      var a, b := node.children[0].node, node.children[1].node;
      ValidIffSound(a);
      ValidIffSound(b);
      forall n ensures Occurs(n, node) <==> n == node || Occurs(n, a) || Occurs(n, b) {
        OccursInTwo(n, node);
      }
    } else if node.SavedLeaf? {
      assert forall n :: Occurs(n, node) ==> n == node;
    }
  }

  lemma OccursInTwo(n: PersistedNode, node: PersistedNode)
    requires node.SavedSplit? && |node.children| == 2
    ensures Occurs(n, node) <==> n == node || Occurs(n, node.children[0].node) || Occurs(n, node.children[1].node)
  {
  }

  // ------------------------------------------------------------------ supervisors across a restart

  /** No process, nothing scheduled, nothing asked for. */
  predicate AtRest(sup: Supervisor) {
    sup.startedAt.None? && sup.nextRestartAt.None? && !sup.stopRequested && !sup.restartRequested
  }

  lemma {:induction false} LoadedAtRest(e: EngineState, sid: SessionId, policy: RestartPolicy, ws: seq<WindowRecord>)
    requires forall i :: 0 <= i < |ws| ==> ValidStructure(ws[i].layout)
    ensures var e1 := LoadWindows(e, sid, policy, ws).0;
            forall p :: p in e1.supervisors ==> p in e.supervisors || AtRest(e1.supervisors[p])
  {
    hide ValidStructure, ToLive, Leaves, AtRest;
    if ws != [] {
      var n := |ws| - 1;
      LoadedAtRest(e, sid, policy, ws[..n]);
      var e1 := LoadWindows(e, sid, policy, ws[..n]).0;
      RestoredAtRest(e1, sid, policy, ws[n]);
    }
  }

  lemma RestoredAtRest(e: EngineState, sid: SessionId, policy: RestartPolicy, w: WindowRecord)
    requires ValidStructure(w.layout)
    ensures var e1 := LoadWindow(e, sid, policy, w).0;
            forall p :: p in e1.supervisors ==>
              AtRest(e1.supervisors[p]) || (p in e.supervisors && e1.supervisors[p] == e.supervisors[p])
  {
    hide ValidStructure, ToLive, Leaves;
  }

  /**
   A pane's supervisor, saved and loaded: policy, restart count, restart log, consecutive failures and
   last exit are the same; Stopped and Failed stay, every other state becomes Exited; and it is at rest.
   */
  lemma SupervisorSurvives(e: EngineState, sid: SessionId, e0: EngineState, i: nat, p: PaneId)
    requires Inv(e) && Inv(e0) && sid in e.sessions && Unknown(e0, e, sid)
    requires i < |e.sessions[sid].windows| && p in Leaves(e.sessions[sid].windows[i].layout) && p in e.supervisors
    ensures ValidRecord(Snapshot(e, sid))
    ensures var e', was := LoadSession(e0, Snapshot(e, sid)), e.supervisors[p];
            && p in e'.supervisors && AtRest(e'.supervisors[p])
            && var sup := e'.supervisors[p];
               && sup.policy == was.policy && sup.restartCount == was.restartCount && sup.restartLog == was.restartLog
               && sup.consecutiveFailures == was.consecutiveFailures && sup.lastExit == was.lastExit
               && sup.state == (if was.state.Stopped? then LifecycleState.Stopped
                                else if was.state.Failed? then LifecycleState.Failed
                                else LifecycleState.Exited)
  {
    hide Inv, Leaves, WindowLeaves, WindowRecords, FromLive, PersistedFor, ValidStructure, LoadableRecord, LoadWindows, NewWindows, LeafRecord, HasWindow, Records, WindowOk, RatiosIn, AtRest;
    var s, r := e.sessions[sid], Snapshot(e, sid);
    SnapshotLoads(e, sid, e0);
    InvKeys(e0);
    InvKeys(e);
    LoadableNew(e0, r);
    SnapshotNamed(e, sid);
    LoadDetails(e0, sid, RecordPolicy(r), r.windows);
    LoadedAtRest(e0, sid, RecordPolicy(r), r.windows);
    var restart := PersistedFor(e.supervisors, WindowLeaves(s.windows));
    LeafSaved(s.windows[i].layout, e.panes, restart, p);
    WindowRecordsHold(r.windows, i);
    var record := LeafRecord(p, e.panes, restart);
    assert record in WindowRecords(r.windows);
    RestartSaved(e, s, i, p);
    NotKnownBefore(e, sid, e0, i, p);
  }

  lemma NotKnownBefore(e: EngineState, sid: SessionId, e0: EngineState, i: nat, p: PaneId)
    requires Inv(e0) && sid in e.sessions && Unknown(e0, e, sid)
    requires i < |e.sessions[sid].windows| && p in Leaves(e.sessions[sid].windows[i].layout)
    ensures p !in e0.supervisors
  {
    hide Inv, Leaves, WindowLeaves, HasWindow;
    InvKeys(e0);
    LeavesOfWindows(e.sessions[sid].windows);
  }

  /** The saved record of a pane carries its supervisor's state. */
  lemma RestartSaved(e: EngineState, s: SessionState, i: nat, p: PaneId)
    requires i < |s.windows| && p in Leaves(s.windows[i].layout) && p in e.supervisors && KeyedById(e.panes)
    ensures var record := LeafRecord(p, e.panes, PersistedFor(e.supervisors, WindowLeaves(s.windows)));
            record.paneId == p && record.restart == Some(e.supervisors[p].Persisted())
  {
    hide Leaves, WindowLeaves;
    LeavesOfWindows(s.windows);
  }

  // ------------------------------------------------------------------ the latest change is what is saved

  /** The step gives `sid` a new record, or takes it away. */
  predicate Rewrites(step: P.Step, sid: SessionId) {
    (step.Create? || step.Change? || step.Remove?) && step.sid == sid
  }

  /** Step `k` is the last to give `sid` a record. */
  ghost predicate LastChange(steps: seq<P.Step>, k: nat, sid: SessionId) {
    && k < |steps| && (steps[k].Create? || steps[k].Change?) && steps[k].sid == sid
    && forall j :: k < j < |steps| ==> !Rewrites(steps[j], sid)
  }

  /** Somebody is to save `sid`, or somebody has. */
  ghost predicate SaveComes(s: P.State, sid: SessionId) {
    sid in s.attempts || P.SomeoneOwes(s, sid) || exists t :: P.Writes(s.At(t), sid)
  }

  lemma SaveKeepsComing(s: P.State, step: P.Step, sid: SessionId)
    requires P.Enabled(s, step) && sid in s.memory && SaveComes(s, sid)
    ensures SaveComes(P.Next(s, step), sid)
  {
    var s' := P.Next(s, step);
    P.Moves(s, step);
    if sid in s.attempts {
      assert sid in s'.attempts;
    } else if t :| P.Owes(s.At(t), sid) {
      if t == step.t && step.TakeSnapshot? {
        assert P.Writes(s'.At(t), sid);
      } else {
        assert P.Owes(s'.At(t), sid);
      }
    } else if t :| P.Writes(s.At(t), sid) {
      assert t != step.t ==> P.Writes(s'.At(t), sid);
    }
  }

  lemma MemoryStep(s: P.State, step: P.Step, sid: SessionId)
    requires P.Enabled(s, step)
    ensures var s' := P.Next(s, step);
            && (!Rewrites(step, sid) && sid in s.memory ==> sid in s'.memory && s'.memory[sid] == s.memory[sid])
            && ((step.Create? || step.Change?) && step.sid == sid ==>
                  sid in s'.memory && s'.memory[sid] == step.record && SaveComes(s', sid))
  {
    if (step.Create? || step.Change?) && step.sid == sid {
      assert P.Owes(P.Next(s, step).At(step.t), sid);
    }
  }

  lemma {:induction false} LastChangeHeld(s: P.State, steps: seq<P.Step>, k: nat, sid: SessionId)
    requires P.Run(s, steps) && LastChange(steps, k, sid)
    ensures var now := P.After(s, steps);
            sid in now.memory && now.memory[sid] == steps[k].record && SaveComes(now, sid)
  {
    hide P.Enabled, P.Next, SaveComes, Rewrites;
    var n := |steps| - 1;
    MemoryStep(P.After(s, steps[..n]), steps[n], sid);
    if k < n {
      assert forall j :: k < j < n ==> steps[..n][j] == steps[j];
      LastChangeHeld(s, steps[..n], k, sid);
      SaveKeepsComing(P.After(s, steps[..n]), steps[n], sid);
    }
  }

  /**
   Durability, told from the calls: in every interleaving, once all calls have returned and if no save
   failed, the file of a session holds exactly the record its last change left it with.
   */
  lemma LastChangeIsOnDisk(s: P.State, steps: seq<P.Step>, k: nat, sid: SessionId)
    requires P.Init(s) && P.Run(s, steps) && LastChange(steps, k, sid)
    requires forall i :: 0 <= i < |steps| ==> !(steps[i].Save? && !steps[i].ok)
    requires forall t :: P.After(s, steps).At(t).Idle?
    ensures sid in P.After(s, steps).disk && P.After(s, steps).disk[sid] == P.Good(steps[k].record)
  {
    hide P.Run, P.After, P.Init, P.Next, P.Enabled, LastChange, ValidRecord, SettledRecord;
    LastChangeHeld(s, steps, k, sid);
    P.DiskAtRest(s, steps);
    ChangeInRange(steps, k, sid);
  }

  lemma ChangeInRange(steps: seq<P.Step>, k: nat, sid: SessionId)
    requires LastChange(steps, k, sid)
    ensures k < |steps| && (steps[k].Create? || steps[k].Change?)
  {
  }

  // ------------------------------------------------------------------ ended for good

  /** Thread `t` is between taking `sid` out of memory and returning. */
  predicate Ending(pc: P.Pc, sid: SessionId) {
    (pc.Removed? || pc.DeleteLocked? || pc.DeleteDone?) && pc.sid == sid
  }

  /** Step `k` takes `sid` out of memory, step `m` is the return of that call. */
  ghost predicate EndedBy(steps: seq<P.Step>, k: nat, m: nat, sid: SessionId) {
    && k < m < |steps| && steps[k].Remove? && steps[k].sid == sid
    && steps[m] == P.UnlockDeleted(steps[k].t)
    && forall j :: k < j < m ==> steps[j] != P.UnlockDeleted(steps[k].t)
  }

  lemma EndingStep(s: P.State, step: P.Step, t: P.Thread, sid: SessionId)
    requires P.Enabled(s, step) && Ending(s.At(t), sid) && step != P.UnlockDeleted(t)
    ensures Ending(P.Next(s, step).At(t), sid)
  {
    P.Moves(s, step);
  }

  lemma {:induction false} StillEnding(s: P.State, steps: seq<P.Step>, k: nat, sid: SessionId)
    requires P.Run(s, steps) && k < |steps| && steps[k].Remove? && steps[k].sid == sid
    requires forall j :: k < j < |steps| ==> steps[j] != P.UnlockDeleted(steps[k].t)
    ensures Ending(P.After(s, steps).At(steps[k].t), sid)
  {
    hide P.Enabled, P.Next, Ending;
    var n := |steps| - 1;
    var before := P.After(s, steps[..n]);
    if k < n {
      assert forall j :: k < j < n ==> steps[..n][j] == steps[j];
      StillEnding(s, steps[..n], k, sid);
      EndingStep(before, steps[n], steps[k].t, sid);
    } else {
      NowEnding(before, steps[n], sid);
    }
  }

  lemma NowEnding(s: P.State, step: P.Step, sid: SessionId)
    requires P.Enabled(s, step) && step.Remove? && step.sid == sid
    ensures Ending(P.Next(s, step).At(step.t), sid)
  {
  }

  lemma ReturnEnds(s: P.State, t: P.Thread, sid: SessionId)
    requires P.Enabled(s, P.UnlockDeleted(t)) && Ending(s.At(t), sid)
    ensures sid in P.Next(s, P.UnlockDeleted(t)).ended
  {
  }

  /** No resurrection, told from the calls: once a kill (or a last close) has returned, the session is never on disk or in memory again. */
  lemma EndedForGood(s: P.State, steps: seq<P.Step>, k: nat, m: nat, sid: SessionId)
    requires P.Init(s) && P.Run(s, steps) && EndedBy(steps, k, m, sid)
    ensures sid !in P.After(s, steps).disk && sid !in P.After(s, steps).memory
  {
    hide P.Enabled, P.Next, P.Init, Ending;
    var upTo := steps[..m + 1];
    P.RunPrefix(s, steps, m + 1);
    assert upTo[..m] == steps[..m] && upTo[m] == steps[m];
    StillEnding(s, steps[..m], k, sid);
    ReturnEnds(P.After(s, steps[..m]), steps[k].t, sid);
    P.NoResurrection(s, steps, m + 1, sid);
  }
}
