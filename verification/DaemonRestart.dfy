/**
 A whole daemon restart: every session is saved, a new daemon starts empty and loads what is on disk.
 */
module DaemonRestart {
  import opened Common
  import opened Restart
  import opened Layout
  import opened Persistence
  import opened Engine
  import opened EngineInv
  import opened EngineLoad
  import opened EngineRestart

  // ------------------------------------------------------------------ what is saved can be loaded

  lemma {:induction false} SavedRatios(t: LayoutNode, panes: map<PaneId, PaneEntry>, restart: map<PaneId, PersistedRestartState>)
    requires RatiosOk(t) && Loadable(t)
    ensures ValidStructure(FromLive(t, panes, restart)) && RatiosIn(FromLive(t, panes, restart))
  {
    hide LeafRecord;
    SavedIsValid(t, panes, restart);
    if t.Split? {
      SavedRatios(t.first, panes, restart);
      SavedRatios(t.second, panes, restart);
    }
  }

  lemma SavedIds(t: LayoutNode, panes: map<PaneId, PaneEntry>, restart: map<PaneId, PersistedRestartState>)
    requires Loadable(t) && KeyedById(panes)
    ensures ValidStructure(FromLive(t, panes, restart)) && Ids(Records(FromLive(t, panes, restart))) == Leaves(t)
  {
    hide FromLive, Records, ValidStructure, Leaves;
    SavedIsValid(t, panes, restart);
    SavedRecords(t, panes, restart);
  }

  /** Windows whose trees pass and share no pane. */
  ghost predicate Apart(windows: seq<WindowState>) {
    && (forall i :: 0 <= i < |windows| ==> WindowOk(windows[i]))
    && (forall i, j, p :: 0 <= i < j < |windows| && p in Leaves(windows[i].layout) ==> p !in Leaves(windows[j].layout))
  }

  lemma SessionApart(e: EngineState, sid: SessionId)
    requires Inv(e) && sid in e.sessions
    ensures Apart(e.sessions[sid].windows)
  {
    hide Inv, Leaves, WindowOk;
    InvSession(e, sid);
    var s := e.sessions[sid];
    forall i, j, p | 0 <= i < j < |s.windows| && p in Leaves(s.windows[i].layout) ensures p !in Leaves(s.windows[j].layout) {
      assert HasPane(s, s.windows[i].id, p);
      assert p in Leaves(s.windows[j].layout) ==> HasPane(s, s.windows[j].id, p);
    }
  }

  lemma {:induction false} LeavesApart(windows: seq<WindowState>)
    requires Apart(windows)
    ensures NoRepeats(WindowLeaves(windows))
  {
    hide Leaves, WindowOk;
    if windows != [] {
      var n := |windows| - 1;
      var prefix, last := windows[..n], windows[n];
      assert Apart(prefix);
      LeavesApart(prefix);
      OkDistinct(last);
      LeavesDistinct(last.layout);
      LeavesOfWindows(prefix);
      forall x | x in WindowLeaves(prefix) ensures x !in Leaves(last.layout) {
        var k :| 0 <= k < n && x in Leaves(prefix[k].layout);
        assert prefix[k] == windows[k];
      }
      NoRepeatsConcat(WindowLeaves(prefix), Leaves(last.layout));
    }
  }

  lemma SavedWindowsValid(windows: seq<WindowState>, panes: map<PaneId, PaneEntry>, restart: map<PaneId, PersistedRestartState>)
    requires forall i :: 0 <= i < |windows| ==> WindowOk(windows[i])
    ensures var ws := SaveWindows(windows, panes, restart);
            forall i :: 0 <= i < |ws| ==> ValidStructure(ws[i].layout) && RatiosIn(ws[i].layout)
  {
    hide FromLive, RatiosIn, ValidStructure;
    var ws := SaveWindows(windows, panes, restart);
    forall i | 0 <= i < |ws| ensures ValidStructure(ws[i].layout) && RatiosIn(ws[i].layout) {
      SavedRatios(windows[i].layout, panes, restart);
    }
  }

  lemma {:induction false} SavedWindowIds(windows: seq<WindowState>, panes: map<PaneId, PaneEntry>, restart: map<PaneId, PersistedRestartState>)
    requires KeyedById(panes) && forall i :: 0 <= i < |windows| ==> WindowOk(windows[i])
    ensures var ws := SaveWindows(windows, panes, restart);
            && (forall i :: 0 <= i < |ws| ==> ValidStructure(ws[i].layout) && RatiosIn(ws[i].layout))
            && Ids(WindowRecords(ws)) == WindowLeaves(windows)
  {
    hide FromLive, Leaves, Records, KeyedById, RatiosIn, ValidStructure, WindowOk;
    var ws := SaveWindows(windows, panes, restart);
    SavedWindowsValid(windows, panes, restart);
    if windows != [] {
      var n := |windows| - 1;
      SavedWindowIds(windows[..n], panes, restart);
      assert SaveWindows(windows[..n], panes, restart) == ws[..n];
      OkLoadable(windows[n]);
      SavedIds(windows[n].layout, panes, restart);
      IdsConcat(WindowRecords(ws[..n]), Records(ws[n].layout));
    }
  }

  /** None of session `sid`'s windows and panes, as they are in `e`, is known to `e0`. */
  ghost predicate Unknown(e0: EngineState, e: EngineState, sid: SessionId)
    requires sid in e.sessions
  {
    && sid !in e0.sessions
    && (forall w :: HasWindow(e.sessions[sid], w) ==> w !in e0.windowSession)
    && (forall p :: p in WindowLeaves(e.sessions[sid].windows) ==> p !in e0.panes)
  }

  /** What the engine saves always passes validation and loads into any engine that does not know its ids. */
  lemma SnapshotLoads(e: EngineState, sid: SessionId, e0: EngineState)
    requires Inv(e) && sid in e.sessions && Unknown(e0, e, sid)
    ensures ValidRecord(Snapshot(e, sid)) && LoadableRecord(e0, Snapshot(e, sid))
  {
    hide Inv, Leaves, WindowLeaves, WindowRecords, FromLive, PersistedFor, ValidStructure, RatiosIn, WindowOk, Apart;
    InvKeys(e);
    InvSession(e, sid);
    var s, r := e.sessions[sid], Snapshot(e, sid);
    var restart := PersistedFor(e.supervisors, WindowLeaves(s.windows));
    SavedWindowIds(s.windows, e.panes, restart);
    SessionApart(e, sid);
    LeavesApart(s.windows);
    assert DistinctIds(WindowRecords(r.windows)) by { DistinctFromIds(WindowRecords(r.windows)); }
    forall i | 0 <= i < |r.windows| ensures r.windows[i].id !in e0.windowSession {
      assert HasWindow(s, s.windows[i].id);
    }
    forall i | 0 <= i < |WindowRecords(r.windows)| ensures WindowRecords(r.windows)[i].paneId !in e0.panes {
      assert Ids(WindowRecords(r.windows))[i] in WindowLeaves(s.windows);
    }
  }

  lemma DistinctFromIds(records: seq<PaneRecord>)
    requires NoRepeats(Ids(records))
    ensures DistinctIds(records)
  {
    forall i, j | 0 <= i < j < |records| ensures records[i].paneId != records[j].paneId {
      assert Ids(records)[i] != Ids(records)[j];
    }
  }

  // ------------------------------------------------------------------ what comes back

  function DefaultSize(w: WindowState): WindowState {
    w.(rows := DEFAULT_ROWS, cols := DEFAULT_COLS)
  }

  /** The session with every window at the size nobody has attached to yet. */
  function AtDefaultSize(s: SessionState): (r: SessionState)
    ensures |r.windows| == |s.windows|
  {
    s.(windows := seq(|s.windows|, i requires 0 <= i < |s.windows| => DefaultSize(s.windows[i])))
  }

  lemma SessionRebuilt(e: EngineState, sid: SessionId, e0: EngineState)
    requires Inv(e) && Inv(e0) && sid in e.sessions && Unknown(e0, e, sid)
    ensures ValidRecord(Snapshot(e, sid))
    ensures LoadSession(e0, Snapshot(e, sid)).sessions == e0.sessions[sid := AtDefaultSize(e.sessions[sid])]
  {
    hide Inv, Leaves, WindowLeaves, WindowRecords, FromLive, PersistedFor, ValidStructure, RatiosIn, WindowOk, LoadableRecord, LoadWindows, NewWindows, LiveTree, SupervisorsRestored, HasWindow;
    var s, r := e.sessions[sid], Snapshot(e, sid);
    SnapshotLoads(e, sid, e0);
    InvKeys(e0);
    InvKeys(e);
    InvSession(e, sid);
    LoadableNew(e0, r);
    LoadDetails(e0, sid, RecordPolicy(r), r.windows);
    LoadKeepsOthers(e0, sid, RecordPolicy(r), r.windows);
    var (e1, windows) := LoadWindows(e0, sid, RecordPolicy(r), r.windows);
    var restart := PersistedFor(e.supervisors, WindowLeaves(s.windows));
    forall i | 0 <= i < |windows| ensures windows[i] == DefaultSize(s.windows[i]) {
      TreeComesBack(s.windows[i], e.panes, restart);
    }
    assert windows == AtDefaultSize(s).windows;
    assert RecordPolicy(r) == s.defaultPolicy;
  }

  lemma TreeComesBack(w: WindowState, panes: map<PaneId, PaneEntry>, restart: map<PaneId, PersistedRestartState>)
    requires WindowOk(w) && KeyedById(panes)
    ensures ValidStructure(FromLive(w.layout, panes, restart)) && LiveTree(FromLive(w.layout, panes, restart)) == w.layout
  {
    hide FromLive, ToLive, ValidStructure;
    LoadAfterSave(w.layout, panes, restart, map[]);
  }

  lemma {:induction false} LoadKeepsOthers(e: EngineState, sid: SessionId, policy: RestartPolicy, ws: seq<WindowRecord>)
    requires forall i :: 0 <= i < |ws| ==> ValidStructure(ws[i].layout)
    ensures LoadWindows(e, sid, policy, ws).0.sessions == e.sessions
  {
    hide ToLive, ValidStructure, Restored;
    if ws != [] {
      LoadKeepsOthers(e, sid, policy, ws[..|ws| - 1]);
    }
  }

  // ------------------------------------------------------------------ what is saved the second time

  /** The engine as a daemon restart leaves its supervisors: nothing runs, nothing is pending. */
  function Settled(e: EngineState): EngineState {
    e.(supervisors := map p | p in e.supervisors :: Restore(e.supervisors[p].Persisted()))
  }

  lemma {:induction false} NormalOfSaved(t: LayoutNode, panes: map<PaneId, PaneEntry>, restart: map<PaneId, PersistedRestartState>,
                                         after: map<PaneId, PersistedRestartState>, policy: RestartPolicy)
    requires Loadable(t)
    requires forall p :: p in Leaves(t) ==> p in restart && p in after && after[p] == NormalRestart(Some(restart[p]), policy)
    ensures ValidStructure(FromLive(t, panes, restart))
    ensures NormalNode(FromLive(t, panes, restart), policy) == FromLive(t, panes, after)
  {
    hide NormalRestart;
    SavedIsValid(t, panes, restart);
    if t.Split? {
      NormalOfSaved(t.first, panes, restart, after, policy);
      NormalOfSaved(t.second, panes, restart, after, policy);
    } else {
      assert t.id in Leaves(t);
    }
  }

  /** Saved, loaded and saved again: the same record, but for running states that became Exited. */
  lemma SavedTwice(e: EngineState, sid: SessionId, e0: EngineState)
    requires Inv(e) && Inv(e0) && sid in e.sessions && Unknown(e0, e, sid)
    ensures ValidRecord(Snapshot(e, sid))
    ensures sid in LoadSession(e0, Snapshot(e, sid)).sessions
    ensures Snapshot(LoadSession(e0, Snapshot(e, sid)), sid) == Snapshot(Settled(e), sid)
  {
    hide Inv, Unknown, LoadableRecord, LoadSession, Normalized, Snapshot, Settled, ValidRecord;
    SnapshotLoads(e, sid, e0);
    SnapshotNamed(e, sid);
    SaveOfLoaded(e0, Snapshot(e, sid));
    NormalOfSnapshot(e, sid);
  }

  /** Normalizing a saved session is settling its supervisors. */
  lemma NormalOfSnapshot(e: EngineState, sid: SessionId)
    requires Inv(e) && sid in e.sessions && ValidRecord(Snapshot(e, sid))
    ensures Normalized(Snapshot(e, sid)) == Snapshot(Settled(e), sid)
  {
    hide Inv, Leaves, WindowLeaves, FromLive, NormalNode, ValidStructure, NormalRestart, WindowOk;
    var s, r := e.sessions[sid], Snapshot(e, sid);
    SnapshotNamed(e, sid);
    InvSession(e, sid);
    var restart := PersistedFor(e.supervisors, WindowLeaves(s.windows));
    var after := PersistedFor(Settled(e).supervisors, WindowLeaves(s.windows));
    forall i | 0 <= i < |s.windows|
      ensures NormalNode(r.windows[i].layout, RecordPolicy(r)) == FromLive(s.windows[i].layout, e.panes, after)
    {
      LeavesSupervised(e, sid, i);
      SettledStates(e, s.windows, RecordPolicy(r));
      LeavesInWindows(s.windows, i);
      OkLoadable(s.windows[i]);
      NormalOfSaved(s.windows[i].layout, e.panes, restart, after, RecordPolicy(r));
    }
    assert NormalWindows(r.windows, RecordPolicy(r)) == SaveWindows(s.windows, e.panes, after);
  }

  lemma SnapshotNamed(e: EngineState, sid: SessionId)
    requires Inv(e) && sid in e.sessions
    ensures Snapshot(e, sid).id == sid && RecordPolicy(Snapshot(e, sid)) == e.sessions[sid].defaultPolicy
  {
    hide Indexed, WindowOk, HasPane, HasWindow;
    InvSession(e, sid);
  }

  lemma OkLoadable(w: WindowState)
    requires WindowOk(w)
    ensures Loadable(w.layout)
  {
  }

  lemma LeavesSupervised(e: EngineState, sid: SessionId, i: nat)
    requires Inv(e) && sid in e.sessions && i < |e.sessions[sid].windows|
    ensures forall p :: p in Leaves(e.sessions[sid].windows[i].layout) ==> p in e.panes && p in e.supervisors
  {
    hide Inv, Leaves, SessionOk;
    InvKeys(e);
    InvSession(e, sid);
    var s := e.sessions[sid];
    forall p | p in Leaves(s.windows[i].layout) ensures p in e.paneWindow {
      assert HasPane(s, s.windows[i].id, p);
    }
  }

  lemma SettledStates(e: EngineState, windows: seq<WindowState>, policy: RestartPolicy)
    ensures var restart, after := PersistedFor(e.supervisors, WindowLeaves(windows)), PersistedFor(Settled(e).supervisors, WindowLeaves(windows));
            forall p :: p in WindowLeaves(windows) && p in e.supervisors ==>
              p in restart && p in after && after[p] == NormalRestart(Some(restart[p]), policy)
  {
    hide DelayMs, WindowLeaves;
  }

  // ------------------------------------------------------------------ all sessions at once

  function SaveAll(e: EngineState, sids: seq<SessionId>): (r: seq<SessionRecord>)
    requires forall i :: 0 <= i < |sids| ==> sids[i] in e.sessions
    ensures |r| == |sids| && forall i :: 0 <= i < |r| ==> r[i] == Snapshot(e, sids[i])
  {
    seq(|sids|, i requires 0 <= i < |sids| => Snapshot(e, sids[i]))
  }

  /** `e1` holds the sessions `sids` of `e`, and no others. */
  ghost predicate Rebuilt(e: EngineState, e1: EngineState, sids: seq<SessionId>)
    requires forall i :: 0 <= i < |sids| ==> sids[i] in e.sessions
  {
    && (forall sid :: sid in e1.sessions <==> sid in sids)
    && (forall i :: 0 <= i < |sids| ==> sids[i] in e1.sessions && e1.sessions[sids[i]] == AtDefaultSize(e.sessions[sids[i]]))
  }

  lemma SameScan(s: SessionState)
    ensures forall w, p :: HasPane(AtDefaultSize(s), w, p) <==> HasPane(s, w, p)
    ensures forall w :: HasWindow(AtDefaultSize(s), w) <==> HasWindow(s, w)
  {
    hide Leaves;
    var t := AtDefaultSize(s);
    assert forall i :: 0 <= i < |s.windows| ==> t.windows[i] == DefaultSize(s.windows[i]);
    forall w, p ensures HasPane(t, w, p) <==> HasPane(s, w, p) {
      if HasPane(s, w, p) {
        var i :| 0 <= i < |s.windows| && s.windows[i].id == w && p in Leaves(s.windows[i].layout);
        assert t.windows[i].id == w;
      }
      if HasPane(t, w, p) {
        var i :| 0 <= i < |t.windows| && t.windows[i].id == w && p in Leaves(t.windows[i].layout);
        assert s.windows[i].id == w;
      }
    }
    forall w ensures HasWindow(t, w) <==> HasWindow(s, w) {
      if HasWindow(s, w) {
        var i :| 0 <= i < |s.windows| && s.windows[i].id == w;
        assert t.windows[i].id == w;
      }
    }
  }

  /** Where `e1` finds a pane or a window, `e` finds it too. */
  lemma FoundBefore(e: EngineState, e1: EngineState, sids: seq<SessionId>)
    requires Inv(e) && Inv(e1) && (forall i :: 0 <= i < |sids| ==> sids[i] in e.sessions) && Rebuilt(e, e1, sids)
    ensures forall p :: p in e1.paneWindow ==>
                          && p in e.paneWindow && e.paneWindow[p] == e1.paneWindow[p]
                          && e1.paneWindow[p] in e.windowSession && e.windowSession[e1.paneWindow[p]] in sids
    ensures forall w :: w in e1.windowSession ==> w in e.windowSession && e.windowSession[w] == e1.windowSession[w] && e.windowSession[w] in sids
  {
    hide HasPane, HasWindow, SessionOk, SameKeys, KeyedById, AtDefaultSize;
    forall w | w in e1.windowSession
      ensures w in e.windowSession && e.windowSession[w] == e1.windowSession[w] && e.windowSession[w] in sids
    {
      assert WindowScanned(e1, w);
      SameScan(e.sessions[e1.windowSession[w]]);
      assert Indexed(e, e1.windowSession[w]);
    }
    forall p | p in e1.paneWindow
      ensures p in e.paneWindow && e.paneWindow[p] == e1.paneWindow[p] && e1.paneWindow[p] in e.windowSession
      ensures e.windowSession[e1.paneWindow[p]] in sids
    {
      assert PaneScanned(e1, p);
      SameScan(e.sessions[e1.windowSession[e1.paneWindow[p]]]);
      assert Indexed(e, e1.windowSession[e1.paneWindow[p]]);
    }
  }

  lemma StillUnknown(e: EngineState, e1: EngineState, sids: seq<SessionId>, sid: SessionId)
    requires Inv(e) && Inv(e1) && (forall i :: 0 <= i < |sids| ==> sids[i] in e.sessions) && Rebuilt(e, e1, sids)
    requires sid in e.sessions && sid !in sids
    ensures Unknown(e1, e, sid)
  {
    hide Inv, HasPane, HasWindow, SessionOk, Leaves, WindowLeaves, AtDefaultSize;
    FoundBefore(e, e1, sids);
    InvKeys(e1);
    InvSession(e, sid);
    LeavesLocated(e.sessions[sid]);
    forall p | p in WindowLeaves(e.sessions[sid].windows) ensures p !in e1.panes {
      var w :| HasPane(e.sessions[sid], w, p);
      PaneImpliesWindow(e.sessions[sid], w, p);
    }
  }

  lemma LeavesLocated(s: SessionState)
    ensures forall p :: p in WindowLeaves(s.windows) ==> exists w :: HasPane(s, w, p)
  {
    hide Leaves, WindowLeaves;
    LeavesOfWindows(s.windows);
    forall p | p in WindowLeaves(s.windows) ensures exists w :: HasPane(s, w, p) {
      var i :| 0 <= i < |s.windows| && p in Leaves(s.windows[i].layout);
      assert HasPane(s, s.windows[i].id, p);
    }
  }

  lemma {:induction false} AllLoaded(e: EngineState, sids: seq<SessionId>)
    requires Inv(e) && NoRepeats(sids) && forall i :: 0 <= i < |sids| ==> sids[i] in e.sessions
    ensures var records := SaveAll(e, sids);
            && (forall i :: 0 <= i < |records| ==> ValidRecord(records[i])) && LoadableRecords(EMPTY, records)
            && Inv(DoLoad(EMPTY, records)) && Rebuilt(e, DoLoad(EMPTY, records), sids)
  {
    hide Inv, ValidRecord, LoadableRecord, LoadSession, AtDefaultSize, Unknown, EMPTY, Snapshot, Rebuilt;
    var records := SaveAll(e, sids);
    if sids == [] {
      NothingOnDisk(e);
    } else {
      var n := |sids| - 1;
      AllLoaded(e, sids[..n]);
      assert SaveAll(e, sids[..n]) == records[..n];
      OneMoreSession(e, DoLoad(EMPTY, records[..n]), sids[..n], sids[n]);
      assert sids == sids[..n] + [sids[n]];
    }
  }

  lemma OneMoreSession(e: EngineState, e1: EngineState, sids: seq<SessionId>, sid: SessionId)
    requires Inv(e) && Inv(e1) && (forall i :: 0 <= i < |sids| ==> sids[i] in e.sessions) && Rebuilt(e, e1, sids)
    requires sid in e.sessions && sid !in sids
    ensures ValidRecord(Snapshot(e, sid)) && LoadableRecord(e1, Snapshot(e, sid))
    ensures Inv(LoadSession(e1, Snapshot(e, sid))) && Rebuilt(e, LoadSession(e1, Snapshot(e, sid)), sids + [sid])
  {
    hide Inv, ValidRecord, LoadableRecord, LoadSession, AtDefaultSize, Unknown, Snapshot;
    StillUnknown(e, e1, sids, sid);
    SnapshotLoads(e, sid, e1);
    SessionRebuilt(e, sid, e1);
    LoadSessionInv(e1, Snapshot(e, sid));
  }

  lemma NothingOnDisk(e: EngineState)
    ensures Inv(EMPTY) && Rebuilt(e, EMPTY, [])
  {
  }

  /**
   A daemon restart: whatever the engine holds, saving every session and loading the records into a
   new engine (in any order) brings back every session, window, tree, ratio and pane id, with the
   same reverse index; only sizes start over at the default.
   */
  lemma RestartKeepsEverything(e: EngineState, sids: seq<SessionId>)
    requires Inv(e) && NoRepeats(sids) && forall sid :: sid in sids <==> sid in e.sessions
    ensures var records := SaveAll(e, sids);
            && (forall i :: 0 <= i < |records| ==> ValidRecord(records[i])) && LoadableRecords(EMPTY, records)
            && var e' := DoLoad(EMPTY, records);
               && Inv(e') && e'.sessions.Keys == e.sessions.Keys
               && (forall sid :: sid in e.sessions ==> sid in e'.sessions && e'.sessions[sid] == AtDefaultSize(e.sessions[sid]))
               && e'.paneWindow == e.paneWindow && e'.windowSession == e.windowSession
               && e'.panes.Keys == e.panes.Keys && e'.supervisors.Keys == e.supervisors.Keys
  {
    hide Inv, ValidRecord, LoadableRecords, DoLoad, AtDefaultSize, EMPTY, Snapshot, Rebuilt;
    AllLoaded(e, sids);
    var e' := DoLoad(EMPTY, SaveAll(e, sids));
    SessionsBack(e, e', sids);
    IndexBack(e, e', sids);
    InvKeys(e);
    InvKeys(e');
  }

  /** ... and saving any of them again writes the record it was loaded from, but for running states that became Exited. */
  lemma RestartKeepsRecords(e: EngineState, sids: seq<SessionId>, i: nat)
    requires Inv(e) && NoRepeats(sids) && (forall k :: 0 <= k < |sids| ==> sids[k] in e.sessions) && i < |sids|
    ensures var records := SaveAll(e, sids);
            && (forall k :: 0 <= k < |records| ==> ValidRecord(records[k]))
            && var e' := DoLoad(EMPTY, records);
               sids[i] in e'.sessions && Snapshot(e', sids[i]) == Snapshot(Settled(e), sids[i])
  {
    hide Inv, ValidRecord, LoadableRecords, DoLoad, EMPTY, Snapshot, Rebuilt, Normalized, Settled;
    AllLoaded(e, sids);
    NothingOnDisk(e);
    LoadedSnapshots(EMPTY, SaveAll(e, sids), i);
    SnapshotNamed(e, sids[i]);
    NormalOfSnapshot(e, sids[i]);
  }

  lemma SessionsBack(e: EngineState, e': EngineState, sids: seq<SessionId>)
    requires (forall sid :: sid in sids <==> sid in e.sessions) && Rebuilt(e, e', sids)
    ensures e'.sessions.Keys == e.sessions.Keys
    ensures forall sid :: sid in e.sessions ==> sid in e'.sessions && e'.sessions[sid] == AtDefaultSize(e.sessions[sid])
  {
    hide AtDefaultSize;
    assert forall sid :: sid in e'.sessions <==> sid in e.sessions;
  }

  lemma IndexBack(e: EngineState, e': EngineState, sids: seq<SessionId>)
    requires Inv(e) && Inv(e') && (forall sid :: sid in sids <==> sid in e.sessions) && Rebuilt(e, e', sids)
    ensures e'.paneWindow == e.paneWindow && e'.windowSession == e.windowSession
  {
    hide Inv, Rebuilt;
    FoundBefore(e, e', sids);
    FoundAgain(e, e', sids);
  }

  lemma FoundAgain(e: EngineState, e': EngineState, sids: seq<SessionId>)
    requires Inv(e) && Inv(e') && (forall sid :: sid in sids <==> sid in e.sessions) && Rebuilt(e, e', sids)
    ensures forall p :: p in e.paneWindow ==> p in e'.paneWindow
    ensures forall w :: w in e.windowSession ==> w in e'.windowSession
  {
    hide HasPane, HasWindow, SessionOk, SameKeys, KeyedById, AtDefaultSize;
    forall p | p in e.paneWindow ensures p in e'.paneWindow {
      assert PaneScanned(e, p);
      var sid := e.windowSession[e.paneWindow[p]];
      SameScan(e.sessions[sid]);
      assert sid in sids && Indexed(e', sid);
    }
    forall w | w in e.windowSession ensures w in e'.windowSession {
      assert WindowScanned(e, w);
      var sid := e.windowSession[w];
      SameScan(e.sessions[sid]);
      assert sid in sids && Indexed(e', sid);
    }
  }

  // ------------------------------------------------------------------ reviving a pane after the restart

  /** What `start_pane_inner` spawns for a restored record. */
  datatype Relaunch = Relaunch(command: string, cwd: string, launch: Launch, rows: nat, cols: nat)

  function RelaunchOf(r: PaneRecord): Relaunch {
    Relaunch(r.command, r.cwd, r.launch, Max(r.rows, MIN_PANE_ROWS), Max(r.cols, MIN_PANE_COLS))
  }

  /**
   A pane that ran before the restart is revived as it was: after saving, loading and reviving, the
   same id runs the same command with the same arguments and environment in the same directory, at
   its last size (or the minimum); its exit code, if it had exited, is still known.
   */
  lemma RevivedAsItWas(e: EngineState, sid: SessionId, e0: EngineState, i: nat, p: PaneId)
    requires Inv(e) && Inv(e0) && sid in e.sessions && Unknown(e0, e, sid)
    requires i < |e.sessions[sid].windows| && p in Leaves(e.sessions[sid].windows[i].layout)
    requires p in e.panes && e.panes[p].Live? && e.panes[p].pane.rows <= U16_MAX && e.panes[p].pane.cols <= U16_MAX
    ensures ValidRecord(Snapshot(e, sid))
    ensures var e', was := LoadSession(e0, Snapshot(e, sid)), e.panes[p].pane;
            && p in e'.panes && e'.panes[p].Dead?
            && RelaunchOf(e'.panes[p].record) == Relaunch(was.command, was.cwd, was.launch, Max(was.rows, MIN_PANE_ROWS), Max(was.cols, MIN_PANE_COLS))
            && e'.panes[p].record.exitCode == was.exitCode
  {
    hide Inv, Leaves, WindowLeaves, WindowRecords, FromLive, PersistedFor, ValidStructure, LoadableRecord, LoadWindows, NewWindows, LeafRecord, InsertAll, HasWindow, Records, WindowOk;
    var s, r := e.sessions[sid], Snapshot(e, sid);
    SnapshotLoads(e, sid, e0);
    InvKeys(e0);
    LoadableNew(e0, r);
    WindowsLoaded(e0, sid, RecordPolicy(r), r.windows) by { SnapshotNamed(e, sid); }
    SnapshotNamed(e, sid);
    DistinctRecords(e0, r);
    InsertedHolds(e0.panes, WindowRecords(r.windows));
    var restart := PersistedFor(e.supervisors, WindowLeaves(s.windows));
    LeafSaved(s.windows[i].layout, e.panes, restart, p);
    WindowRecordsHold(r.windows, i);
    var record := LeafRecord(p, e.panes, restart);
    assert record in WindowRecords(r.windows);
    LiveRecord(p, e.panes, restart);
  }

  lemma LeafSaved(t: LayoutNode, panes: map<PaneId, PaneEntry>, restart: map<PaneId, PersistedRestartState>, p: PaneId)
    requires p in Leaves(t) && ValidStructure(FromLive(t, panes, restart))
    ensures LeafRecord(p, panes, restart) in Records(FromLive(t, panes, restart))
  {
    hide LeafRecord, FromLive, Records, Leaves, ValidStructure;
    SavedRecords(t, panes, restart);
    var k :| 0 <= k < |Leaves(t)| && Leaves(t)[k] == p;
    assert Records(FromLive(t, panes, restart))[k] == LeafRecord(p, panes, restart);
  }

  lemma LiveRecord(p: PaneId, panes: map<PaneId, PaneEntry>, restart: map<PaneId, PersistedRestartState>)
    requires p in panes && panes[p].Live? && panes[p].pane.rows <= U16_MAX && panes[p].pane.cols <= U16_MAX
    ensures var r, was := LeafRecord(p, panes, restart), panes[p].pane;
            && r.paneId == p && r.command == was.command && r.cwd == was.cwd && r.launch == was.launch
            && r.rows == was.rows && r.cols == was.cols && r.exitCode == was.exitCode
  {
  }

  // ------------------------------------------------------------------ which validated records may be loaded

  /** What a load builds, whatever the ids are. */
  lemma {:induction false} WindowsShape(e: EngineState, sid: SessionId, policy: RestartPolicy, ws: seq<WindowRecord>)
    requires forall i :: 0 <= i < |ws| ==> ValidStructure(ws[i].layout)
    ensures var (e1, windows) := LoadWindows(e, sid, policy, ws);
            && e1.sessions == e.sessions && |windows| == |ws|
            && (forall i :: 0 <= i < |ws| ==> windows[i].id == ws[i].id && windows[i].layout == LiveTree(ws[i].layout))
            && WindowLeaves(windows) == Ids(WindowRecords(ws))
  {
    hide ValidStructure, ToLive, Records, Leaves, Restored, LiveTree;
    if ws != [] {
      var n := |ws| - 1;
      var prefix := ws[..n];
      WindowsShape(e, sid, policy, prefix);
      var (e1, windows) := LoadWindows(e, sid, policy, prefix);
      var last := LoadWindow(e1, sid, policy, ws[n]).1;
      assert last.layout == LiveTree(ws[n].layout) by { SameLive(ws[n].layout, e1.panes); }
      LoadInserts(ws[n].layout, e1.panes);
      assert (windows + [last])[..n] == windows;
      IdsConcat(WindowRecords(prefix), Records(ws[n].layout));
    }
  }

  lemma SameLive(node: PersistedNode, panes: map<PaneId, PaneEntry>)
    requires ValidStructure(node)
    ensures ToLive(node, panes).tree == LiveTree(node)
  {
    hide ToLive;
    SameTree(node, panes, map[]);
  }

  lemma {:induction false} RatiosBack(node: PersistedNode, panes: map<PaneId, PaneEntry>)
    requires ValidStructure(node) && RatiosOk(ToLive(node, panes).tree)
    ensures RatiosIn(node)
  {
    if node.SavedSplit? {
      RatiosBack(node.children[0].node, panes);
      RatiosBack(node.children[1].node, ToLive(node.children[0].node, panes).panes);
    }
  }

  /** A window or a pane of the loaded session that another session already had would be indexed twice. */
  lemma NothingShared(e: EngineState, e': EngineState, sid: SessionId, w: WindowId)
    requires Inv(e) && Inv(e') && sid !in e.sessions && sid in e'.sessions && HasWindow(e'.sessions[sid], w)
    requires forall s :: s in e.sessions ==> s in e'.sessions && e'.sessions[s] == e.sessions[s]
    ensures w !in e.windowSession
    ensures forall p :: HasPane(e'.sessions[sid], w, p) ==> p !in e.panes
  {
    hide Inv, HasPane, HasWindow;
    if w in e.windowSession {
      WindowFound(e, w);
      WindowOwner(e', sid, w);
      WindowOwner(e', e.windowSession[w], w);
    }
    InvKeys(e);
    forall p | HasPane(e'.sessions[sid], w, p) ensures p !in e.panes {
      if p in e.paneWindow {
        PaneFound(e, p);
        var w0 := e.paneWindow[p];
        PaneOwner(e', sid, w, p);
        PaneOwner(e', e.windowSession[w0], w0, p);
      }
    }
  }

  lemma WindowFound(e: EngineState, w: WindowId)
    requires Inv(e) && w in e.windowSession
    ensures e.windowSession[w] in e.sessions && HasWindow(e.sessions[e.windowSession[w]], w)
  {
    hide HasPane, HasWindow, SessionOk, KeyedById, Indexed;
    assert WindowScanned(e, w);
  }

  lemma PaneFound(e: EngineState, p: PaneId)
    requires Inv(e) && p in e.paneWindow
    ensures var w := e.paneWindow[p];
            && w in e.windowSession && e.windowSession[w] in e.sessions
            && HasPane(e.sessions[e.windowSession[w]], w, p) && HasWindow(e.sessions[e.windowSession[w]], w)
  {
    hide HasPane, HasWindow, SessionOk, KeyedById, Indexed;
    assert PaneScanned(e, p);
    PaneImpliesWindow(e.sessions[e.windowSession[e.paneWindow[p]]], e.paneWindow[p], p);
  }

  lemma WindowOwner(e: EngineState, sid: SessionId, w: WindowId)
    requires Inv(e) && sid in e.sessions && HasWindow(e.sessions[sid], w)
    ensures w in e.windowSession && e.windowSession[w] == sid
  {
    hide Inv, HasWindow, HasPane;
    InvSession(e, sid);
  }

  lemma PaneOwner(e: EngineState, sid: SessionId, w: WindowId, p: PaneId)
    requires Inv(e) && sid in e.sessions && HasPane(e.sessions[sid], w, p)
    ensures p in e.paneWindow && e.paneWindow[p] == w
  {
    hide Inv, HasWindow, HasPane;
    InvSession(e, sid);
  }

  /**
   Validation asks less than the engine needs. A validated record of a session that is not there yet
   can be loaded, so that index, layouts, panes and supervision agree, iff its window ids and pane ids
   are new and distinct and its ratios lie in [0, 1].
   */
  lemma LoadAgreesIff(e: EngineState, r: SessionRecord)
    requires Inv(e) && ValidRecord(r) && r.id !in e.sessions
    ensures Inv(LoadSession(e, r)) <==> LoadableRecord(e, r)
  {
    hide Inv, LoadSession, LoadableRecord, ValidRecord;
    if LoadableRecord(e, r) {
      LoadSessionInv(e, r);
    }
    if Inv(LoadSession(e, r)) {
      AgreesMeansLoadable(e, r);
    }
  }

  /** A record that passes validation, uses one pane id twice, and breaks the agreement even of an empty engine. */
  lemma SharedIdBreaksAgreement()
    ensures var r := SessionRecord(CURRENT_SCHEMA_VERSION, 5, "", [WindowRecord(1, "0", SHARED_ID)], 1, None);
            ValidRecord(r) && r.id !in EMPTY.sessions && !Inv(LoadSession(EMPTY, r))
  {
    var r := SessionRecord(CURRENT_SCHEMA_VERSION, 5, "", [WindowRecord(1, "0", SHARED_ID)], 1, None);
    hide Inv, LoadSession, Records, ValidStructure, SHARED_ID;
    SharedIdIsValid();
    assert ValidRecord(r);
    assert r.windows[..0] == [] && WindowRecords([]) == [];
    assert WindowRecords(r.windows) == Records(SHARED_ID);
    NothingOnDisk(EMPTY);
    LoadAgreesIff(EMPTY, r);
    assert !DistinctIds(WindowRecords(r.windows)) by {
      var rs := WindowRecords(r.windows);
      assert rs[0].paneId == rs[1].paneId;
    }
  }

  lemma AgreesMeansLoadable(e: EngineState, r: SessionRecord)
    requires Inv(e) && ValidRecord(r) && r.id !in e.sessions && Inv(LoadSession(e, r))
    ensures LoadableRecord(e, r)
  {
    hide Inv, LoadWindows, WindowRecords, Records, WindowLeaves, Leaves, RatiosIn, RatiosOk, ValidStructure, HasPane, HasWindow, LiveTree, Apart, Indexed;
    var e', ws := LoadSession(e, r), r.windows;
    WindowsShape(e, r.id, RecordPolicy(r), ws);
    var s := e'.sessions[r.id];
    InvSession(e', r.id);
    SessionApart(e', r.id);
    LeavesApart(s.windows);
    DistinctFromIds(WindowRecords(ws));
    forall i | 0 <= i < |ws| ensures RatiosIn(ws[i].layout) && ws[i].id !in e.windowSession {
      OkDistinct(s.windows[i]);
      LiveRatios(ws[i].layout);
      WindowThere(s, i);
      NothingShared(e, e', r.id, ws[i].id);
    }
    forall k | 0 <= k < |WindowRecords(ws)| ensures WindowRecords(ws)[k].paneId !in e.panes {
      var p := WindowRecords(ws)[k].paneId;
      assert p == Ids(WindowRecords(ws))[k] && p in WindowLeaves(s.windows);
      LeavesLocated(s);
      var w :| HasPane(s, w, p);
      PaneImpliesWindow(s, w, p);
      NothingShared(e, e', r.id, w);
    }
  }

  lemma LiveRatios(node: PersistedNode)
    requires ValidStructure(node) && RatiosOk(LiveTree(node))
    ensures RatiosIn(node)
  {
    hide ToLive, RatiosOk;
    RatiosBack(node, map[]);
  }

  lemma WindowThere(s: SessionState, i: nat)
    requires i < |s.windows|
    ensures HasWindow(s, s.windows[i].id)
  {
  }
}
