/**
 Sessions across a daemon restart: what `snapshot_persisted_record` writes, what `load_persisted`
 makes of it, and what is written again.
 */
module EngineRestart {
  import opened Common
  import opened Restart
  import opened RestartRuns
  import opened Layout
  import opened Persistence
  import opened Engine
  import opened EngineInv
  import opened EngineLoad

  /** `persisted_for`. */
  function PersistedFor(supervisors: map<PaneId, Supervisor>, ids: seq<PaneId>): map<PaneId, PersistedRestartState> {
    map id | id in ids && id in supervisors :: supervisors[id].Persisted()
  }

  function SaveWindows(windows: seq<WindowState>, panes: map<PaneId, PaneEntry>, restart: map<PaneId, PersistedRestartState>)
    : (r: seq<WindowRecord>)
    ensures |r| == |windows|
    ensures forall i :: 0 <= i < |r| ==> r[i] == WindowRecord(windows[i].id, windows[i].name, FromLive(windows[i].layout, panes, restart))
  {
    seq(|windows|, i requires 0 <= i < |windows| =>
      WindowRecord(windows[i].id, windows[i].name, FromLive(windows[i].layout, panes, restart)))
  }

  /** `snapshot_persisted_record` of a session that exists. */
  function Snapshot(e: EngineState, sid: SessionId): SessionRecord
    requires sid in e.sessions
  {
    var s := e.sessions[sid];
    SessionRecord(CURRENT_SCHEMA_VERSION, s.id, s.name,
                  SaveWindows(s.windows, e.panes, PersistedFor(e.supervisors, WindowLeaves(s.windows))), s.activeWindow,
                  if s.defaultPolicy != DEFAULT_POLICY then Some(s.defaultPolicy) else None)
  }

  // ------------------------------------------------------------------ what a second save writes

  /** The restart state after one load: no running state survives and a missing one is a new one. */
  function NormalRestart(r: Option<PersistedRestartState>, policy: RestartPolicy): PersistedRestartState {
    if r.Some? then r.value.(state := RestoredState(r.value.state)) else NewSupervisor(policy).Persisted()
  }

  function NormalNode(node: PersistedNode, policy: RestartPolicy): PersistedNode
    requires ValidStructure(node)
  {
    match node
    case SavedLeaf(r) => SavedLeaf(r.(restart := Some(NormalRestart(r.restart, policy))))
    case SavedSplit(o, children) =>
      SavedSplit(o, [Child(NormalNode(children[0].node, policy), children[0].ratio),
                     Child(NormalNode(children[1].node, policy), children[1].ratio)])
  }

  function NormalWindows(ws: seq<WindowRecord>, policy: RestartPolicy): (r: seq<WindowRecord>)
    requires forall i :: 0 <= i < |ws| ==> ValidStructure(ws[i].layout)
    ensures |r| == |ws|
    ensures forall i :: 0 <= i < |r| ==> r[i] == ws[i].(layout := NormalNode(ws[i].layout, policy))
  {
    seq(|ws|, i requires 0 <= i < |ws| => ws[i].(layout := NormalNode(ws[i].layout, policy)))
  }

  /** What a record becomes by being loaded and saved once. */
  function Normalized(r: SessionRecord): SessionRecord
    requires ValidRecord(r)
  {
    r.(windows := NormalWindows(r.windows, RecordPolicy(r)),
       defaultPolicy := if RecordPolicy(r) != DEFAULT_POLICY then Some(RecordPolicy(r)) else None)
  }

  // ------------------------------------------------------------------ loading, in detail

  lemma {:induction false} SameTree(node: PersistedNode, a: map<PaneId, PaneEntry>, b: map<PaneId, PaneEntry>)
    requires ValidStructure(node)
    ensures ToLive(node, a).tree == ToLive(node, b).tree
  {
    if node.SavedSplit? {
      var first, second := node.children[0].node, node.children[1].node;
      SameTree(first, a, b);
      SameTree(second, ToLive(first, a).panes, ToLive(first, b).panes);
    }
  }

  function LiveTree(node: PersistedNode): LayoutNode
    requires ValidStructure(node)
  {
    ToLive(node, map[]).tree
  }

  ghost predicate WindowsRebuilt(ws: seq<WindowRecord>, windows: seq<WindowState>)
    requires forall i :: 0 <= i < |ws| ==> ValidStructure(ws[i].layout)
  {
    && |windows| == |ws|
    && forall i :: 0 <= i < |ws| ==>
         windows[i] == WindowState(ws[i].id, ws[i].name, LiveTree(ws[i].layout), DEFAULT_ROWS, DEFAULT_COLS)
  }

  ghost predicate SupervisorsRestored(supervisors: map<PaneId, Supervisor>, records: seq<PaneRecord>, policy: RestartPolicy) {
    forall i :: 0 <= i < |records| ==>
      && records[i].paneId in supervisors
      && supervisors[records[i].paneId].Persisted() == NormalRestart(records[i].restart, policy)
  }

  lemma {:induction false} LoadDetails(e: EngineState, sid: SessionId, policy: RestartPolicy, ws: seq<WindowRecord>)
    requires SameKeys(e) && NewWindows(e, ws)
    ensures var (e1, windows) := LoadWindows(e, sid, policy, ws);
            WindowsRebuilt(ws, windows) && SupervisorsRestored(e1.supervisors, WindowRecords(ws), policy)
  {
    hide NewWindows, LoadWindow, WindowRecords, SameKeys, LiveTree, SupervisorsRestored, ValidStructure, Records;
    if ws == [] {
      NothingRestored(e, policy);
    } else {
      var prefix, r := ws[..|ws| - 1], ws[|ws| - 1];
      assert ws == prefix + [r];
      NewWindowsPrefix(e, prefix, r);
      LoadDetails(e, sid, policy, prefix);
      var (e1, windows) := LoadWindows(e, sid, policy, prefix);
      DetailsOfOne(e1, sid, policy, WindowRecords(prefix), r);
    }
  }

  lemma NothingRestored(e: EngineState, policy: RestartPolicy)
    ensures SupervisorsRestored(e.supervisors, WindowRecords([]), policy)
  {
  }

  lemma DetailsOfOne(e: EngineState, sid: SessionId, policy: RestartPolicy, before: seq<PaneRecord>, r: WindowRecord)
    requires ValidStructure(r.layout) && DistinctIds(Records(r.layout))
    requires forall p :: p in Ids(Records(r.layout)) ==> p !in Ids(before)
    requires SupervisorsRestored(e.supervisors, before, policy)
    ensures var (e2, last) := LoadWindow(e, sid, policy, r);
            && last == WindowState(r.id, r.name, LiveTree(r.layout), DEFAULT_ROWS, DEFAULT_COLS)
            && SupervisorsRestored(e2.supervisors, before + Records(r.layout), policy)
  {
    hide Records, ToLive, DistinctIds, InsertAll, NormalRestart, Leaves, Restored, ValidStructure;
    var rs := Records(r.layout);
    SameTree(r.layout, e.panes, map[]);
    LoadInserts(r.layout, e.panes);
    assert Consistent(rs) by { DistinctIsConsistent(rs); }
    InsertedHolds(e.panes, rs);
    var (e2, last) := LoadWindow(e, sid, policy, r);
    var panes := ToLive(r.layout, e.panes).panes;
    var all := before + rs;
    forall i | 0 <= i < |all|
      ensures all[i].paneId in e2.supervisors && e2.supervisors[all[i].paneId].Persisted() == NormalRestart(all[i].restart, policy)
    {
      if i < |before| {
        assert all[i] == before[i] && Ids(before)[i] == before[i].paneId;
      } else {
        var x := rs[i - |before|];
        assert all[i] == x && Ids(rs)[i - |before|] == x.paneId;
        RestoredPersists(panes, x, policy);
      }
    }
  }

  lemma DistinctIsConsistent(records: seq<PaneRecord>)
    requires DistinctIds(records)
    ensures Consistent(records)
  {
  }

  lemma RestoredPersists(panes: map<PaneId, PaneEntry>, r: PaneRecord, policy: RestartPolicy)
    requires r.paneId in panes && panes[r.paneId] == Dead(r)
    ensures Restored(panes, r.paneId, policy).Persisted() == NormalRestart(r.restart, policy)
  {
    hide DelayMs;
  }

  // ------------------------------------------------------------------ load, then save

  ghost predicate AllNormal(restart: map<PaneId, PersistedRestartState>, records: seq<PaneRecord>, policy: RestartPolicy) {
    forall i :: 0 <= i < |records| ==>
      records[i].paneId in restart && restart[records[i].paneId] == NormalRestart(records[i].restart, policy)
  }

  lemma OneNormal(restart: map<PaneId, PersistedRestartState>, r: PaneRecord, policy: RestartPolicy)
    requires AllNormal(restart, [r], policy)
    ensures r.paneId in restart && restart[r.paneId] == NormalRestart(r.restart, policy)
  {
    hide NormalRestart;
    assert [r][0] == r;
  }

  lemma NormalParts(restart: map<PaneId, PersistedRestartState>, a: seq<PaneRecord>, b: seq<PaneRecord>, policy: RestartPolicy)
    requires AllNormal(restart, a + b, policy)
    ensures AllNormal(restart, a, policy) && AllNormal(restart, b, policy)
  {
    hide NormalRestart;
    assert forall i :: 0 <= i < |a| ==> a[i] == (a + b)[i];
    assert forall i :: 0 <= i < |b| ==> b[i] == (a + b)[|a| + i];
  }

  lemma {:induction false} OverlayIsNormal(node: PersistedNode, restart: map<PaneId, PersistedRestartState>, policy: RestartPolicy)
    requires ValidStructure(node)
    requires AllNormal(restart, Records(node), policy)
    ensures Overlay(node, restart) == NormalNode(node, policy)
  {
    hide NormalRestart, AllNormal;
    match node
    case SavedLeaf(r) => OneNormal(restart, r, policy);
    case SavedSplit(_, children) =>
      NormalParts(restart, Records(children[0].node), Records(children[1].node), policy);
      OverlayIsNormal(children[0].node, restart, policy);
      OverlayIsNormal(children[1].node, restart, policy);
  }

  lemma {:induction false} WindowRecordsHold(ws: seq<WindowRecord>, i: nat)
    requires i < |ws| && forall j :: 0 <= j < |ws| ==> ValidStructure(ws[j].layout)
    ensures forall r :: r in Records(ws[i].layout) ==> r in WindowRecords(ws)
  {
    hide Records;
    if i < |ws| - 1 {
      WindowRecordsHold(ws[..|ws| - 1], i);
    }
  }

  /** Saving what was just loaded writes the record back, normalized. */
  lemma SaveOfLoaded(e: EngineState, r: SessionRecord)
    requires Inv(e) && LoadableRecord(e, r)
    ensures r.id in LoadSession(e, r).sessions && Snapshot(LoadSession(e, r), r.id) == Normalized(r)
  {
    hide Inv, LoadableRecord, SameKeys, NewWindows, LoadWindows, WindowRecords, Records, FromLive, NormalNode, LiveTree, WindowLeaves, PersistedFor, SupervisorsRestored, ValidStructure, InsertAll;
    InvKeys(e);
    LoadableNew(e, r);
    var policy := RecordPolicy(r);
    LoadDetails(e, r.id, policy, r.windows);
    WindowsLoaded(e, r.id, policy, r.windows);
    var (e1, windows) := LoadWindows(e, r.id, policy, r.windows);
    var e' := LoadSession(e, r);
    var restart := PersistedFor(e'.supervisors, WindowLeaves(windows));
    var saved := SaveWindows(windows, e'.panes, restart);
    DistinctRecords(e, r);
    forall i | 0 <= i < |saved| ensures saved[i] == r.windows[i].(layout := NormalNode(r.windows[i].layout, policy)) {
      WindowSaved(e, e', r.windows, windows, i, policy);
    }
    assert saved == NormalWindows(r.windows, policy);
  }

  lemma DistinctRecords(e: EngineState, r: SessionRecord)
    requires LoadableRecord(e, r)
    ensures Consistent(WindowRecords(r.windows))
  {
    hide WindowRecords, ValidStructure, RatiosIn;
  }

  lemma WindowSaved(e: EngineState, e': EngineState, ws: seq<WindowRecord>, windows: seq<WindowState>, i: nat, policy: RestartPolicy)
    requires forall j :: 0 <= j < |ws| ==> ValidStructure(ws[j].layout)
    requires i < |ws| && WindowsRebuilt(ws, windows) && Consistent(WindowRecords(ws))
    requires e'.panes == InsertAll(e.panes, WindowRecords(ws))
    requires SupervisorsRestored(e'.supervisors, WindowRecords(ws), policy)
    ensures FromLive(windows[i].layout, e'.panes, PersistedFor(e'.supervisors, WindowLeaves(windows))) == NormalNode(ws[i].layout, policy)
  {
    hide Records, WindowRecords, FromLive, NormalNode, WindowLeaves, ValidStructure, InsertAll, Consistent, Overlay, NormalRestart;
    var node, all := ws[i].layout, WindowRecords(ws);
    var restart := PersistedFor(e'.supervisors, WindowLeaves(windows));
    InsertedHolds(e.panes, all);
    WindowRecordsHold(ws, i);
    LeavesInWindows(windows, i);
    LoadInserts(node, map[]);
    forall k | 0 <= k < |Records(node)|
      ensures Records(node)[k].paneId in e'.panes && e'.panes[Records(node)[k].paneId] == Dead(Records(node)[k])
      ensures Records(node)[k].paneId in restart
      ensures restart[Records(node)[k].paneId] == NormalRestart(Records(node)[k].restart, policy)
    {
      var x := Records(node)[k];
      assert x in all && Ids(Records(node))[k] == x.paneId;
      assert x.paneId in WindowLeaves(windows);
    }
    SaveAfterLoad(node, map[], e'.panes, restart);
    OverlayIsNormal(node, restart, policy);
  }

  lemma LeavesInWindows(windows: seq<WindowState>, i: nat)
    requires i < |windows|
    ensures forall p :: p in Leaves(windows[i].layout) ==> p in WindowLeaves(windows)
  {
    hide Leaves, WindowLeaves;
    LeavesOfWindows(windows);
  }

  // ------------------------------------------------------------------ a second round changes nothing

  /** Restart states that a load leaves alone. */
  predicate SettledRestart(r: Option<PersistedRestartState>) {
    r.Some? && (r.value.state.Exited? || r.value.state.Stopped? || r.value.state.Failed?)
  }

  predicate SettledNode(node: PersistedNode)
    requires ValidStructure(node)
  {
    match node
    case SavedLeaf(r) => SettledRestart(r.restart)
    case SavedSplit(_, children) => SettledNode(children[0].node) && SettledNode(children[1].node)
  }

  lemma {:induction false} NormalNodeStable(node: PersistedNode, policy: RestartPolicy)
    requires ValidStructure(node)
    ensures ValidStructure(NormalNode(node, policy))
    ensures NormalNode(NormalNode(node, policy), policy) == NormalNode(node, policy)
    ensures NormalNode(node, policy) == node <==> SettledNode(node)
  {
    match node
    case SavedLeaf(r) =>
    case SavedSplit(_, children) =>
      NormalNodeStable(children[0].node, policy);
      NormalNodeStable(children[1].node, policy);
      assert children == [children[0], children[1]];
  }

  /** A record that loading and saving gives back unchanged; a caller can read this off the record. */
  predicate SettledRecord(r: SessionRecord)
    requires ValidRecord(r)
  {
    r.defaultPolicy != Some(DEFAULT_POLICY) && forall i :: 0 <= i < |r.windows| ==> SettledNode(r.windows[i].layout)
  }

  /**
   Load and save: a record comes back unchanged exactly when it is settled, and what comes back is
   always settled, so a second round changes nothing.
   */
  lemma SecondRoundIsStable(r: SessionRecord)
    requires ValidRecord(r)
    ensures ValidRecord(Normalized(r)) && Normalized(Normalized(r)) == Normalized(r)
    ensures Normalized(r) == r <==> SettledRecord(r)
  {
    hide NormalNode, SettledNode, ValidStructure;
    var n, policy := Normalized(r), RecordPolicy(r);
    forall i | 0 <= i < |r.windows|
      ensures ValidStructure(n.windows[i].layout) && NormalNode(n.windows[i].layout, policy) == n.windows[i].layout
      ensures n.windows[i] == r.windows[i] <==> SettledNode(r.windows[i].layout)
    {
      NormalNodeStable(r.windows[i].layout, policy);
    }
    assert RecordPolicy(n) == policy;
    assert Normalized(n).windows == n.windows;
    if SettledRecord(r) {
      assert n.windows == r.windows;
    }
  }

  // ------------------------------------------------------------------ all records of a start

  /** Two maps say the same about the given ids. */
  ghost predicate PanesAgree(ids: seq<PaneId>, a: map<PaneId, PaneEntry>, b: map<PaneId, PaneEntry>) {
    forall p :: p in ids ==> p in a && p in b && a[p] == b[p]
  }

  ghost predicate RestartAgrees(ids: seq<PaneId>, a: map<PaneId, PersistedRestartState>, b: map<PaneId, PersistedRestartState>) {
    forall p :: p in ids ==> (p in a <==> p in b) && (p in a ==> a[p] == b[p])
  }

  /** A saved tree depends on its own leaves only. */
  lemma {:induction false} SavedFrame(t: LayoutNode, a: map<PaneId, PaneEntry>, b: map<PaneId, PaneEntry>,
                                      ra: map<PaneId, PersistedRestartState>, rb: map<PaneId, PersistedRestartState>)
    requires PanesAgree(Leaves(t), a, b) && RestartAgrees(Leaves(t), ra, rb)
    ensures FromLive(t, a, ra) == FromLive(t, b, rb)
  {
    if t.Split? {
      SavedFrame(t.first, a, b, ra, rb);
      SavedFrame(t.second, a, b, ra, rb);
    } else {
      assert t.id in Leaves(t);
    }
  }

  lemma {:induction false} LoadKeepsSupervisors(e: EngineState, sid: SessionId, policy: RestartPolicy, ws: seq<WindowRecord>, p: PaneId)
    requires NewWindows(e, ws) && p in e.supervisors && p !in Ids(WindowRecords(ws))
    ensures var e1 := LoadWindows(e, sid, policy, ws).0;
            p in e1.supervisors && e1.supervisors[p] == e.supervisors[p]
  {
    hide NewWindows, WindowRecords, ValidStructure, Records, ToLive, Leaves, Restored;
    if ws != [] {
      var prefix, r := ws[..|ws| - 1], ws[|ws| - 1];
      assert ws == prefix + [r];
      NewWindowsPrefix(e, prefix, r);
      LoadKeepsSupervisors(e, sid, policy, prefix, p);
      LoadInserts(r.layout, LoadWindows(e, sid, policy, prefix).0.panes);
    }
  }

  /** Loading one more session changes no other session's record. */
  lemma OtherRecordsKept(e: EngineState, r: SessionRecord, sid: SessionId)
    requires Inv(e) && LoadableRecord(e, r) && sid in e.sessions
    ensures sid in LoadSession(e, r).sessions && Snapshot(LoadSession(e, r), sid) == Snapshot(e, sid)
  {
    hide Inv, LoadableRecord, NewWindows, LoadWindows, WindowRecords, Records, FromLive, WindowLeaves, ValidStructure, InsertAll, SameKeys, Leaves;
    InvKeys(e);
    LoadableNew(e, r);
    WindowsLoaded(e, r.id, RecordPolicy(r), r.windows);
    var e', s := LoadSession(e, r), e.sessions[sid];
    assert sid != r.id by { NewSessionId(e, r); }
    assert e'.sessions[sid] == s;
    var ids := WindowLeaves(s.windows);
    OwnEntriesKept(e, r, sid);
    var ra, rb := PersistedFor(e'.supervisors, ids), PersistedFor(e.supervisors, ids);
    forall i | 0 <= i < |s.windows| ensures FromLive(s.windows[i].layout, e'.panes, ra) == FromLive(s.windows[i].layout, e.panes, rb) {
      LeavesInWindows(s.windows, i);
      SavedFrame(s.windows[i].layout, e'.panes, e.panes, ra, rb);
    }
    assert SaveWindows(s.windows, e'.panes, ra) == SaveWindows(s.windows, e.panes, rb);
  }

  lemma NewSessionId(e: EngineState, r: SessionRecord)
    requires LoadableRecord(e, r)
    ensures r.id !in e.sessions
  {
  }

  /** The panes of a session keep their entries and supervisors while another session is loaded. */
  lemma OwnEntriesKept(e: EngineState, r: SessionRecord, sid: SessionId)
    requires Inv(e) && LoadableRecord(e, r) && sid in e.sessions
    ensures var e', ids := LoadSession(e, r), WindowLeaves(e.sessions[sid].windows);
            && PanesAgree(ids, e'.panes, e.panes)
            && forall p :: p in ids ==> p in e'.supervisors && p in e.supervisors && e'.supervisors[p] == e.supervisors[p]
  {
    hide Inv, LoadableRecord, NewWindows, LoadWindows, WindowRecords, Records, WindowLeaves, ValidStructure, InsertAll, SameKeys, Leaves;
    InvKeys(e);
    LoadableNew(e, r);
    WindowsLoaded(e, r.id, RecordPolicy(r), r.windows);
    InsertedEntries(e.panes, WindowRecords(r.windows));
    SessionPanesKnown(e, sid);
    forall p | p in WindowLeaves(e.sessions[sid].windows)
      ensures p !in Ids(WindowRecords(r.windows))
    {
      NewPanesNew(e, r.windows, p);
    }
    forall p | p in WindowLeaves(e.sessions[sid].windows)
      ensures p in LoadSession(e, r).supervisors && LoadSession(e, r).supervisors[p] == e.supervisors[p]
    {
      LoadKeepsSupervisors(e, r.id, RecordPolicy(r), r.windows, p);
    }
  }

  lemma NewPanesNew(e: EngineState, ws: seq<WindowRecord>, p: PaneId)
    requires NewWindows(e, ws) && p in e.panes
    ensures p !in Ids(WindowRecords(ws))
  {
    hide WindowRecords, ValidStructure, RatiosIn;
  }

  lemma SessionPanesKnown(e: EngineState, sid: SessionId)
    requires Inv(e) && sid in e.sessions
    ensures forall p :: p in WindowLeaves(e.sessions[sid].windows) ==> p in e.panes && p in e.supervisors
  {
    hide Inv, Leaves, WindowLeaves, SessionOk;
    InvKeys(e);
    InvSession(e, sid);
    var s := e.sessions[sid];
    LeavesOfWindows(s.windows);
    forall p | p in WindowLeaves(s.windows) ensures p in e.paneWindow {
      var i :| 0 <= i < |s.windows| && p in Leaves(s.windows[i].layout);
      assert HasPane(s, s.windows[i].id, p);
    }
  }

  /** After the start of a daemon, a snapshot of each session that was loaded is its record, normalized. */
  lemma {:induction false} LoadedSnapshots(e: EngineState, records: seq<SessionRecord>, i: nat)
    requires Inv(e) && LoadableRecords(e, records) && i < |records|
    requires forall k :: 0 <= k < |records| ==> ValidRecord(records[k])
    ensures var e' := DoLoad(e, records);
            records[i].id in e'.sessions && Snapshot(e', records[i].id) == Normalized(records[i])
  {
    hide Inv, LoadableRecord, LoadSession, ValidRecord, Snapshot, Normalized;
    var prefix, r := records[..|records| - 1], records[|records| - 1];
    LoadInv(e, prefix);
    if i == |records| - 1 {
      SaveOfLoaded(DoLoad(e, prefix), r);
    } else {
      LoadedSnapshots(e, prefix, i);
      OtherRecordsKept(DoLoad(e, prefix), r, records[i].id);
    }
  }
}
