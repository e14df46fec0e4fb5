/**
 Loading records from disk keeps the engine's invariant, and saving what was loaded gives back the
 records: crates/tymux-core/src/engine.rs, lines 354-401, with crates/tymux-core/src/persistence.rs.
 */
module EngineLoad {
  import opened Common
  import opened Restart
  import opened Layout
  import opened Persistence
  import opened Engine
  import opened EngineInv

  lemma DistinctParts(a: seq<PaneRecord>, b: seq<PaneRecord>)
    requires DistinctIds(a + b)
    ensures DistinctIds(a) && DistinctIds(b)
    ensures forall x :: x in Ids(a) ==> x !in Ids(b)
    ensures Ids(a + b) == Ids(a) + Ids(b)
  {
    var ab := a + b;
    assert forall i :: 0 <= i < |a| ==> ab[i] == a[i];
    assert forall i :: 0 <= i < |b| ==> ab[|a| + i] == b[i];
  }

  /** A loaded tree is as good as its record. */
  lemma {:induction false} TreeOk(node: PersistedNode, panes: map<PaneId, PaneEntry>)
    requires ValidStructure(node) && RatiosIn(node) && DistinctIds(Records(node))
    ensures var t := ToLive(node, panes).tree;
            Distinct(t) && RatiosOk(t) && Loadable(t) && Leaves(t) == Ids(Records(node))
  {
    LoadInserts(node, panes);
    match node
    case SavedLeaf(_) =>
    case SavedSplit(_, children) =>
      var a, b := children[0].node, children[1].node;
      DistinctParts(Records(a), Records(b));
      TreeOk(a, panes);
      TreeOk(b, ToLive(a, panes).panes);
  }

  /** A session that holds nothing but the given windows. */
  function Holding(windows: seq<WindowState>): SessionState {
    SessionState(0, "", windows, 0, DEFAULT_POLICY)
  }

  /** The pane index `m1` is `m` plus the panes of `s`, and nothing of `m` overwritten. */
  ghost predicate PanesIndexed(m: map<PaneId, WindowId>, m1: map<PaneId, WindowId>, s: SessionState) {
    && (forall p :: p in m1 ==> p in m || HasPane(s, m1[p], p))
    && (forall w, p :: HasPane(s, w, p) ==> p in m1 && m1[p] == w && p !in m)
    && (forall p :: p in m ==> p in m1 && m1[p] == m[p])
  }

  ghost predicate WindowsIndexed(m: map<WindowId, SessionId>, m1: map<WindowId, SessionId>, s: SessionState, sid: SessionId) {
    && (forall w :: w in m1 ==> w in m || HasWindow(s, w))
    && (forall w :: HasWindow(s, w) ==> w in m1 && m1[w] == sid)
    && (forall w :: w in m ==> w in m1 && m1[w] == m[w])
  }

  lemma PanesAppended(m: map<PaneId, WindowId>, m1: map<PaneId, WindowId>, s: SessionState, s': SessionState, w: WindowState)
    requires PanesIndexed(m, m1, s) && s'.windows == s.windows + [w]
    requires forall p :: p in Leaves(w.layout) ==> p !in m && forall w' :: !HasPane(s, w', p)
    ensures PanesIndexed(m, IndexAll(m1, Leaves(w.layout), w.id), s')
  {
    hide HasPane, HasWindow, Leaves;
    WindowAppended(s, s', w);
    assert forall p :: p in Leaves(w.layout) ==> p !in m1;
  }

  lemma WindowsAppended(m: map<WindowId, SessionId>, m1: map<WindowId, SessionId>, s: SessionState, s': SessionState, w: WindowState,
                        sid: SessionId)
    requires WindowsIndexed(m, m1, s, sid) && s'.windows == s.windows + [w] && w.id !in m
    ensures WindowsIndexed(m, m1[w.id := sid], s', sid)
  {
    hide HasPane, HasWindow, Leaves;
    WindowAppended(s, s', w);
  }

  /** What loading the windows `ws` did: index, keys and shape. */
  ghost predicate LoadedSoFar(e: EngineState, e1: EngineState, sid: SessionId, ws: seq<WindowRecord>, windows: seq<WindowState>)
    requires forall i :: 0 <= i < |ws| ==> ValidStructure(ws[i].layout)
  {
    var s := Holding(windows);
    && e1.sessions == e.sessions && SameKeys(e1) && SessionOk(0, s)
    && e1.panes == InsertAll(e.panes, WindowRecords(ws))
    && PanesIndexed(e.paneWindow, e1.paneWindow, s)
    && WindowsIndexed(e.windowSession, e1.windowSession, s, sid)
    && (forall w, p :: HasPane(s, w, p) ==> p in Ids(WindowRecords(ws)))
    && |windows| == |ws| && (forall i :: 0 <= i < |ws| ==> windows[i].id == ws[i].id)
  }

  lemma {:induction false} WindowsLoaded(e: EngineState, sid: SessionId, policy: RestartPolicy, ws: seq<WindowRecord>)
    requires SameKeys(e) && NewWindows(e, ws)
    ensures var (e1, windows) := LoadWindows(e, sid, policy, ws);
            LoadedSoFar(e, e1, sid, ws, windows)
  {
    hide HasPane, HasWindow, SessionOk, Records, RatiosIn, LoadedSoFar, NewWindows, LoadWindow, WindowRecords, SameKeys;
    if ws == [] {
      NothingLoaded(e, sid);
    } else {
      var prefix, r := ws[..|ws| - 1], ws[|ws| - 1];
      assert ws == prefix + [r];
      NewWindowsPrefix(e, prefix, r);
      WindowsLoaded(e, sid, policy, prefix);
      var (e1, windows) := LoadWindows(e, sid, policy, prefix);
      OneMoreLoaded(e, e1, sid, policy, prefix, windows, r);
    }
  }

  /** Valid window records whose ids are new and distinct. */
  ghost predicate NewWindows(e: EngineState, ws: seq<WindowRecord>) {
    && (forall i :: 0 <= i < |ws| ==> ValidStructure(ws[i].layout) && RatiosIn(ws[i].layout) && ws[i].id !in e.windowSession)
    && (forall i, j :: 0 <= i < j < |ws| ==> ws[i].id != ws[j].id)
    && DistinctIds(WindowRecords(ws))
    && (forall p :: p in Ids(WindowRecords(ws)) ==> p !in e.panes)
  }

  lemma NothingLoaded(e: EngineState, sid: SessionId)
    requires SameKeys(e)
    ensures LoadedSoFar(e, e, sid, [], [])
  {
  }

  lemma NewWindowsPrefix(e: EngineState, prefix: seq<WindowRecord>, r: WindowRecord)
    requires NewWindows(e, prefix + [r])
    ensures NewWindows(e, prefix) && ValidStructure(r.layout) && RatiosIn(r.layout) && DistinctIds(Records(r.layout))
    ensures forall i :: 0 <= i < |prefix| ==> ValidStructure(prefix[i].layout)
    ensures r.id !in e.windowSession && forall i :: 0 <= i < |prefix| ==> prefix[i].id != r.id
    ensures WindowRecords(prefix + [r]) == WindowRecords(prefix) + Records(r.layout)
    ensures Ids(WindowRecords(prefix + [r])) == Ids(WindowRecords(prefix)) + Ids(Records(r.layout))
    ensures forall p :: p in Ids(Records(r.layout)) ==> p !in e.panes && p !in Ids(WindowRecords(prefix))
  {
    hide ValidStructure, RatiosIn, Records, WindowRecords, DistinctIds, Ids;
    WindowsPrefix(e, prefix, r);
    RecordsAppended(prefix, r);
    DistinctParts(WindowRecords(prefix), Records(r.layout));
    var a, b := Ids(WindowRecords(prefix)), Ids(Records(r.layout));
    assert forall p :: p in a + b <==> p in a || p in b;
  }

  /** The part of `NewWindows` that is about one window at a time. */
  lemma WindowsPrefix(e: EngineState, prefix: seq<WindowRecord>, r: WindowRecord)
    requires NewWindows(e, prefix + [r])
    ensures ValidStructure(r.layout) && RatiosIn(r.layout) && r.id !in e.windowSession
    ensures forall i :: 0 <= i < |prefix| ==>
              ValidStructure(prefix[i].layout) && RatiosIn(prefix[i].layout) && prefix[i].id !in e.windowSession && prefix[i].id != r.id
    ensures forall i, j :: 0 <= i < j < |prefix| ==> prefix[i].id != prefix[j].id
  {
    hide ValidStructure, RatiosIn, WindowRecords, DistinctIds;
    var ws := prefix + [r];
    assert ws[|prefix|] == r;
    assert forall i :: 0 <= i < |prefix| ==> ws[i] == prefix[i];
  }

  lemma RecordsAppended(prefix: seq<WindowRecord>, r: WindowRecord)
    requires forall i :: 0 <= i < |prefix| ==> ValidStructure(prefix[i].layout)
    requires forall i :: 0 <= i < |prefix + [r]| ==> ValidStructure((prefix + [r])[i].layout)
    requires ValidStructure(r.layout)
    ensures WindowRecords(prefix + [r]) == WindowRecords(prefix) + Records(r.layout)
  {
    hide ValidStructure, Records;
    assert (prefix + [r])[..|prefix + [r]| - 1] == prefix;
  }

  lemma OneMoreLoaded(e: EngineState, e1: EngineState, sid: SessionId, policy: RestartPolicy, prefix: seq<WindowRecord>,
                      windows: seq<WindowState>, r: WindowRecord)
    requires SameKeys(e) && NewWindows(e, prefix + [r])
    requires forall i :: 0 <= i < |prefix| ==> ValidStructure(prefix[i].layout)
    requires LoadedSoFar(e, e1, sid, prefix, windows)
    ensures NewWindows(e, prefix) && ValidStructure(r.layout)
    ensures var (e2, last) := LoadWindow(e1, sid, policy, r);
            LoadedSoFar(e, e2, sid, prefix + [r], windows + [last])
  {
    hide HasPane, HasWindow, SessionOk, Records, RatiosIn, NewWindows, WindowRecords, Restored, ToLive, Leaves, PanesIndexed, WindowsIndexed, DistinctIds, InsertAll, WindowOk;
    NewWindowsPrefix(e, prefix, r);
    TreeOk(r.layout, e1.panes);
    LoadInserts(r.layout, e1.panes);
    InsertConcat(e.panes, WindowRecords(prefix), Records(r.layout));
    var (e2, last) := LoadWindow(e1, sid, policy, r);
    var s, s' := Holding(windows), Holding(windows + [last]);
    WindowAppended(s, s', last);
    assert !HasWindow(s, r.id) by { NotAmong(s, r.id); }
    assert WindowOk(last) by { LoadedWindowOk(last); }
    AppendedOk(s, s', last);
    PanesAppended(e.paneWindow, e1.paneWindow, s, s', last);
    WindowsAppended(e.windowSession, e1.windowSession, s, s', last, sid);
    InsertedEntries(e1.panes, Records(r.layout));
    assert SameKeys(e2);
  }

  lemma NotAmong(s: SessionState, w: WindowId)
    requires forall i :: 0 <= i < |s.windows| ==> s.windows[i].id != w
    ensures !HasWindow(s, w)
  {
  }

  lemma LoadedWindowOk(w: WindowState)
    requires Distinct(w.layout) && RatiosOk(w.layout) && Loadable(w.layout) && w.rows == DEFAULT_ROWS && w.cols == DEFAULT_COLS
    ensures WindowOk(w)
  {
  }

  lemma AppendedOk(s: SessionState, s': SessionState, w: WindowState)
    requires SessionOk(0, s) && WindowOk(w) && !HasWindow(s, w.id) && s' == s.(windows := s.windows + [w])
    ensures SessionOk(0, s')
  {
    hide WindowOk;
    forall i | 0 <= i < |s.windows| ensures s.windows[i].id != w.id {
      assert HasWindow(s, s.windows[i].id);
    }
  }

  lemma SameWindows(s: SessionState, t: SessionState)
    requires s.windows == t.windows
    ensures forall w, p :: HasPane(s, w, p) <==> HasPane(t, w, p)
    ensures forall w :: HasWindow(s, w) <==> HasWindow(t, w)
    ensures SessionOk(s.id, s) <==> SessionOk(t.id, t)
  {
    hide WindowOk, Leaves;
    forall w, p ensures HasPane(s, w, p) <==> HasPane(t, w, p) {}
  }

  /** Loading one record keeps the invariant: what is indexed is what the rebuilt layouts hold. */
  lemma LoadSessionInv(e: EngineState, r: SessionRecord)
    requires Inv(e) && LoadableRecord(e, r)
    ensures Inv(LoadSession(e, r))
  {
    hide HasPane, HasWindow, SessionOk, SameKeys, KeyedById, Inv, WindowRecords, Records, OthersKept, OwnScanned, LoadWindows, Indexed, DistinctIds, RatiosIn, InsertAll;
    InvKeys(e);
    assert NewWindows(e, r.windows) by { LoadableNew(e, r); }
    WindowsLoaded(e, r.id, RecordPolicy(r), r.windows);
    var (e1, windows) := LoadWindows(e, r.id, RecordPolicy(r), r.windows);
    var e' := LoadSession(e, r);
    SameWindows(e'.sessions[r.id], Holding(windows));
    LoadedOwn(e, e', r.id, Holding(windows));
    LoadedKeyed(e.panes, WindowRecords(r.windows));
    assert SameKeys(e') by { hide *; KeysOnly(e1, e'); }
    OneSessionChanged(e, e', r.id);
  }

  lemma KeysOnly(e: EngineState, e': EngineState)
    requires SameKeys(e) && e'.panes == e.panes && e'.paneWindow == e.paneWindow && e'.supervisors == e.supervisors
    ensures SameKeys(e')
  {
  }

  lemma LoadableNew(e: EngineState, r: SessionRecord)
    requires LoadableRecord(e, r)
    ensures NewWindows(e, r.windows) && ValidRecord(r)
  {
    hide WindowRecords, DistinctIds, ValidStructure, RatiosIn;
  }

  lemma LoadedKeyed(panes: map<PaneId, PaneEntry>, records: seq<PaneRecord>)
    requires KeyedById(panes)
    ensures KeyedById(InsertAll(panes, records))
  {
    hide InsertAll;
    InsertedEntries(panes, records);
  }

  lemma LoadedOwn(e: EngineState, e': EngineState, sid: SessionId, s: SessionState)
    requires Inv(e) && sid !in e.sessions && sid in e'.sessions && e'.sessions == e.sessions[sid := e'.sessions[sid]]
    requires PanesIndexed(e.paneWindow, e'.paneWindow, s) && WindowsIndexed(e.windowSession, e'.windowSession, s, sid)
    requires forall w, p :: HasPane(e'.sessions[sid], w, p) <==> HasPane(s, w, p)
    requires forall w :: HasWindow(e'.sessions[sid], w) <==> HasWindow(s, w)
    ensures OthersKept(e, e', sid) && OwnScanned(e, e', sid) && Indexed(e', sid)
  {
    hide HasPane, HasWindow, SessionOk, Inv;
    NewOwner(e, sid);
  }

  lemma {:induction false} LoadInv(e: EngineState, records: seq<SessionRecord>)
    requires Inv(e) && LoadableRecords(e, records)
    requires forall i :: 0 <= i < |records| ==> ValidRecord(records[i])
    ensures Inv(DoLoad(e, records))
  {
    hide Inv, LoadableRecord, LoadSession, ValidRecord;
    if records != [] {
      var prefix := records[..|records| - 1];
      LoadInv(e, prefix);
      LoadSessionInv(DoLoad(e, prefix), records[|records| - 1]);
    }
  }
}
