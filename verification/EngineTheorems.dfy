/**
 What holds of the engine after every sequence of whole operations, and across a daemon restart.
 */
module EngineTheorems {
  import opened Common
  import opened Restart
  import opened Layout
  import opened Persistence
  import opened Engine
  import opened EngineInv
  import opened EngineLoad

  lemma InvNext(e: EngineState, op: Op)
    requires Inv(e) && RatiosEverywhere(e) && Enabled(e, op)
    ensures Inv(Next(e, op))
  {
    hide Inv, RatiosEverywhere, DoCreateSession, DoSplit, DoClose, DoCreateWindow, DoKill, DoLoad, DoStartRestored, DoResize, DoSupervise, ValidRecord, LoadableRecords;
    match op
    case CreateSession(sid, wid, name, policy, spawn) => CreateSessionInv(e, sid, wid, name, policy, spawn);
    case SplitPane(target, o, spawn) => SplitInv(e, target, o, spawn);
    case ClosePane(p) => CloseInv(e, p);
    case CreateWindow(sid, wid, spawn) => CreateWindowInv(e, sid, wid, spawn);
    case KillSession(sid) => KillInv(e, sid);
    case LoadPersisted(records) => LoadInv(e, records);
    case StartRestored(p, fallback, spawn) => StartRestoredInv(e, p, fallback, spawn);
    case ResizeWindow(w, rows, cols) => ResizeInv(e, w, rows, cols);
    case Supervise(p, sup) => SuperviseInv(e, p, sup);
  }

  lemma InvEmpty()
    ensures Inv(EMPTY)
  {
  }

  lemma {:induction false} InvRun(e: EngineState, ops: seq<Op>)
    requires Inv(e) && Run(e, ops)
    ensures Inv(After(e, ops)) && RatiosEverywhere(After(e, ops))
  {
    hide Inv, RatiosEverywhere, Next, Enabled;
    if ops != [] {
      var prefix := ops[..|ops| - 1];
      InvRun(e, prefix);
      InvNext(After(e, prefix), ops[|ops| - 1]);
    }
    InvRatios(After(e, ops));
  }

  ghost predicate IndexSays(e: EngineState, p: PaneId, w: WindowId) {
    p in e.paneWindow && e.paneWindow[p] == w
  }

  ghost predicate WindowIndexSays(e: EngineState, w: WindowId, sid: SessionId) {
    w in e.windowSession && e.windowSession[w] == sid
  }

  /** A scan of every layout of every session finds pane `p` in window `w` of session `sid`. */
  ghost predicate Found(e: EngineState, sid: SessionId, w: WindowId, p: PaneId) {
    sid in e.sessions && HasPane(e.sessions[sid], w, p)
  }

  ghost predicate FoundWindow(e: EngineState, sid: SessionId, w: WindowId) {
    sid in e.sessions && HasWindow(e.sessions[sid], w)
  }

  /**
   Index agrees with scan: after any sequence of whole create, split, close, new-window, kill, load,
   start and resize operations, the reverse index holds exactly the pairs that scanning every layout
   finds, and those leaves are exactly the panes and exactly the supervised panes.
   */
  lemma IndexAgreesWithScan(ops: seq<Op>)
    requires Run(EMPTY, ops)
    ensures var e := After(EMPTY, ops);
            && (forall p, w :: IndexSays(e, p, w) <==> exists sid :: Found(e, sid, w, p))
            && (forall w, sid :: WindowIndexSays(e, w, sid) <==> FoundWindow(e, sid, w))
            && (forall p :: p in e.panes <==> exists sid, w :: Found(e, sid, w, p))
            && (forall p :: p in e.supervisors <==> p in e.panes)
  {
    hide Next, Run, After, HasPane, HasWindow, SessionOk;
    InvEmpty();
    InvRun(EMPTY, ops);
    AgreesFromInv(After(EMPTY, ops));
  }

  lemma AgreesFromInv(e: EngineState)
    requires Inv(e)
    ensures forall p, w :: IndexSays(e, p, w) <==> exists sid :: Found(e, sid, w, p)
    ensures forall w, sid :: WindowIndexSays(e, w, sid) <==> FoundWindow(e, sid, w)
    ensures forall p :: p in e.panes <==> exists sid, w :: Found(e, sid, w, p)
    ensures forall p :: p in e.supervisors <==> p in e.panes
  {
    hide HasPane, HasWindow, SessionOk, KeyedById;
    forall p | p in e.paneWindow ensures Found(e, e.windowSession[e.paneWindow[p]], e.paneWindow[p], p) {
      assert PaneScanned(e, p);
    }
    forall sid, w, p | Found(e, sid, w, p) ensures p in e.paneWindow && e.paneWindow[p] == w {
      assert Indexed(e, sid);
    }
    forall w | w in e.windowSession ensures FoundWindow(e, e.windowSession[w], w) {
      assert WindowScanned(e, w);
    }
    forall sid, w | FoundWindow(e, sid, w) ensures w in e.windowSession && e.windowSession[w] == sid {
      assert Indexed(e, sid);
    }
  }

  /** No pane stands in two windows, no window in two sessions, and no leaf twice in a tree. */
  lemma EachPaneOnce(ops: seq<Op>, p: PaneId, sid: SessionId, w: WindowId, sid': SessionId, w': WindowId)
    requires Run(EMPTY, ops)
    requires Found(After(EMPTY, ops), sid, w, p) && Found(After(EMPTY, ops), sid', w', p)
    ensures sid == sid' && w == w'
  {
    hide Next, Run, After, HasPane, HasWindow, SessionOk, Inv;
    InvEmpty();
    InvRun(EMPTY, ops);
    var e := After(EMPTY, ops);
    AgreesFromInv(e);
    PaneImpliesWindow(e.sessions[sid], w, p);
    PaneImpliesWindow(e.sessions[sid'], w', p);
    assert IndexSays(e, p, w) && IndexSays(e, p, w');
    assert FoundWindow(e, sid, w) && FoundWindow(e, sid', w');
    assert WindowIndexSays(e, w, sid) && WindowIndexSays(e, w', sid');
  }

  /** An operation on a pane fails to find it exactly when no scan would. */
  lemma LookupNeverLies(ops: seq<Op>, p: PaneId)
    requires Run(EMPTY, ops)
    ensures var e := After(EMPTY, ops);
            && (Locate(e, p).None? <==> forall sid, w :: !Found(e, sid, w, p))
            && (Locate(e, p).Some? ==> Found(e, Locate(e, p).value.session, Locate(e, p).value.window, p))
  {
    hide Next, Run, After, HasWindow, SessionOk, Inv, Leaves, Locate;
    InvEmpty();
    InvRun(EMPTY, ops);
    var e := After(EMPTY, ops);
    AgreesFromInv(e);
    LocateFinds(e, p);
  }

  // ------------------------------------------------------------------ the active window

  predicate ActiveOk(s: SessionState) {
    HasWindow(s, s.activeWindow)
  }

  /** A record whose active window is none of its windows: validation lets it pass. */
  predicate BadRecord(r: SessionRecord) {
    forall i :: 0 <= i < |r.windows| ==> r.windows[i].id != r.activeWindow
  }

  predicate LoadsBad(op: Op, sid: SessionId) {
    op.LoadPersisted? && HoldsBad(op.records, sid)
  }

  /** The operation gives session `sid` a new active window: one it opens, or the first of those left when one closes. */
  predicate Repairs(e: EngineState, op: Op, sid: SessionId) {
    match op
    case CreateWindow(owner, _, spawn) => owner == sid && spawn.Some?
    case ClosePane(p) =>
      var place := Locate(e, p);
      && place.Some? && place.value.session == sid
      && Remove(e.sessions[sid].windows[place.value.position].layout, p).WindowEmpty?
    case _ => false
  }

  /** Exactly the sessions that were bad and are not repaired are bad after the operation. */
  ghost predicate BadKept(e: EngineState, op: Op, e': EngineState) {
    forall sid :: sid in e'.sessions ==>
      (!ActiveOk(e'.sessions[sid]) <==> sid in e.sessions && !ActiveOk(e.sessions[sid]) && !Repairs(e, op, sid))
  }

  lemma SetWindowKeepsActive(s: SessionState, i: nat, w: WindowState)
    requires i < |s.windows| && w.id == s.windows[i].id && SessionOk(s.id, s)
    ensures ActiveOk(SetWindow(s, i, w)) <==> ActiveOk(s)
  {
    hide HasWindow, HasPane, SessionOk, Leaves;
    WindowReplaced(s, i, w);
  }

  lemma SplitActive(e: EngineState, op: Op)
    requires Inv(e) && RatiosEverywhere(e) && op.SplitPane?
    ensures BadKept(e, op, DoSplit(e, op.target, op.orientation, op.spawn))
  {
    hide Inv, ActiveOk, SplitVerdict, SplitLeaf, SessionOk, AddPane, Locate, Registered;
    AddPaneKeeps();
    LocateFinds(e, op.target);
    var place := Locate(e, op.target);
    if place.Some? && op.spawn.Some? {
      var sid, i := place.value.session, place.value.position;
      var s := e.sessions[sid];
      InvSession(e, sid);
      SetWindowKeepsActive(s, i, s.windows[i].(layout := SplitLeaf(s.windows[i].layout, op.target, op.orientation, op.spawn.value.id)));
    }
  }

  lemma AddPaneKeeps()
    ensures forall e, spawn, w, policy :: AddPane(e, spawn, w, policy).sessions == e.sessions
  {
  }

  lemma CloseActive(e: EngineState, p: PaneId)
    requires Inv(e)
    ensures BadKept(e, ClosePane(p), DoClose(e, p))
  {
    hide Inv, HasWindow, Remove, SessionOk, Locate, ActiveOk;
    LocateFinds(e, p);
    var place := Locate(e, p);
    if place.Some? {
      var sid, i := place.value.session, place.value.position;
      var s := e.sessions[sid];
      InvSession(e, sid);
      var out := Remove(s.windows[i].layout, p);
      if out.Collapsed? {
        SetWindowKeepsActive(s, i, s.windows[i].(layout := out.tree));
      } else {
        CloseWindowActive(s, i);
      }
    }
  }

  lemma CloseWindowActive(s: SessionState, i: nat)
    requires i < |s.windows|
    ensures CloseWindow(s, i).windows != [] ==> ActiveOk(CloseWindow(s, i))
  {
    var s' := CloseWindow(s, i);
    if s'.windows != [] {
      assert s'.windows[0].id == s'.activeWindow;
    }
  }

  lemma CreateActive(e: EngineState, op: Op)
    requires (op.CreateSession? && op.sid !in e.sessions) || op.CreateWindow?
    requires RatiosEverywhere(e)
    ensures BadKept(e, op, Next(e, op))
  {
    hide Registered, RatiosEverywhere;
    match op
    case CreateSession(sid, wid, name, policy, spawn) =>
      if policy.Valid() && spawn.Some? {
        assert Next(e, op).sessions[sid].windows[0].id == wid;
      }
    case CreateWindow(sid, wid, spawn) =>
      if spawn.Some? && sid in e.sessions {
        var s' := Next(e, op).sessions[sid];
        assert s'.windows[|s'.windows| - 1].id == wid;
      }
  }

  lemma ResizeActive(e: EngineState, op: Op)
    requires Inv(e) && op.ResizeWindow?
    ensures BadKept(e, op, DoResize(e, op.window, op.rows, op.cols))
  {
    hide Inv, ActiveOk, SessionOk;
    var place := LocateWindow(e, op.window);
    if place.Some? {
      var sid, i := place.value.session, place.value.position;
      InvSession(e, sid);
      SessionIdOk(sid, e.sessions[sid]);
      SetWindowKeepsActive(e.sessions[sid], i, e.sessions[sid].windows[i].(rows := op.rows, cols := op.cols));
    }
  }

  lemma {:induction false} LoadedWindowIds(e: EngineState, sid: SessionId, policy: RestartPolicy, ws: seq<WindowRecord>)
    requires forall i :: 0 <= i < |ws| ==> ValidStructure(ws[i].layout)
    ensures var (e1, windows) := LoadWindows(e, sid, policy, ws);
            e1.sessions == e.sessions && |windows| == |ws| && forall i :: 0 <= i < |ws| ==> windows[i].id == ws[i].id
  {
    hide ToLive, ValidStructure, Restored;
    if ws != [] {
      LoadedWindowIds(e, sid, policy, ws[..|ws| - 1]);
    }
  }

  predicate Holds(records: seq<SessionRecord>, sid: SessionId) {
    exists i :: 0 <= i < |records| && records[i].id == sid
  }

  predicate HoldsBad(records: seq<SessionRecord>, sid: SessionId) {
    exists i :: 0 <= i < |records| && records[i].id == sid && BadRecord(records[i])
  }

  lemma HoldsSnoc(prefix: seq<SessionRecord>, r: SessionRecord, sid: SessionId)
    ensures Holds(prefix + [r], sid) <==> Holds(prefix, sid) || r.id == sid
    ensures HoldsBad(prefix + [r], sid) <==> HoldsBad(prefix, sid) || (r.id == sid && BadRecord(r))
  {
    hide BadRecord;
    var records := prefix + [r];
    assert records[|prefix|] == r;
    assert forall i :: 0 <= i < |prefix| ==> records[i] == prefix[i];
    if Holds(prefix, sid) {
      var i :| 0 <= i < |prefix| && prefix[i].id == sid;
      assert records[i].id == sid;
    }
    if HoldsBad(prefix, sid) {
      var i :| 0 <= i < |prefix| && prefix[i].id == sid && BadRecord(prefix[i]);
      assert records[i].id == sid && BadRecord(records[i]);
    }
  }

  /** A load adds exactly its records' sessions, and the bad ones among them are exactly those of bad records. */
  lemma {:induction false} LoadActive(e: EngineState, records: seq<SessionRecord>, sid: SessionId)
    requires LoadableRecords(e, records) && forall i :: 0 <= i < |records| ==> ValidRecord(records[i])
    ensures var e' := DoLoad(e, records);
            && (sid in e'.sessions <==> sid in e.sessions || Holds(records, sid))
            && !(sid in e.sessions && Holds(records, sid))
            && (sid in e'.sessions ==>
                  (!ActiveOk(e'.sessions[sid]) <==> HoldsBad(records, sid) || (sid in e.sessions && !ActiveOk(e.sessions[sid]))))
  {
    hide LoadWindows, ActiveOk, BadRecord, ValidStructure, Holds, HoldsBad, LoadableRecord;
    if records == [] {
      NoRecords(sid);
    } else {
      var prefix, r := records[..|records| - 1], records[|records| - 1];
      assert records == prefix + [r];
      LoadActive(e, prefix, sid);
      HoldsSnoc(prefix, r, sid);
      var e1 := DoLoad(e, prefix);
      NewToEngine(e1, r);
      LoadedWindowIds(e1, r.id, RecordPolicy(r), r.windows);
      ActiveAsRecorded(DoLoad(e, records).sessions[r.id], r);
      BadIsHeld(prefix, sid);
    }
  }

  lemma NoRecords(sid: SessionId)
    ensures !Holds([], sid) && !HoldsBad([], sid)
  {
  }

  lemma BadIsHeld(records: seq<SessionRecord>, sid: SessionId)
    ensures HoldsBad(records, sid) ==> Holds(records, sid)
  {
  }

  lemma NewToEngine(e: EngineState, r: SessionRecord)
    requires LoadableRecord(e, r)
    ensures r.id !in e.sessions
  {
  }

  lemma ActiveAsRecorded(s: SessionState, r: SessionRecord)
    requires |s.windows| == |r.windows| && s.activeWindow == r.activeWindow
    requires forall i :: 0 <= i < |r.windows| ==> s.windows[i].id == r.windows[i].id
    ensures ActiveOk(s) <==> !BadRecord(r)
  {
  }

  /** One operation, exactly: a session is bad after it iff it was loaded from a bad record now, or was bad and is not repaired. */
  lemma ActiveNextIff(e: EngineState, op: Op, sid: SessionId)
    requires Inv(e) && RatiosEverywhere(e) && Enabled(e, op) && sid in Next(e, op).sessions
    ensures !ActiveOk(Next(e, op).sessions[sid]) <==>
              LoadsBad(op, sid) || (sid in e.sessions && !ActiveOk(e.sessions[sid]) && !Repairs(e, op, sid))
  {
    hide Inv, RatiosEverywhere, ActiveOk, DoCreateSession, DoSplit, DoClose, DoCreateWindow, DoLoad, DoResize, ValidRecord, LoadableRecords, HoldsBad, Holds;
    match op
    case CreateSession(_, _, _, _, _) => CreateActive(e, op);
    case SplitPane(_, _, _) => SplitActive(e, op);
    case ClosePane(p) => CloseActive(e, p);
    case CreateWindow(_, _, _) => CreateActive(e, op);
    case KillSession(_) =>
    case LoadPersisted(records) => LoadActive(e, records, sid);
    case StartRestored(_, _, _) =>
    case ResizeWindow(_, _, _) => ResizeActive(e, op);
    case Supervise(_, _) =>
  }

  /** From operation `j` of a run on nothing is different for session `sid`: it lives on and is not repaired. */
  ghost predicate LeftAlone(ops: seq<Op>, j: nat, sid: SessionId)
    requires j < |ops| && Run(EMPTY, ops)
  {
    RunPrefix(EMPTY, ops, j);
    RunPrefix(EMPTY, ops, j + 1);
    sid in After(EMPTY, ops[..j + 1]).sessions && !Repairs(After(EMPTY, ops[..j]), ops[j], sid)
  }

  lemma {:induction false} RunPrefix(e: EngineState, ops: seq<Op>, k: nat)
    requires Run(e, ops) && k <= |ops|
    ensures Run(e, ops[..k])
  {
    hide Next, Enabled, RatiosEverywhere;
    if k == |ops| {
      assert ops[..k] == ops;
    } else {
      RunPrefix(e, ops[..|ops| - 1], k);
      assert ops[..|ops| - 1][..k] == ops[..k];
    }
  }

  /** The session was loaded from a bad record and has been left alone ever since. */
  ghost predicate BadSince(ops: seq<Op>, i: nat, sid: SessionId)
    requires Run(EMPTY, ops)
  {
    i < |ops| && LoadsBad(ops[i], sid) && forall j :: i < j < |ops| ==> LeftAlone(ops, j, sid)
  }

  /**
   The active window, exactly: after any run the active window of a session names none of its windows
   iff the session was loaded from a record whose active window was none of its windows, and since then
   it has neither opened a window nor lost one. Nothing this daemon does breaks it.
   */
  lemma {:induction false} ActiveWindowExistsIff(ops: seq<Op>, sid: SessionId)
    requires Run(EMPTY, ops) && sid in After(EMPTY, ops).sessions
    ensures !ActiveOk(After(EMPTY, ops).sessions[sid]) <==> exists i: nat :: BadSince(ops, i, sid)
  {
    hide Next, ActiveOk, Enabled, Inv, LoadsBad, RatiosEverywhere, Repairs, BadSince;
    if ops != [] {
      var prefix, op := ops[..|ops| - 1], ops[|ops| - 1];
      assert ops == prefix + [op];
      InvEmpty();
      InvRun(EMPTY, prefix);
      var e := After(EMPTY, prefix);
      ActiveNextIff(e, op, sid);
      BadSinceSnoc(prefix, op, sid);
      if sid in e.sessions {
        ActiveWindowExistsIff(prefix, sid);
      } else if i: nat :| BadSince(prefix, i, sid) {
        BadIsThere(prefix, i, sid);
      }
    }
  }

  lemma BadSinceSnoc(prefix: seq<Op>, op: Op, sid: SessionId)
    requires Run(EMPTY, prefix + [op]) && Run(EMPTY, prefix) && sid in After(EMPTY, prefix + [op]).sessions
    ensures (exists i: nat :: BadSince(prefix + [op], i, sid)) <==>
              LoadsBad(op, sid) || ((exists i: nat :: BadSince(prefix, i, sid)) && !Repairs(After(EMPTY, prefix), op, sid))
  {
    hide LoadsBad, Repairs, Run, After;
    var ops := prefix + [op];
    assert ops[..|prefix|] == prefix && ops[..|prefix| + 1] == ops && ops[|prefix|] == op;
    assert LeftAlone(ops, |prefix|, sid) <==> !Repairs(After(EMPTY, prefix), op, sid);
    forall j | 0 <= j < |prefix| ensures ops[j] == prefix[j] && (LeftAlone(ops, j, sid) <==> LeftAlone(prefix, j, sid)) {
      assert ops[..j] == prefix[..j] && ops[..j + 1] == prefix[..j + 1];
    }
    if LoadsBad(op, sid) {
      assert BadSince(ops, |prefix|, sid);
    }
    if i: nat :| BadSince(prefix, i, sid) && !Repairs(After(EMPTY, prefix), op, sid) {
      assert BadSince(ops, i, sid);
    }
    if i: nat :| BadSince(ops, i, sid) {
      if i < |prefix| {
        assert LeftAlone(ops, |prefix|, sid);
        assert BadSince(prefix, i, sid);
      }
    }
  }

  /** A session that was loaded bad and left alone is still there. */
  lemma BadIsThere(ops: seq<Op>, i: nat, sid: SessionId)
    requires Run(EMPTY, ops) && BadSince(ops, i, sid)
    ensures sid in After(EMPTY, ops).sessions
  {
    hide Repairs, Inv, RatiosEverywhere, ActiveOk;
    var last := |ops| - 1;
    assert ops[..last + 1] == ops;
    if i == last {
      LoadActive(After(EMPTY, ops[..last]), ops[last].records, sid);
    } else {
      assert LeftAlone(ops, last, sid);
    }
  }

  /** A record that passes validation, and the run that shows its session with an active window it does not have. */
  lemma BadRecordLoads()
    ensures var r := SessionRecord(CURRENT_SCHEMA_VERSION, 5, "", [WindowRecord(1, "0", SavedLeaf(BlankRecord(0)))], 9, None);
            var ops := [LoadPersisted([r])];
            && ValidRecord(r) && BadRecord(r) && Run(EMPTY, ops) && 5 in After(EMPTY, ops).sessions
            && !ActiveOk(After(EMPTY, ops).sessions[5])
  {
    var r := SessionRecord(CURRENT_SCHEMA_VERSION, 5, "", [WindowRecord(1, "0", SavedLeaf(BlankRecord(0)))], 9, None);
    var ops := [LoadPersisted([r])];
    BadRecordLoadable(r);
    hide LoadableRecords, BadRecord, ActiveOk, DoLoad, EMPTY;
    assert ops[..0] == [] && [r][0] == r;
    InvEmpty();
    InvRatios(EMPTY);
    assert Run(EMPTY, []) && After(EMPTY, []) == EMPTY;
    LoadActive(EMPTY, [r], 5);
    assert Holds([r], 5) && HoldsBad([r], 5);
  }

  lemma BadRecordLoadable(r: SessionRecord)
    requires r == SessionRecord(CURRENT_SCHEMA_VERSION, 5, "", [WindowRecord(1, "0", SavedLeaf(BlankRecord(0)))], 9, None)
    ensures ValidRecord(r) && BadRecord(r) && LoadableRecords(EMPTY, [r])
  {
    assert [r][..0] == [];
    assert WindowRecords([]) == [];
    assert r.windows[..0] == [];
    assert WindowRecords(r.windows) == [BlankRecord(0)];
    assert LoadableRecords(EMPTY, []);
  }
}
