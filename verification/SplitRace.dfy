/**
 `split_pane` in two sections: crates/tymux-core/src/engine.rs, lines 687-721. The new leaf is in the
 layout when the `sessions` lock is let go; the pane, its supervisor and its index entry follow.
 The comment above `Engine` promises that a reader never sees a leaf without a pane. This module
 shows what holds instead when other whole operations run between the two sections, and what happens
 when one of them killed the session: the code goes on to index `sessions` by the id that is gone
 (engine.rs, lines 723-727) and panics there with `sessions` and `panes` held.
 */
module SplitRace {
  import opened Common
  import opened Restart
  import opened Layout
  import opened Persistence
  import opened Engine
  import opened EngineInv
  import opened EngineTheorems

  /** A split that spawned its pane, found its target and is allowed. */
  predicate Proceeds(e: EngineState, target: PaneId, o: Orientation)
    requires RatiosEverywhere(e)
  {
    var place := Locate(e, target);
    place.Some? &&
    (var s := e.sessions[place.value.session];
     assert SessionRatios(s);
     var w := s.windows[place.value.position];
     SplitVerdict(w.layout, target, o, w.rows, w.cols).Done?)
  }

  /** After the first section: only the layout has changed. */
  function WithLeaf(e: EngineState, target: PaneId, o: Orientation, added: PaneId): EngineState
    requires RatiosEverywhere(e) && Proceeds(e, target, o)
  {
    var place := Locate(e, target).value;
    var s := e.sessions[place.session];
    var w := s.windows[place.position];
    e.(sessions := e.sessions[place.session := SetWindow(s, place.position, w.(layout := SplitLeaf(w.layout, target, o, added)))])
  }

  /** The second section: pane, supervisor and index entry, under the window found in the first. */
  function Registering(e: EngineState, target: PaneId, o: Orientation, now: EngineState, spawn: Spawn): EngineState
    requires RatiosEverywhere(e) && Proceeds(e, target, o)
  {
    var place := Locate(e, target).value;
    AddPane(now, spawn, place.window, e.sessions[place.session].defaultPolicy)
  }

  lemma TwoSections(e: EngineState, target: PaneId, o: Orientation, spawn: Spawn)
    requires RatiosEverywhere(e) && Proceeds(e, target, o)
    ensures DoSplit(e, target, o, Some(spawn)) == Registering(e, target, o, WithLeaf(e, target, o, spawn.id), spawn)
  {
    hide SplitVerdict, SplitLeaf, Locate, RatiosOk;
  }

  /** Between the sections the new leaf is found by a scan, while no pane, supervisor or index entry has its id. */
  lemma LeafBeforePane(e: EngineState, target: PaneId, o: Orientation, spawn: Spawn)
    requires Inv(e) && RatiosEverywhere(e) && Proceeds(e, target, o) && spawn.id !in e.panes
    ensures var mid, place := WithLeaf(e, target, o, spawn.id), Locate(e, target).value;
            && Found(mid, place.session, place.window, spawn.id)
            && spawn.id !in mid.panes && spawn.id !in mid.supervisors && spawn.id !in mid.paneWindow
  {
    hide Inv, SplitVerdict, SplitLeaf, Locate, HasPane, Leaves, WindowOk, HasWindow;
    InvKeys(e);
    LocateFinds(e, target);
    var place := Locate(e, target).value;
    var s := e.sessions[place.session];
    var w := s.windows[place.position];
    InvSession(e, place.session);
    WindowReplaced(s, place.position, w);
    assert spawn.id !in Leaves(w.layout) by { assert !HasPane(s, w.id, spawn.id); }
    SplitWindowOk(w, target, o, spawn.id);
    WindowReplaced(s, place.position, w.(layout := SplitLeaf(w.layout, target, o, spawn.id)));
  }

  /** Another thread's operation with ids of its own; records are only loaded before any client is served. */
  ghost predicate ByOthers(mid: EngineState, op: Op, added: PaneId) {
    && Enabled(mid, op) && !op.LoadPersisted?
    && ((op.CreateSession? || op.SplitPane? || op.CreateWindow?) && op.spawn.Some? ==> op.spawn.value.id != added)
  }

  /** The operation does not ask for the pane that is not registered yet. */
  predicate Elsewhere(op: Op, added: PaneId) {
    match op
    case SplitPane(target, _, _) => target != added
    case ClosePane(p) => p != added
    case StartRestored(p, _, _) => p != added
    case Supervise(p, _) => p != added
    case _ => true
  }

  /** An operation that asks for the unregistered pane finds nothing and changes nothing. */
  lemma TooEarly(mid: EngineState, op: Op, added: PaneId)
    requires RatiosEverywhere(mid) && !Elsewhere(op, added)
    requires added !in mid.panes && added !in mid.supervisors && added !in mid.paneWindow
    ensures Next(mid, op) == mid
  {
    hide SplitVerdict, SplitLeaf, RatiosEverywhere, RatiosOk, Remove, LocateWindow;
  }

  lemma SameRatios(a: EngineState, b: EngineState)
    requires a.sessions == b.sessions && RatiosEverywhere(a)
    ensures RatiosEverywhere(b)
  {
  }

  lemma SameLookup(mid: EngineState, spawn: Spawn, w: WindowId, policy: RestartPolicy, p: PaneId)
    requires p != spawn.id
    ensures Locate(AddPane(mid, spawn, w, policy), p) == Locate(mid, p)
    ensures forall v :: LocateWindow(AddPane(mid, spawn, w, policy), v) == LocateWindow(mid, v)
  {
    hide Position, Registered;
  }

  /** Registering two panes, or one and discarding another, can be done in either order. */
  lemma AddsCommute(e: EngineState, a: Spawn, wa: WindowId, pa: RestartPolicy, b: Spawn, wb: WindowId, pb: RestartPolicy)
    requires a.id != b.id
    ensures AddPane(AddPane(e, a, wa, pa), b, wb, pb) == AddPane(AddPane(e, b, wb, pb), a, wa, pa)
  {
    hide Registered;
    assert e.panes[a.id := PaneEntry.Live(a.pane)][b.id := PaneEntry.Live(b.pane)] ==
           e.panes[b.id := PaneEntry.Live(b.pane)][a.id := PaneEntry.Live(a.pane)];
    assert e.paneWindow[a.id := wa][b.id := wb] == e.paneWindow[b.id := wb][a.id := wa];
  }

  lemma DropCommutes(e: EngineState, a: Spawn, w: WindowId, policy: RestartPolicy, p: PaneId)
    requires a.id != p
    ensures DropPane(AddPane(e, a, w, policy), p) == AddPane(DropPane(e, p), a, w, policy)
  {
    hide Registered;
    assert e.panes[a.id := PaneEntry.Live(a.pane)] - {p} == (e.panes - {p})[a.id := PaneEntry.Live(a.pane)];
    assert e.paneWindow[a.id := w] - {p} == (e.paneWindow - {p})[a.id := w];
  }

  /** Registering touches neither the sessions nor the windows, and does not look at them. */
  lemma AddsOnlyPane(e: EngineState, sessions: map<SessionId, SessionState>, windows: map<WindowId, SessionId>,
                     a: Spawn, w: WindowId, policy: RestartPolicy)
    ensures AddPane(e, a, w, policy).(sessions := sessions, windowSession := windows)
         == AddPane(e.(sessions := sessions, windowSession := windows), a, w, policy)
    ensures AddPane(e, a, w, policy).sessions == e.sessions && AddPane(e, a, w, policy).windowSession == e.windowSession
  {
    hide Registered;
  }

  /** Registering commutes with an operation that takes or gives other panes. */
  lemma CommutesSplit(mid: EngineState, spawn: Spawn, w: WindowId, policy: RestartPolicy, target: PaneId, o: Orientation,
                      other: Option<Spawn>)
    requires RatiosEverywhere(mid) && target != spawn.id && (other.Some? ==> other.value.id != spawn.id)
    ensures var full := AddPane(mid, spawn, w, policy);
            RatiosEverywhere(full) && DoSplit(full, target, o, other) == AddPane(DoSplit(mid, target, o, other), spawn, w, policy)
  {
    hide SplitVerdict, SplitLeaf, RatiosOk, Locate, AddPane, RatiosEverywhere;
    var full := AddPane(mid, spawn, w, policy);
    AddsOnlyPane(mid, mid.sessions, mid.windowSession, spawn, w, policy);
    SameRatios(mid, full);
    SameLookup(mid, spawn, w, policy, target);
    if Proceeds(mid, target, o) && other.Some? {
      var mid' := WithLeaf(mid, target, o, other.value.id);
      AddsOnlyPane(mid, mid'.sessions, mid.windowSession, spawn, w, policy);
      var place := Locate(mid, target).value;
      var s := mid.sessions[place.session];
      AddsCommute(mid', spawn, w, policy, other.value, s.windows[place.position].id, s.defaultPolicy);
    }
  }

  lemma CommutesClose(mid: EngineState, spawn: Spawn, w: WindowId, policy: RestartPolicy, p: PaneId)
    requires p != spawn.id
    ensures DoClose(AddPane(mid, spawn, w, policy), p) == AddPane(DoClose(mid, p), spawn, w, policy)
  {
    hide Remove, Locate, AddPane, DropPane;
    AddsOnlyPane(mid, mid.sessions, mid.windowSession, spawn, w, policy);
    SameLookup(mid, spawn, w, policy, p);
    var place := Locate(mid, p);
    if place.Some? {
      var s := mid.sessions[place.value.session];
      var v := s.windows[place.value.position];
      var mid' :=
        match Remove(v.layout, p)
        case Collapsed(tree) =>
          mid.(sessions := mid.sessions[place.value.session := SetWindow(s, place.value.position, v.(layout := tree))])
        case WindowEmpty =>
          var s' := CloseWindow(s, place.value.position);
          mid.(sessions := if s'.windows == [] then mid.sessions - {place.value.session} else mid.sessions[place.value.session := s'],
               windowSession := mid.windowSession - {v.id});
      AddsOnlyPane(mid, mid'.sessions, mid'.windowSession, spawn, w, policy);
      DropCommutes(mid', spawn, w, policy, p);
    }
  }

  lemma CommutesResize(mid: EngineState, spawn: Spawn, w: WindowId, policy: RestartPolicy, v: WindowId, rows: nat, cols: nat)
    ensures DoResize(AddPane(mid, spawn, w, policy), v, rows, cols) == AddPane(DoResize(mid, v, rows, cols), spawn, w, policy)
  {
    hide LocateWindow, Registered;
    SameLookup(mid, spawn, w, policy, spawn.id + 1);
  }

  lemma CommutesKill(mid: EngineState, spawn: Spawn, w: WindowId, policy: RestartPolicy, sid: SessionId)
    requires sid in mid.sessions ==> spawn.id !in WindowLeaves(mid.sessions[sid].windows)
    ensures DoKill(AddPane(mid, spawn, w, policy), sid) == AddPane(DoKill(mid, sid), spawn, w, policy)
  {
    hide WindowLeaves, Registered, WindowIds;
  }

  lemma CommutesCreate(mid: EngineState, spawn: Spawn, w: WindowId, policy: RestartPolicy, sid: SessionId, wid: WindowId,
                       s: SessionState, other: Spawn, otherPolicy: RestartPolicy)
    requires other.id != spawn.id
    ensures AddPane(AddPane(mid, spawn, w, policy).(sessions := mid.sessions[sid := s], windowSession := mid.windowSession[wid := sid]),
                    other, wid, otherPolicy)
         == AddPane(AddPane(mid.(sessions := mid.sessions[sid := s], windowSession := mid.windowSession[wid := sid]),
                            other, wid, otherPolicy), spawn, w, policy)
  {
    hide AddPane;
    AddsOnlyPane(mid, mid.sessions[sid := s], mid.windowSession[wid := sid], spawn, w, policy);
    AddsCommute(mid.(sessions := mid.sessions[sid := s], windowSession := mid.windowSession[wid := sid]),
                spawn, w, policy, other, wid, otherPolicy);
  }

  lemma CommutesRest(mid: EngineState, spawn: Spawn, w: WindowId, policy: RestartPolicy, op: Op)
    requires RatiosEverywhere(mid) && (op.CreateSession? || op.CreateWindow?)
    requires op.spawn.Some? ==> op.spawn.value.id != spawn.id
    ensures var full := AddPane(mid, spawn, w, policy);
            RatiosEverywhere(full) && Next(full, op) == AddPane(Next(mid, op), spawn, w, policy)
  {
    hide RatiosOk, AddPane, Decimal, RatiosEverywhere;
    AddsOnlyPane(mid, mid.sessions, mid.windowSession, spawn, w, policy);
    SameRatios(mid, AddPane(mid, spawn, w, policy));
    match op
    case CreateSession(sid, wid, name, p, other) =>
      if p.Valid() && other.Some? {
        CommutesCreate(mid, spawn, w, policy, sid, wid, SessionState(sid, name, [NewWindow(wid, "0", other.value.id)], wid, p),
                       other.value, p);
      }
    case CreateWindow(sid, wid, other) =>
      if other.Some? && sid in mid.sessions {
        var s := mid.sessions[sid];
        CommutesCreate(mid, spawn, w, policy, sid, wid,
                       s.(windows := s.windows + [NewWindow(wid, Decimal(|s.windows|), other.value.id)], activeWindow := wid),
                       other.value, s.defaultPolicy);
      }
  }

  lemma CommutesStart(mid: EngineState, spawn: Spawn, w: WindowId, policy: RestartPolicy, p: PaneId, fallback: RestartPolicy,
                      other: Option<Spawn>)
    requires p != spawn.id
    ensures DoStartRestored(AddPane(mid, spawn, w, policy), p, fallback, other)
         == AddPane(DoStartRestored(mid, p, fallback, other), spawn, w, policy)
  {
    hide Registered;
    if other.Some? && p in mid.panes && mid.panes[p].Dead? {
      var sup := (if p in mid.supervisors then mid.supervisors[p] else NewSupervisor(fallback)).ResetForStart().OnStarted(other.value.now);
      ValueCommutes(mid.panes, spawn.id, PaneEntry.Live(spawn.pane), p, PaneEntry.Live(other.value.pane));
      SupervisorCommutes(mid.supervisors, spawn.id, Registered(policy, spawn.now), p, sup);
    }
  }

  lemma CommutesSupervise(mid: EngineState, spawn: Spawn, w: WindowId, policy: RestartPolicy, p: PaneId, sup: Supervisor)
    requires p != spawn.id
    ensures DoSupervise(AddPane(mid, spawn, w, policy), p, sup) == AddPane(DoSupervise(mid, p, sup), spawn, w, policy)
  {
    hide Registered;
    SupervisorCommutes(mid.supervisors, spawn.id, Registered(policy, spawn.now), p, sup);
  }

  lemma ValueCommutes(m: map<PaneId, PaneEntry>, a: PaneId, x: PaneEntry, b: PaneId, y: PaneEntry)
    requires a != b
    ensures m[a := x][b := y] == m[b := y][a := x]
  {
  }

  lemma SupervisorCommutes(m: map<PaneId, Supervisor>, a: PaneId, x: Supervisor, b: PaneId, y: Supervisor)
    requires a != b
    ensures m[a := x][b := y] == m[b := y][a := x]
  {
  }

  // ------------------------------------------------------------------ the exact condition

  lemma Commutes(mid: EngineState, spawn: Spawn, w: WindowId, policy: RestartPolicy, op: Op)
    requires RatiosEverywhere(mid) && ByOthers(mid, op, spawn.id) && Elsewhere(op, spawn.id)
    requires op.KillSession? && op.killed in mid.sessions ==> spawn.id !in WindowLeaves(mid.sessions[op.killed].windows)
    ensures var full := AddPane(mid, spawn, w, policy);
            RatiosEverywhere(full) && Next(full, op) == AddPane(Next(mid, op), spawn, w, policy)
  {
    hide RatiosEverywhere, AddPane, DoCreateSession, DoSplit, DoClose, DoCreateWindow, DoKill, DoLoad, DoStartRestored, DoResize, DoSupervise, WindowLeaves, LoadableRecords;
    AddsOnlyPane(mid, mid.sessions, mid.windowSession, spawn, w, policy);
    SameRatios(mid, AddPane(mid, spawn, w, policy));
    match op
    case CreateSession(_, _, _, _, _) => CommutesRest(mid, spawn, w, policy, op);
    case CreateWindow(_, _, _) => CommutesRest(mid, spawn, w, policy, op);
    case SplitPane(target, o, other) => CommutesSplit(mid, spawn, w, policy, target, o, other);
    case ClosePane(p) => CommutesClose(mid, spawn, w, policy, p);
    case KillSession(sid) => CommutesKill(mid, spawn, w, policy, sid);
    case StartRestored(p, fallback, other) => CommutesStart(mid, spawn, w, policy, p, fallback, other);
    case ResizeWindow(v, rows, cols) => CommutesResize(mid, spawn, w, policy, v, rows, cols);
    case Supervise(p, sup) => CommutesSupervise(mid, spawn, w, policy, p, sup);
  }

  /** What is new to the engine in between is new to it once the pane is registered, too. */
  lemma EnabledWithPane(mid: EngineState, spawn: Spawn, w: WindowId, policy: RestartPolicy, op: Op)
    requires ByOthers(mid, op, spawn.id)
    ensures Enabled(AddPane(mid, spawn, w, policy), op)
  {
    hide Registered, LoadableRecords, ValidRecord;
  }

  lemma ProceedsLocated(e: EngineState, target: PaneId, o: Orientation)
    requires RatiosEverywhere(e) && Proceeds(e, target, o)
    ensures Locate(e, target).Some?
  {
  }

  lemma WithLeafRatios(e: EngineState, target: PaneId, o: Orientation, spawn: Spawn)
    requires Inv(e) && RatiosEverywhere(e) && Proceeds(e, target, o) && spawn.id !in e.panes
    ensures RatiosEverywhere(WithLeaf(e, target, o, spawn.id))
    ensures Inv(Registering(e, target, o, WithLeaf(e, target, o, spawn.id), spawn))
  {
    hide Inv, RatiosEverywhere, Proceeds, WithLeaf, DoSplit, AddPane;
    ProceedsLocated(e, target, o);
    TwoSections(e, target, o, spawn);
    SplitInv(e, target, o, Some(spawn));
    var place, mid := Locate(e, target).value, WithLeaf(e, target, o, spawn.id);
    AddsOnlyPane(mid, mid.sessions, mid.windowSession, spawn, place.window, e.sessions[place.session].defaultPolicy);
    InvRatios(Registering(e, target, o, mid, spawn));
    SameRatios(Registering(e, target, o, mid, spawn), mid);
  }

  lemma NowhereYet(e: EngineState, sid: SessionId, w: WindowId, p: PaneId)
    requires Inv(e) && sid in e.sessions && p !in e.panes
    ensures !HasPane(e.sessions[sid], w, p)
  {
    hide Inv, HasPane;
    InvKeys(e);
    InvSession(e, sid);
  }

  // ------------------------------------------------------------------ any number of operations in between

  /** Operations of other threads, one after another, none of which knows the pane being added. */
  ghost predicate OthersRun(m: EngineState, ops: seq<Op>, added: PaneId)
    decreases |ops|
  {
    ops == [] || (RatiosEverywhere(m) && ByOthers(m, ops[0], added) && OthersRun(Next(m, ops[0]), ops[1..], added))
  }

  ghost function OthersEnd(m: EngineState, ops: seq<Op>, added: PaneId): EngineState
    requires OthersRun(m, ops, added)
    decreases |ops|
  {
    if ops == [] then m else OthersEnd(Next(m, ops[0]), ops[1..], added)
  }

  ghost predicate Absent(m: EngineState, p: PaneId) {
    p !in m.panes && p !in m.supervisors && p !in m.paneWindow
  }

  /** The leaf waits for its pane: registering it would make everything agree. */
  ghost predicate Waiting(m: EngineState, spawn: Spawn, w: WindowId, policy: RestartPolicy, sid: SessionId) {
    Inv(AddPane(m, spawn, w, policy)) && Absent(m, spawn.id) && w in m.windowSession && m.windowSession[w] == sid
  }

  /** The leaf is gone with its session, and everything agrees without the pane. */
  ghost predicate Gone(m: EngineState, p: PaneId) {
    Inv(m) && Absent(m, p)
  }

  lemma StillAbsent(m: EngineState, op: Op, p: PaneId)
    requires RatiosEverywhere(m) && ByOthers(m, op, p) && Absent(m, p)
    ensures Absent(Next(m, op), p)
  {
    hide RatiosEverywhere, SplitVerdict, SplitLeaf, Remove, Locate, LocateWindow, Registered, LoadableRecords, ValidRecord, WindowLeaves;
  }

  /** A window keeps its session as long as it is indexed. */
  lemma WindowKept(m: EngineState, op: Op, p: PaneId, w: WindowId)
    requires RatiosEverywhere(m) && ByOthers(m, op, p) && w in m.windowSession && w in Next(m, op).windowSession
    ensures Next(m, op).windowSession[w] == m.windowSession[w]
  {
    hide RatiosEverywhere, SplitVerdict, SplitLeaf, Remove, Locate, LocateWindow, Registered, LoadableRecords, ValidRecord, WindowLeaves;
  }

  /** Where the waiting leaf is. */
  lemma WaitingLeaf(m: EngineState, spawn: Spawn, w: WindowId, policy: RestartPolicy, sid: SessionId)
    requires Waiting(m, spawn, w, policy, sid)
    ensures sid in m.sessions && HasPane(m.sessions[sid], w, spawn.id) && spawn.id in WindowLeaves(m.sessions[sid].windows)
    ensures forall k :: k in m.sessions && k != sid ==> spawn.id !in WindowLeaves(m.sessions[k].windows)
  {
    hide Inv, Leaves, WindowLeaves, AddPane, HasWindow;
    var full := AddPane(m, spawn, w, policy);
    AddsOnlyPane(m, m.sessions, m.windowSession, spawn, w, policy);
    assert full.paneWindow == m.paneWindow[spawn.id := w] by { AddedIndex(m, spawn, w, policy); }
    PaneScannedIn(full, spawn.id);
    LeavesOfWindows(m.sessions[sid].windows);
    forall k | k in m.sessions && k != sid ensures spawn.id !in WindowLeaves(m.sessions[k].windows) {
      var s := m.sessions[k];
      LeavesOfWindows(s.windows);
      InvSession(full, k);
      forall i | 0 <= i < |s.windows| ensures spawn.id !in Leaves(s.windows[i].layout) {
        NotHere(s, i, spawn.id, full, k, w);
      }
    }
  }

  lemma AddedIndex(m: EngineState, spawn: Spawn, w: WindowId, policy: RestartPolicy)
    ensures AddPane(m, spawn, w, policy).paneWindow == m.paneWindow[spawn.id := w]
    ensures spawn.id in AddPane(m, spawn, w, policy).panes && spawn.id in AddPane(m, spawn, w, policy).supervisors
  {
    hide Registered;
  }

  lemma PaneScannedIn(e: EngineState, p: PaneId)
    requires Inv(e) && p in e.paneWindow
    ensures PaneScanned(e, p)
  {
    hide HasPane, HasWindow, SessionOk, Indexed, KeyedById;
  }

  /** Window `i` of another session is not the one the pane is indexed under, so it does not hold the pane. */
  lemma NotHere(s: SessionState, i: nat, p: PaneId, e: EngineState, k: SessionId, w: WindowId)
    requires Inv(e) && k in e.sessions && e.sessions[k] == s && i < |s.windows|
    requires p in e.paneWindow && e.paneWindow[p] == w && w in e.windowSession && e.windowSession[w] != k
    ensures p !in Leaves(s.windows[i].layout)
  {
    hide Inv, Leaves;
    assert HasWindow(s, s.windows[i].id);
    assert p in Leaves(s.windows[i].layout) ==> HasPane(s, s.windows[i].id, p);
    InvSession(e, k);
  }

  lemma WaitingStep(m: EngineState, spawn: Spawn, w: WindowId, policy: RestartPolicy, sid: SessionId, op: Op)
    requires Waiting(m, spawn, w, policy, sid) && RatiosEverywhere(m) && ByOthers(m, op, spawn.id) && op != KillSession(sid)
    ensures Waiting(Next(m, op), spawn, w, policy, sid) && RatiosEverywhere(Next(m, op))
  {
    hide Inv, RatiosEverywhere, Next, AddPane, ByOthers, Elsewhere, WindowLeaves, HasPane;
    NotLoading(m, op, spawn.id);
    var full, m' := AddPane(m, spawn, w, policy), Next(m, op);
    assert Inv(AddPane(m', spawn, w, policy)) by {
      if !Elsewhere(op, spawn.id) {
        TooEarly(m, op, spawn.id);
      } else {
        WaitingLeaf(m, spawn, w, policy, sid);
        Commutes(m, spawn, w, policy, op);
        EnabledWithPane(m, spawn, w, policy, op);
        InvNext(full, op);
      }
    }
    StillAbsent(m, op, spawn.id);
    InvRatios(AddPane(m', spawn, w, policy));
    AddsOnlyPane(m', m'.sessions, m'.windowSession, spawn, w, policy);
    SameRatios(AddPane(m', spawn, w, policy), m');
    AddedIndex(m', spawn, w, policy);
    PaneScannedIn(AddPane(m', spawn, w, policy), spawn.id);
    WindowKept(m, op, spawn.id, w);
  }

  /** The kill takes the waiting leaf with it. */
  lemma KillTakesLeaf(m: EngineState, spawn: Spawn, w: WindowId, policy: RestartPolicy, sid: SessionId)
    requires Waiting(m, spawn, w, policy, sid)
    ensures Gone(DoKill(m, sid), spawn.id)
  {
    hide Inv, WindowLeaves, HasPane, Registered, WindowIds;
    WaitingLeaf(m, spawn, w, policy, sid);
    KillInv(AddPane(m, spawn, w, policy), sid);
    assert DoKill(AddPane(m, spawn, w, policy), sid) == DoKill(m, sid);
  }

  lemma GoneStep(m: EngineState, op: Op, p: PaneId)
    requires Gone(m, p) && RatiosEverywhere(m) && ByOthers(m, op, p)
    ensures Gone(Next(m, op), p) && RatiosEverywhere(Next(m, op))
  {
    hide Inv, RatiosEverywhere, Next;
    NotLoading(m, op, p);
    StillAbsent(m, op, p);
    InvNext(m, op);
    InvRatios(Next(m, op));
  }

  /** Once the leaf is gone, registering the pane strands it. */
  lemma GoneStrands(m: EngineState, spawn: Spawn, w: WindowId, policy: RestartPolicy)
    requires Gone(m, spawn.id)
    ensures var end := AddPane(m, spawn, w, policy);
            && spawn.id in end.panes && spawn.id in end.supervisors && !Inv(end)
            && forall sid, v :: !Found(end, sid, v, spawn.id)
  {
    hide Inv, AddPane, HasPane;
    var end := AddPane(m, spawn, w, policy);
    AddsOnlyPane(m, m.sessions, m.windowSession, spawn, w, policy);
    AddedIndex(m, spawn, w, policy);
    forall sid, v ensures !Found(end, sid, v, spawn.id) {
      if sid in m.sessions {
        NowhereYet(m, sid, v, spawn.id);
      }
    }
    NowhereNotInv(end, spawn.id);
  }

  lemma NowhereNotInv(e: EngineState, p: PaneId)
    requires p in e.paneWindow && forall sid, v :: !Found(e, sid, v, p)
    ensures !Inv(e)
  {
    hide HasPane, HasWindow, SessionOk, Indexed, KeyedById;
    var w := e.paneWindow[p];
    assert w in e.windowSession ==> !Found(e, e.windowSession[w], w, p);
    assert Inv(e) ==> PaneScanned(e, p);
  }

  lemma {:induction false} OthersOutcome(m: EngineState, spawn: Spawn, w: WindowId, policy: RestartPolicy, sid: SessionId, ops: seq<Op>)
    requires RatiosEverywhere(m) && OthersRun(m, ops, spawn.id)
    requires Waiting(m, spawn, w, policy, sid) || Gone(m, spawn.id)
    ensures var end := OthersEnd(m, ops, spawn.id);
            if Waiting(m, spawn, w, policy, sid) && KillSession(sid) !in ops then Waiting(end, spawn, w, policy, sid)
            else Gone(end, spawn.id)
    decreases |ops|
  {
    hide RatiosEverywhere, ByOthers, Next, Waiting, Gone;
    if ops != [] {
      var op, rest := ops[0], ops[1..];
      assert ops == [op] + rest;
      NotLoading(m, op, spawn.id);
      if Waiting(m, spawn, w, policy, sid) {
        if op == KillSession(sid) {
          KillTakesLeaf(m, spawn, w, policy, sid);
          NextOfKill(m, sid);
          GoneRatios(DoKill(m, sid), spawn.id);
          GoneIsNotWaiting(DoKill(m, sid), spawn, w, policy, sid);
        } else {
          WaitingStep(m, spawn, w, policy, sid, op);
        }
      } else {
        GoneStep(m, op, spawn.id);
        GoneIsNotWaiting(Next(m, op), spawn, w, policy, sid);
      }
      OthersOutcome(Next(m, op), spawn, w, policy, sid, rest);
    }
  }

  lemma GoneRatios(m: EngineState, p: PaneId)
    requires Gone(m, p)
    ensures RatiosEverywhere(m)
  {
    hide Inv, RatiosEverywhere;
    InvRatios(m);
  }

  lemma GoneIsNotWaiting(m: EngineState, spawn: Spawn, w: WindowId, policy: RestartPolicy, sid: SessionId)
    requires Gone(m, spawn.id)
    ensures !Waiting(m, spawn, w, policy, sid)
  {
    hide Inv, AddPane;
    GoneStrands(m, spawn, w, policy);
  }

  /**
   Any number of whole operations of other threads between the two sections of a split: index,
   layouts, panes and supervision agree again once the split is done, iff none of them killed the
   session whose pane is being split. Otherwise the new pane, its process and its supervisor are left
   behind with no window.
   */
  lemma SplitSurvivesUnlessKilled(e: EngineState, target: PaneId, o: Orientation, spawn: Spawn, ops: seq<Op>)
    requires Inv(e) && RatiosEverywhere(e) && Proceeds(e, target, o) && spawn.id !in e.panes
    requires OthersRun(WithLeaf(e, target, o, spawn.id), ops, spawn.id)
    ensures var end := Registering(e, target, o, OthersEnd(WithLeaf(e, target, o, spawn.id), ops, spawn.id), spawn);
            var killed := KillSession(Locate(e, target).value.session) in ops;
            && (Inv(end) <==> !killed)
            && (killed ==> spawn.id in end.panes && spawn.id in end.supervisors && forall sid, w :: !Found(end, sid, w, spawn.id))
  {
    hide Inv, RatiosEverywhere, Proceeds, WithLeaf, Next, AddPane, OthersRun, OthersEnd, Locate, Found;
    ProceedsLocated(e, target, o);
    WithLeafRatios(e, target, o, spawn);
    WithLeafWaits(e, target, o, spawn);
    var mid, place := WithLeaf(e, target, o, spawn.id), Locate(e, target).value;
    var policy := e.sessions[place.session].defaultPolicy;
    OthersOutcome(mid, spawn, place.window, policy, place.session, ops);
    if KillSession(place.session) in ops {
      GoneStrands(OthersEnd(mid, ops, spawn.id), spawn, place.window, policy);
    }
  }

  lemma WithLeafWaits(e: EngineState, target: PaneId, o: Orientation, spawn: Spawn)
    requires Inv(e) && RatiosEverywhere(e) && Proceeds(e, target, o) && spawn.id !in e.panes
    ensures Locate(e, target).Some?
    ensures var place := Locate(e, target).value;
            Waiting(WithLeaf(e, target, o, spawn.id), spawn, place.window, e.sessions[place.session].defaultPolicy, place.session)
  {
    hide Inv, RatiosEverywhere, AddPane, Locate, SplitVerdict, SplitLeaf, HasPane, RatiosOk;
    WithLeafRatios(e, target, o, spawn);
    LeafBeforePane(e, target, o, spawn);
    LocateFinds(e, target);
  }

  // ------------------------------------------------------------------ how the split returns

  /** The engine behind its locks; a panic while `sessions` and `panes` are held poisons both. */
  datatype Daemon = Daemon(engine: EngineState, poisoned: bool)

  /** The end of `split_pane`: register, then build the answer by indexing `sessions` with both locks held. */
  function Finish(e: EngineState, target: PaneId, o: Orientation, now: EngineState, spawn: Spawn): Daemon
    requires RatiosEverywhere(e) && Proceeds(e, target, o)
  {
    var end := Registering(e, target, o, now, spawn);
    Daemon(end, Locate(e, target).value.session !in end.sessions)
  }

  /** No operation draws the id of the session being split again. */
  predicate OwnIds(ops: seq<Op>, sid: SessionId) {
    forall i :: 0 <= i < |ops| && ops[i].CreateSession? ==> ops[i].sid != sid
  }

  lemma SessionStaysGone(m: EngineState, op: Op, p: PaneId, sid: SessionId)
    requires RatiosEverywhere(m) && ByOthers(m, op, p) && sid !in m.sessions && (op.CreateSession? ==> op.sid != sid)
    ensures sid !in Next(m, op).sessions
  {
    hide RatiosEverywhere, SplitVerdict, SplitLeaf, Remove, Registered, LoadableRecords, ValidRecord, WindowLeaves;
  }

  lemma {:induction false} SessionThereUnlessKilled(m: EngineState, spawn: Spawn, w: WindowId, policy: RestartPolicy, sid: SessionId,
                                                    ops: seq<Op>)
    requires RatiosEverywhere(m) && OthersRun(m, ops, spawn.id) && OwnIds(ops, sid)
    requires Waiting(m, spawn, w, policy, sid) || (Gone(m, spawn.id) && sid !in m.sessions)
    ensures sid in OthersEnd(m, ops, spawn.id).sessions <==> Waiting(m, spawn, w, policy, sid) && KillSession(sid) !in ops
    decreases |ops|
  {
    hide RatiosEverywhere, ByOthers, Next, Waiting, Gone;
    if ops == [] {
      if Waiting(m, spawn, w, policy, sid) {
        WaitingLeaf(m, spawn, w, policy, sid);
      }
    } else {
      var op, rest := ops[0], ops[1..];
      assert ops == [op] + rest;
      NotLoading(m, op, spawn.id);
      if Waiting(m, spawn, w, policy, sid) {
        if op == KillSession(sid) {
          KillTakesLeaf(m, spawn, w, policy, sid);
          NextOfKill(m, sid);
          GoneRatios(DoKill(m, sid), spawn.id);
          GoneIsNotWaiting(DoKill(m, sid), spawn, w, policy, sid);
        } else {
          WaitingStep(m, spawn, w, policy, sid, op);
        }
      } else {
        GoneStep(m, op, spawn.id);
        GoneIsNotWaiting(Next(m, op), spawn, w, policy, sid);
        SessionStaysGone(m, op, spawn.id, sid);
      }
      SessionThereUnlessKilled(Next(m, op), spawn, w, policy, sid, rest);
    }
  }

  /**
   How `split_pane` returns, with any operations of other threads in between: normally and with
   everything in agreement iff none of them killed its session, and else by a panic that poisons
   `sessions` and `panes`.
   */
  lemma SplitPanicsIffKilled(e: EngineState, target: PaneId, o: Orientation, spawn: Spawn, ops: seq<Op>)
    requires Inv(e) && RatiosEverywhere(e) && Proceeds(e, target, o) && spawn.id !in e.panes
    requires OthersRun(WithLeaf(e, target, o, spawn.id), ops, spawn.id) && OwnIds(ops, Locate(e, target).value.session)
    ensures var d := Finish(e, target, o, OthersEnd(WithLeaf(e, target, o, spawn.id), ops, spawn.id), spawn);
            && (d.poisoned <==> KillSession(Locate(e, target).value.session) in ops)
            && (d.poisoned <==> !Inv(d.engine))
  {
    hide Inv, RatiosEverywhere, Proceeds, WithLeaf, Next, AddPane, OthersRun, OthersEnd, Locate, OwnIds;
    ProceedsLocated(e, target, o);
    WithLeafRatios(e, target, o, spawn);
    WithLeafWaits(e, target, o, spawn);
    SplitSurvivesUnlessKilled(e, target, o, spawn, ops);
    var mid, place := WithLeaf(e, target, o, spawn.id), Locate(e, target).value;
    var policy := e.sessions[place.session].defaultPolicy;
    SessionThereUnlessKilled(mid, spawn, place.window, policy, place.session, ops);
    var now := OthersEnd(mid, ops, spawn.id);
    AddsOnlyPane(now, now.sessions, now.windowSession, spawn, place.window, policy);
  }

  /**
   An operation on the daemon. Behind poisoned locks every one that gets as far as `sessions` or `panes`
   panics there, before it has changed anything; only supervision, which has a lock of its own, goes on.
   */
  function Serve(d: Daemon, op: Op): Daemon
    requires RatiosEverywhere(d.engine)
    requires op.LoadPersisted? ==> forall i :: 0 <= i < |op.records| ==> ValidRecord(op.records[i])
  {
    if d.poisoned && !op.Supervise? then d else d.(engine := Next(d.engine, op))
  }

  ghost predicate Served(d: Daemon, ops: seq<Op>)
    decreases |ops|, 0
  {
    ops == [] || (
      && Served(d, ops[..|ops| - 1])
      && RatiosEverywhere(Later(d, ops[..|ops| - 1]).engine)
      && Enabled(Later(d, ops[..|ops| - 1]).engine, ops[|ops| - 1]))
  }

  ghost function Later(d: Daemon, ops: seq<Op>): Daemon
    requires Served(d, ops)
    decreases |ops|, 1
  {
    if ops == [] then d else Serve(Later(d, ops[..|ops| - 1]), ops[|ops| - 1])
  }

  /** A poisoned engine is frozen: whatever is asked of it, nothing is added, closed or killed any more. */
  lemma {:induction false} PoisonedForever(d: Daemon, ops: seq<Op>)
    requires d.poisoned && Served(d, ops)
    ensures var later := Later(d, ops);
            && later.poisoned && later.engine.sessions == d.engine.sessions && later.engine.panes == d.engine.panes
            && later.engine.paneWindow == d.engine.paneWindow && later.engine.windowSession == d.engine.windowSession
            && later.engine.supervisors.Keys == d.engine.supervisors.Keys
  {
    hide Enabled, RatiosEverywhere;
    if ops != [] {
      PoisonedForever(d, ops[..|ops| - 1]);
      hide Next;
      if ops[|ops| - 1].Supervise? {
        SuperviseOnly(Later(d, ops[..|ops| - 1]).engine, ops[|ops| - 1]);
      }
    }
  }

  lemma SuperviseOnly(e: EngineState, op: Op)
    requires RatiosEverywhere(e) && op.Supervise?
    ensures var e' := Next(e, op);
            e' == e.(supervisors := e'.supervisors) && e'.supervisors.Keys == e.supervisors.Keys
  {
    hide RatiosEverywhere;
  }

  /** So the pane that a kill stranded keeps its process and its supervisor for as long as the daemon runs. */
  lemma StrandedForever(d: Daemon, ops: seq<Op>, p: PaneId)
    requires d.poisoned && Served(d, ops)
    requires p in d.engine.panes && p in d.engine.supervisors && forall sid, w :: !Found(d.engine, sid, w, p)
    ensures var e := Later(d, ops).engine;
            p in e.panes && p in e.supervisors && forall sid, w :: !Found(e, sid, w, p)
  {
    hide Served, Later, HasPane;
    PoisonedForever(d, ops);
    var e := Later(d, ops).engine;
    forall sid, w ensures !Found(e, sid, w, p) {
      assert !Found(d.engine, sid, w, p);
    }
  }

  lemma NextOfKill(mid: EngineState, sid: SessionId)
    requires RatiosEverywhere(mid)
    ensures Next(mid, KillSession(sid)) == DoKill(mid, sid)
  {
    hide DoKill, RatiosEverywhere;
  }

  lemma NotLoading(mid: EngineState, op: Op, added: PaneId)
    requires ByOthers(mid, op, added)
    ensures !op.LoadPersisted? && Enabled(mid, op)
  {
    hide Enabled;
  }
}
