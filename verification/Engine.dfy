/**
 The engine's structure: sessions, windows and panes, with the reverse index kept beside them.
 crates/tymux-core/src/engine.rs, whole operations.

 Ids the source draws at random (`Uuid::new_v4`) are parameters of an operation, assumed new. Every
 operation finds its way through the reverse index, as the code does, so that an index out of step
 with the layouts would send it astray. Supervision is the map from pane ids to supervisors.
 */
module Engine {
  import opened Common
  import opened Restart
  import opened Layout
  import opened Persistence

  const DEFAULT_ROWS: nat := 24
  const DEFAULT_COLS: nat := 80

  datatype WindowState = WindowState(id: WindowId, name: string, layout: LayoutNode, rows: nat, cols: nat)

  datatype SessionState = SessionState(
    id: SessionId,
    name: string,
    windows: seq<WindowState>,
    activeWindow: WindowId,
    defaultPolicy: RestartPolicy)

  datatype WindowRecord = WindowRecord(id: WindowId, name: string, layout: PersistedNode)

  datatype SessionRecord = SessionRecord(
    schemaVersion: nat,
    id: SessionId,
    name: string,
    windows: seq<WindowRecord>,
    activeWindow: WindowId,
    defaultPolicy: Option<RestartPolicy>)

  const CURRENT_SCHEMA_VERSION: nat := 1

  /** `SessionRecord::validate`; only records that pass are ever loaded. */
  predicate ValidRecord(r: SessionRecord) {
    r.schemaVersion == CURRENT_SCHEMA_VERSION &&
    forall i :: 0 <= i < |r.windows| ==> ValidStructure(r.windows[i].layout)
  }

  datatype EngineState = EngineState(
    sessions: map<SessionId, SessionState>,
    panes: map<PaneId, PaneEntry>,
    paneWindow: map<PaneId, WindowId>,
    windowSession: map<WindowId, SessionId>,
    supervisors: map<PaneId, Supervisor>)

  const EMPTY := EngineState(map[], map[], map[], map[], map[])

  /** What a successful spawn hands over: the new pane's id, the pane and the time. */
  datatype Spawn = Spawn(id: PaneId, pane: LivePane, now: nat)

  datatype Op =
    | CreateSession(sid: SessionId, wid: WindowId, name: string, policy: RestartPolicy, spawn: Option<Spawn>)
    | SplitPane(target: PaneId, orientation: Orientation, spawn: Option<Spawn>)
    | ClosePane(closed: PaneId)
    | CreateWindow(owner: SessionId, wid: WindowId, spawn: Option<Spawn>)
    | KillSession(killed: SessionId)
    | LoadPersisted(records: seq<SessionRecord>)
    | StartRestored(revived: PaneId, fallback: RestartPolicy, spawn: Option<Spawn>)
    | ResizeWindow(window: WindowId, rows: nat, cols: nat)
    | Supervise(pane: PaneId, supervisor: Supervisor)

  // ------------------------------------------------------------------ scanning

  predicate HasPane(s: SessionState, w: WindowId, p: PaneId) {
    exists i :: 0 <= i < |s.windows| && s.windows[i].id == w && p in Leaves(s.windows[i].layout)
  }

  predicate HasWindow(s: SessionState, w: WindowId) {
    exists i :: 0 <= i < |s.windows| && s.windows[i].id == w
  }

  function WindowLeaves(windows: seq<WindowState>): seq<PaneId> {
    if windows == [] then []
    else WindowLeaves(windows[..|windows| - 1]) + Leaves(windows[|windows| - 1].layout)
  }

  function WindowIds(windows: seq<WindowState>): (ids: seq<WindowId>)
    ensures |ids| == |windows| && forall i :: 0 <= i < |ids| ==> ids[i] == windows[i].id
  {
    seq(|windows|, i requires 0 <= i < |windows| => windows[i].id)
  }

  function SetOf(s: seq<nat>): (r: set<nat>)
    ensures forall x :: x in r <==> x in s
  {
    set x | x in s
  }

  function Position(windows: seq<WindowState>, w: WindowId): (r: Option<nat>)
    ensures r.Some? ==> r.value < |windows| && windows[r.value].id == w
    ensures r.None? ==> forall i :: 0 <= i < |windows| ==> windows[i].id != w
  {
    if windows == [] then None
    else if windows[0].id == w then Some(0)
    else
      var rest := Position(windows[1..], w);
      if rest.None? then None else Some(rest.value + 1)
  }

  /** `window_and_session_for_pane`, then the session and the window's position in it. */
  datatype Place = Place(window: WindowId, session: SessionId, position: nat)

  function Locate(e: EngineState, p: PaneId): (r: Option<Place>)
    ensures r.Some? ==> r.value.session in e.sessions && r.value.position < |e.sessions[r.value.session].windows|
    ensures r.Some? ==> e.sessions[r.value.session].windows[r.value.position].id == r.value.window
  {
    if p !in e.paneWindow then None
    else LocateWindow(e, e.paneWindow[p])
  }

  function LocateWindow(e: EngineState, w: WindowId): (r: Option<Place>)
    ensures r.Some? ==> r.value.session in e.sessions && r.value.position < |e.sessions[r.value.session].windows|
    ensures r.Some? ==> r.value.window == w && e.sessions[r.value.session].windows[r.value.position].id == w
  {
    if w !in e.windowSession || e.windowSession[w] !in e.sessions then None
    else
      var sid := e.windowSession[w];
      var at := Position(e.sessions[sid].windows, w);
      if at.None? then None else Some(Place(w, sid, at.value))
  }

  // ------------------------------------------------------------------ operations

  function Registered(policy: RestartPolicy, now: nat): Supervisor {
    NewSupervisor(policy).OnStarted(now)
  }

  function NewWindow(wid: WindowId, name: string, p: PaneId): WindowState {
    WindowState(wid, name, Leaf(p), DEFAULT_ROWS, DEFAULT_COLS)
  }

  function AddPane(e: EngineState, spawn: Spawn, w: WindowId, policy: RestartPolicy): EngineState {
    e.(panes := e.panes[spawn.id := PaneEntry.Live(spawn.pane)],
       supervisors := e.supervisors[spawn.id := Registered(policy, spawn.now)],
       paneWindow := e.paneWindow[spawn.id := w])
  }

  function DoCreateSession(e: EngineState, sid: SessionId, wid: WindowId, name: string, policy: RestartPolicy,
                           spawn: Option<Spawn>): EngineState {
    if !policy.Valid() || spawn.None? then e
    else
      var session := SessionState(sid, name, [NewWindow(wid, "0", spawn.value.id)], wid, policy);
      AddPane(e.(sessions := e.sessions[sid := session], windowSession := e.windowSession[wid := sid]),
              spawn.value, wid, policy)
  }

  function Decimal(n: nat): string {
    (if n < 10 then [] else Decimal(n / 10)) + ["0123456789"[n % 10]]
  }

  function DoCreateWindow(e: EngineState, sid: SessionId, wid: WindowId, spawn: Option<Spawn>): EngineState {
    if spawn.None? || sid !in e.sessions then e
    else
      var s := e.sessions[sid];
      var s' := s.(windows := s.windows + [NewWindow(wid, Decimal(|s.windows|), spawn.value.id)], activeWindow := wid);
      AddPane(e.(sessions := e.sessions[sid := s'], windowSession := e.windowSession[wid := sid]),
              spawn.value, wid, s.defaultPolicy)
  }

  /** Every first ratio in every window lies in [0, 1]: geometry is only defined for such trees. */
  predicate RatiosEverywhere(e: EngineState) {
    forall sid :: sid in e.sessions ==> SessionRatios(e.sessions[sid])
  }

  predicate SessionRatios(s: SessionState) {
    forall i :: 0 <= i < |s.windows| ==> RatiosOk(s.windows[i].layout)
  }

  function SetWindow(s: SessionState, i: nat, w: WindowState): SessionState
    requires i < |s.windows|
  {
    s.(windows := s.windows[i := w])
  }

  function DoSplit(e: EngineState, target: PaneId, o: Orientation, spawn: Option<Spawn>): EngineState
    requires RatiosEverywhere(e)
  {
    var place := Locate(e, target);
    if spawn.None? || place.None? then e
    else
      var s := e.sessions[place.value.session];
      var w := s.windows[place.value.position];
      if !SplitVerdict(w.layout, target, o, w.rows, w.cols).Done? then e
      else
        var s' := SetWindow(s, place.value.position, w.(layout := SplitLeaf(w.layout, target, o, spawn.value.id)));
        AddPane(e.(sessions := e.sessions[place.value.session := s']), spawn.value, w.id, s.defaultPolicy)
  }

  function DropPane(e: EngineState, p: PaneId): EngineState {
    e.(panes := e.panes - {p}, supervisors := e.supervisors - {p}, paneWindow := e.paneWindow - {p})
  }

  function CloseWindow(s: SessionState, i: nat): SessionState
    requires i < |s.windows|
  {
    var rest := s.windows[..i] + s.windows[i + 1..];
    s.(windows := rest, activeWindow := if rest == [] then s.activeWindow else rest[0].id)
  }

  function DoClose(e: EngineState, p: PaneId): EngineState {
    var place := Locate(e, p);
    if place.None? then e
    else
      var s := e.sessions[place.value.session];
      var w := s.windows[place.value.position];
      match Remove(w.layout, p)
      case Collapsed(tree) =>
        DropPane(e.(sessions := e.sessions[place.value.session := SetWindow(s, place.value.position, w.(layout := tree))]), p)
      case WindowEmpty =>
        var s' := CloseWindow(s, place.value.position);
        DropPane(e.(sessions := if s'.windows == [] then e.sessions - {place.value.session} else e.sessions[place.value.session := s'],
                    windowSession := e.windowSession - {w.id}), p)
  }

  function DoKill(e: EngineState, sid: SessionId): EngineState {
    if sid !in e.sessions then e
    else
      var s := e.sessions[sid];
      var gone := SetOf(WindowLeaves(s.windows));
      EngineState(e.sessions - {sid}, e.panes - gone, e.paneWindow - gone,
                  e.windowSession - SetOf(WindowIds(s.windows)), e.supervisors - gone)
  }

  /** `register_restored` for a leaf: the restart state of its dead entry, or a new supervisor. */
  function Restored(panes: map<PaneId, PaneEntry>, p: PaneId, policy: RestartPolicy): Supervisor {
    if p in panes && panes[p].Dead? && panes[p].record.restart.Some? then Restore(panes[p].record.restart.value)
    else NewSupervisor(policy)
  }

  function IndexAll(m: map<PaneId, WindowId>, ids: seq<PaneId>, w: WindowId): map<PaneId, WindowId> {
    m + map p | p in SetOf(ids) :: w
  }

  function RestoreAll(m: map<PaneId, Supervisor>, ids: seq<PaneId>, panes: map<PaneId, PaneEntry>, policy: RestartPolicy)
    : map<PaneId, Supervisor>
  {
    m + map p | p in SetOf(ids) :: Restored(panes, p, policy)
  }

  function LoadWindow(e: EngineState, sid: SessionId, policy: RestartPolicy, w: WindowRecord): (EngineState, WindowState)
    requires ValidStructure(w.layout)
  {
    var loaded := ToLive(w.layout, e.panes);
    (e.(panes := loaded.panes,
        windowSession := e.windowSession[w.id := sid],
        paneWindow := IndexAll(e.paneWindow, Leaves(loaded.tree), w.id),
        supervisors := RestoreAll(e.supervisors, Leaves(loaded.tree), loaded.panes, policy)),
     WindowState(w.id, w.name, loaded.tree, DEFAULT_ROWS, DEFAULT_COLS))
  }

  function LoadWindows(e: EngineState, sid: SessionId, policy: RestartPolicy, ws: seq<WindowRecord>): (EngineState, seq<WindowState>)
    requires forall i :: 0 <= i < |ws| ==> ValidStructure(ws[i].layout)
  {
    if ws == [] then (e, [])
    else
      var before := LoadWindows(e, sid, policy, ws[..|ws| - 1]);
      var last := LoadWindow(before.0, sid, policy, ws[|ws| - 1]);
      (last.0, before.1 + [last.1])
  }

  function RecordPolicy(r: SessionRecord): RestartPolicy {
    if r.defaultPolicy.Some? then r.defaultPolicy.value else DEFAULT_POLICY
  }

  function LoadSession(e: EngineState, r: SessionRecord): EngineState
    requires ValidRecord(r)
  {
    var (e', windows) := LoadWindows(e, r.id, RecordPolicy(r), r.windows);
    e'.(sessions := e'.sessions[r.id := SessionState(r.id, r.name, windows, r.activeWindow, RecordPolicy(r))])
  }

  function DoLoad(e: EngineState, records: seq<SessionRecord>): EngineState
    requires forall i :: 0 <= i < |records| ==> ValidRecord(records[i])
  {
    if records == [] then e
    else LoadSession(DoLoad(e, records[..|records| - 1]), records[|records| - 1])
  }

  /** `start_pane_inner` for a pane that is only a record: the same id gets a new process. */
  function DoStartRestored(e: EngineState, p: PaneId, fallback: RestartPolicy, spawn: Option<Spawn>): EngineState {
    if p !in e.panes || e.panes[p].Live? || spawn.None? then e
    else
      var sup := if p in e.supervisors then e.supervisors[p] else NewSupervisor(fallback);
      e.(panes := e.panes[p := PaneEntry.Live(spawn.value.pane)],
         supervisors := e.supervisors[p := sup.ResetForStart().OnStarted(spawn.value.now)])
  }

  function DoResize(e: EngineState, w: WindowId, rows: nat, cols: nat): EngineState {
    var place := LocateWindow(e, w);
    if place.None? then e
    else
      var s := e.sessions[place.value.session];
      e.(sessions := e.sessions[place.value.session := SetWindow(s, place.value.position,
                                                  s.windows[place.value.position].(rows := rows, cols := cols))])
  }

  function DoSupervise(e: EngineState, p: PaneId, sup: Supervisor): EngineState {
    if p in e.supervisors then e.(supervisors := e.supervisors[p := sup]) else e
  }

  // ------------------------------------------------------------------ what callers provide

  predicate FreshSpawn(e: EngineState, spawn: Option<Spawn>) {
    spawn.Some? ==> spawn.value.id !in e.panes
  }

  function WindowRecords(ws: seq<WindowRecord>): seq<PaneRecord>
    requires forall i :: 0 <= i < |ws| ==> ValidStructure(ws[i].layout)
  {
    if ws == [] then [] else WindowRecords(ws[..|ws| - 1]) + Records(ws[|ws| - 1].layout)
  }

  predicate RatiosIn(node: PersistedNode)
    requires ValidStructure(node)
  {
    node.SavedSplit? ==>
      && 0.0 <= node.children[0].ratio <= 1.0
      && RatiosIn(node.children[0].node) && RatiosIn(node.children[1].node)
  }

  /** A validated record with new, distinct ids and ratios in [0, 1]. */
  ghost predicate LoadableRecord(e: EngineState, r: SessionRecord) {
    && ValidRecord(r) && r.id !in e.sessions
    && (forall i :: 0 <= i < |r.windows| ==> RatiosIn(r.windows[i].layout) && r.windows[i].id !in e.windowSession)
    && (forall i, j :: 0 <= i < j < |r.windows| ==> r.windows[i].id != r.windows[j].id)
    && DistinctIds(WindowRecords(r.windows))
    && (forall i :: 0 <= i < |WindowRecords(r.windows)| ==> WindowRecords(r.windows)[i].paneId !in e.panes)
  }

  ghost predicate LoadableRecords(e: EngineState, records: seq<SessionRecord>) {
    records == [] || (
      var prefix := records[..|records| - 1];
      && LoadableRecords(e, prefix)
      && (forall i :: 0 <= i < |prefix| ==> ValidRecord(prefix[i]))
      && LoadableRecord(DoLoad(e, prefix), records[|records| - 1]))
  }

  ghost predicate Enabled(e: EngineState, op: Op) {
    match op
    case CreateSession(sid, wid, _, _, spawn) => sid !in e.sessions && wid !in e.windowSession && FreshSpawn(e, spawn)
    case SplitPane(_, _, spawn) => FreshSpawn(e, spawn)
    case CreateWindow(_, wid, spawn) => wid !in e.windowSession && FreshSpawn(e, spawn)
    case LoadPersisted(records) =>
      (forall i :: 0 <= i < |records| ==> ValidRecord(records[i])) && LoadableRecords(e, records)
    case ResizeWindow(_, rows, cols) => rows <= U16_MAX && cols <= U16_MAX
    case _ => true
  }

  function Next(e: EngineState, op: Op): EngineState
    requires RatiosEverywhere(e)
    requires op.LoadPersisted? ==> forall i :: 0 <= i < |op.records| ==> ValidRecord(op.records[i])
  {
    match op
    case CreateSession(sid, wid, name, policy, spawn) => DoCreateSession(e, sid, wid, name, policy, spawn)
    case SplitPane(target, o, spawn) => DoSplit(e, target, o, spawn)
    case ClosePane(p) => DoClose(e, p)
    case CreateWindow(sid, wid, spawn) => DoCreateWindow(e, sid, wid, spawn)
    case KillSession(sid) => DoKill(e, sid)
    case LoadPersisted(records) => DoLoad(e, records)
    case StartRestored(p, fallback, spawn) => DoStartRestored(e, p, fallback, spawn)
    case ResizeWindow(w, rows, cols) => DoResize(e, w, rows, cols)
    case Supervise(p, sup) => DoSupervise(e, p, sup)
  }

  // ------------------------------------------------------------------ the invariant

  predicate WindowOk(w: WindowState) {
    Distinct(w.layout) && RatiosOk(w.layout) && Loadable(w.layout) && w.rows <= U16_MAX && w.cols <= U16_MAX
  }

  predicate SessionOk(sid: SessionId, s: SessionState) {
    && s.id == sid
    && (forall i :: 0 <= i < |s.windows| ==> WindowOk(s.windows[i]))
    && (forall i, j :: 0 <= i < j < |s.windows| ==> s.windows[i].id != s.windows[j].id)
  }

  /** Everything a scan of session `sid` finds is in the index. */
  ghost predicate Indexed(e: EngineState, sid: SessionId)
    requires sid in e.sessions
  {
    && (forall w, p :: HasPane(e.sessions[sid], w, p) ==> p in e.paneWindow && e.paneWindow[p] == w)
    && (forall w :: HasWindow(e.sessions[sid], w) ==> w in e.windowSession && e.windowSession[w] == sid)
  }

  ghost predicate PaneScanned(e: EngineState, p: PaneId)
    requires p in e.paneWindow
  {
    var w := e.paneWindow[p];
    w in e.windowSession && e.windowSession[w] in e.sessions && HasPane(e.sessions[e.windowSession[w]], w, p)
  }

  ghost predicate WindowScanned(e: EngineState, w: WindowId)
    requires w in e.windowSession
  {
    e.windowSession[w] in e.sessions && HasWindow(e.sessions[e.windowSession[w]], w)
  }

  ghost predicate SameKeys(e: EngineState) {
    e.panes.Keys == e.paneWindow.Keys == e.supervisors.Keys
  }

  ghost predicate Inv(e: EngineState) {
    && (forall sid :: sid in e.sessions ==> SessionOk(sid, e.sessions[sid]) && Indexed(e, sid))
    && (forall p :: p in e.paneWindow ==> PaneScanned(e, p))
    && (forall w :: w in e.windowSession ==> WindowScanned(e, w))
    && SameKeys(e) && KeyedById(e.panes)
  }

  lemma InvRatios(e: EngineState)
    requires Inv(e)
    ensures RatiosEverywhere(e)
  {
    forall sid | sid in e.sessions ensures SessionRatios(e.sessions[sid]) {
      assert SessionOk(sid, e.sessions[sid]);
    }
  }

  ghost predicate Run(e: EngineState, ops: seq<Op>)
    decreases |ops|, 0
  {
    ops == [] || (
      && Run(e, ops[..|ops| - 1])
      && RatiosEverywhere(After(e, ops[..|ops| - 1]))
      && Enabled(After(e, ops[..|ops| - 1]), ops[|ops| - 1]))
  }

  ghost function After(e: EngineState, ops: seq<Op>): EngineState
    requires Run(e, ops)
    decreases |ops|, 1
  {
    if ops == [] then e else Next(After(e, ops[..|ops| - 1]), ops[|ops| - 1])
  }
}
