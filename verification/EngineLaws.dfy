/**
 What each structural operation does to the session it touches, and that it touches nothing else.
 crates/tymux-core/src/engine.rs, lines 470-524, 675-893, 998-1036 and 1270-1313.

 A pane is named by where a scan finds it (session, position of the window), never by what the index
 answers: the invariant makes the two agree.
 */
module EngineLaws {
  import opened Common
  import opened Restart
  import opened Layout
  import opened Persistence
  import opened Engine
  import opened EngineInv
  import opened EngineTheorems

  /** A supervisor that has just been told of its first start. */
  predicate JustStarted(sup: Supervisor, policy: RestartPolicy, now: nat) {
    && sup.policy == policy && sup.state == LifecycleState.Live && sup.startedAt == Some(now)
    && sup.restartCount == 0 && sup.restartLog == [] && sup.consecutiveFailures == 0
    && sup.lastExit.None? && sup.nextRestartAt.None? && !sup.stopRequested && !sup.restartRequested
  }

  /** `spawn` is a live pane of window `w`, supervised from now on under `policy`; every other pane is as before. */
  ghost predicate PaneJoins(e: EngineState, e': EngineState, spawn: Spawn, w: WindowId, policy: RestartPolicy) {
    && spawn.id in e'.panes && e'.panes[spawn.id] == PaneEntry.Live(spawn.pane)
    && spawn.id in e'.supervisors && JustStarted(e'.supervisors[spawn.id], policy, spawn.now)
    && spawn.id in e'.paneWindow && e'.paneWindow[spawn.id] == w
    && PanesKept(e, e', {spawn.id})
  }

  ghost predicate PanesKept(e: EngineState, e': EngineState, but: set<PaneId>) {
    forall p :: p !in but ==>
      && (p in e'.panes <==> p in e.panes) && (p in e.panes ==> e'.panes[p] == e.panes[p])
      && (p in e'.supervisors <==> p in e.supervisors) && (p in e.supervisors ==> e'.supervisors[p] == e.supervisors[p])
      && (p in e'.paneWindow <==> p in e.paneWindow) && (p in e.paneWindow ==> e'.paneWindow[p] == e.paneWindow[p])
  }

  ghost predicate SessionsKept(e: EngineState, e': EngineState, but: SessionId) {
    forall sid :: sid != but ==>
      (sid in e'.sessions <==> sid in e.sessions) && (sid in e.sessions ==> e'.sessions[sid] == e.sessions[sid])
  }

  /** `s'` is `s` with another window at position `i`: same name, same active window, same default policy. */
  ghost predicate WindowBecomes(s: SessionState, s': SessionState, i: nat, w: WindowState) {
    && s'.id == s.id && s'.name == s.name && s'.activeWindow == s.activeWindow && s'.defaultPolicy == s.defaultPolicy
    && |s'.windows| == |s.windows| && i < |s.windows| && s'.windows[i] == w
    && forall j :: 0 <= j < |s.windows| && j != i ==> s'.windows[j] == s.windows[j]
  }

  /** A scan finds `p` in window number `i` of session `sid`. */
  ghost predicate LiesIn(e: EngineState, p: PaneId, sid: SessionId, i: nat) {
    sid in e.sessions && i < |e.sessions[sid].windows| && p in Leaves(e.sessions[sid].windows[i].layout)
  }

  /** The index leads to the place the scan finds. */
  lemma LocateIs(e: EngineState, p: PaneId, sid: SessionId, i: nat)
    requires Inv(e) && LiesIn(e, p, sid, i)
    ensures Locate(e, p) == Some(Place(e.sessions[sid].windows[i].id, sid, i))
    ensures WindowOk(e.sessions[sid].windows[i]) && p in e.panes
  {
    hide Inv, Leaves, Locate, WindowOk;
    var s := e.sessions[sid];
    InvSession(e, sid);
    InvKeys(e);
    assert HasPane(s, s.windows[i].id, p);
    PaneImpliesWindow(s, s.windows[i].id, p);
    LocateFinds(e, p);
  }

  /** Adding a pane writes the three pane maps under its id, and nothing else. */
  lemma AddPaneJoins(e: EngineState, spawn: Spawn, w: WindowId, policy: RestartPolicy)
    ensures PaneJoins(e, AddPane(e, spawn, w, policy), spawn, w, policy)
    ensures AddPane(e, spawn, w, policy).sessions == e.sessions
    ensures AddPane(e, spawn, w, policy).windowSession == e.windowSession
  {
  }

  // ------------------------------------------------------------------ creating

  /** A new session: one window, active, holding the one pane, which is supervised under the policy given. */
  lemma CreateSessionOpens(e: EngineState, sid: SessionId, wid: WindowId, name: string, policy: RestartPolicy, spawn: Spawn)
    ensures var e' := DoCreateSession(e, sid, wid, name, policy, Some(spawn));
            if !policy.Valid() then e' == e
            else
              && SessionsKept(e, e', sid) && sid in e'.sessions && PaneJoins(e, e', spawn, wid, policy)
              && var s := e'.sessions[sid];
                 && s.id == sid && s.name == name && s.activeWindow == wid && s.defaultPolicy == policy
                 && s.windows == [WindowState(wid, "0", Leaf(spawn.id), 24, 80)]
                 && e'.windowSession == e.windowSession[wid := sid]
  {
    hide AddPane, PaneJoins;
    if policy.Valid() {
      var session := SessionState(sid, name, [NewWindow(wid, "0", spawn.id)], wid, policy);
      var e1 := e.(sessions := e.sessions[sid := session], windowSession := e.windowSession[wid := sid]);
      AddPaneJoins(e1, spawn, wid, policy);
      SameJoin(e, e1, AddPane(e1, spawn, wid, policy), spawn, wid, policy);
    }
  }

  lemma SameJoin(e: EngineState, e1: EngineState, e': EngineState, spawn: Spawn, w: WindowId, policy: RestartPolicy)
    requires e1.panes == e.panes && e1.supervisors == e.supervisors && e1.paneWindow == e.paneWindow
    ensures PaneJoins(e, e', spawn, w, policy) <==> PaneJoins(e1, e', spawn, w, policy)
  {
    hide JustStarted;
  }

  /** A new window goes last, is named by its number, and becomes the active one; its pane is supervised under the session's default. */
  lemma CreateWindowActivates(e: EngineState, sid: SessionId, wid: WindowId, spawn: Spawn)
    ensures var e' := DoCreateWindow(e, sid, wid, Some(spawn));
            if sid !in e.sessions then e' == e
            else
              var s := e.sessions[sid];
              && SessionsKept(e, e', sid) && sid in e'.sessions && PaneJoins(e, e', spawn, wid, s.defaultPolicy)
              && var s' := e'.sessions[sid];
                 && s'.id == s.id && s'.name == s.name && s'.activeWindow == wid && s'.defaultPolicy == s.defaultPolicy
                 && |s'.windows| == |s.windows| + 1 && s'.windows[..|s.windows|] == s.windows
                 && s'.windows[|s.windows|] == WindowState(wid, Decimal(|s.windows|), Leaf(spawn.id), 24, 80)
                 && e'.windowSession == e.windowSession[wid := sid]
  {
    hide AddPane, PaneJoins, Decimal;
    if sid in e.sessions {
      var s := e.sessions[sid];
      var s' := s.(windows := s.windows + [NewWindow(wid, Decimal(|s.windows|), spawn.id)], activeWindow := wid);
      var e1 := e.(sessions := e.sessions[sid := s'], windowSession := e.windowSession[wid := sid]);
      AddPaneJoins(e1, spawn, wid, s.defaultPolicy);
      SameJoin(e, e1, AddPane(e1, spawn, wid, s.defaultPolicy), spawn, wid, s.defaultPolicy);
    }
  }

  function DigitValue(c: char): nat {
    if '0' <= c <= '9' then c as int - '0' as int else 0
  }

  /** A string of digits, read from the left. */
  function ReadNumber(s: string): nat {
    if s == "" then 0 else 10 * ReadNumber(s[..|s| - 1]) + DigitValue(s[|s| - 1])
  }

  /** The name of a window is its number in decimal, without leading zeros: read back, it is that number. */
  lemma {:induction false} DecimalReadsBack(n: nat)
    ensures Decimal(n) != "" && ReadNumber(Decimal(n)) == n
    ensures forall i :: 0 <= i < |Decimal(n)| ==> '0' <= Decimal(n)[i] <= '9'
    ensures n > 0 ==> Decimal(n)[0] != '0'
  {
    var d, c := Decimal(n), "0123456789"[n % 10];
    if n < 10 {
      assert d == [c] && d[..0] == "";
      assert ReadNumber(d[..0]) == 0;
    } else {
      DecimalReadsBack(n / 10);
      assert d[..|d| - 1] == Decimal(n / 10) && d[|d| - 1] == c;
    }
    assert DigitValue(c) == n % 10;
  }

  // ------------------------------------------------------------------ splitting

  /**
   A split that is admitted replaces the target's leaf in its own window and nowhere else, keeps the
   active window, and puts the new pane under the session's default policy; one that is refused does nothing.
   */
  lemma SplitPlacesPane(e: EngineState, target: PaneId, o: Orientation, spawn: Spawn, sid: SessionId, i: nat)
    requires Inv(e) && RatiosEverywhere(e) && LiesIn(e, target, sid, i)
    ensures RatiosOk(e.sessions[sid].windows[i].layout)
    ensures var e' := DoSplit(e, target, o, Some(spawn));
            var s := e.sessions[sid];
            var w := s.windows[i];
            if !SplitVerdict(w.layout, target, o, w.rows, w.cols).Done? then e' == e
            else
              && SessionsKept(e, e', sid) && sid in e'.sessions && e'.windowSession == e.windowSession
              && PaneJoins(e, e', spawn, w.id, s.defaultPolicy)
              && WindowBecomes(s, e'.sessions[sid], i,
                               WindowState(w.id, w.name, SplitLeaf(w.layout, target, o, spawn.id), w.rows, w.cols))
  {
    hide Inv, Leaves, Locate, AddPane, PaneJoins, SplitVerdict, SplitLeaf, RatiosOk, JustStarted;
    LocateIs(e, target, sid, i);
    var s := e.sessions[sid];
    var w := s.windows[i];
    assert SessionRatios(s);
    if SplitVerdict(w.layout, target, o, w.rows, w.cols).Done? {
      var e1 := e.(sessions := e.sessions[sid := SetWindow(s, i, w.(layout := SplitLeaf(w.layout, target, o, spawn.id)))]);
      AddPaneJoins(e1, spawn, w.id, s.defaultPolicy);
      SameJoin(e, e1, AddPane(e1, spawn, w.id, s.defaultPolicy), spawn, w.id, s.defaultPolicy);
    }
  }

  /** A target no scan finds: nothing happens, whatever was spawned. */
  lemma SplitOfUnknownPane(e: EngineState, target: PaneId, o: Orientation, spawn: Option<Spawn>)
    requires Inv(e) && RatiosEverywhere(e) && forall sid, i: nat :: !LiesIn(e, target, sid, i)
    ensures DoSplit(e, target, o, spawn) == e && DoClose(e, target) == e
  {
    hide Inv, Leaves, Locate, SplitVerdict, RatiosEverywhere;
    LocateFinds(e, target);
    var place := Locate(e, target);
    assert place.Some? ==> LiesIn(e, target, place.value.session, place.value.position);
  }

  // ------------------------------------------------------------------ closing

  /** The pane is out of every map and everything else about panes is kept. */
  ghost predicate PaneLeaves(e: EngineState, e': EngineState, p: PaneId) {
    p !in e'.panes && p !in e'.supervisors && p !in e'.paneWindow && PanesKept(e, e', {p})
  }

  /** A pane with neighbours: only its window's layout changes, and the active window stays the active one. */
  lemma CloseKeepsActive(e: EngineState, p: PaneId, sid: SessionId, i: nat)
    requires Inv(e) && LiesIn(e, p, sid, i) && e.sessions[sid].windows[i].layout != Leaf(p)
    ensures var e' := DoClose(e, p);
            var s := e.sessions[sid];
            var w := s.windows[i];
            && Remove(w.layout, p).Collapsed?
            && SessionsKept(e, e', sid) && sid in e'.sessions && e'.windowSession == e.windowSession && PaneLeaves(e, e', p)
            && WindowBecomes(s, e'.sessions[sid], i, WindowState(w.id, w.name, Remove(w.layout, p).tree, w.rows, w.cols))
  {
    hide Inv, Leaves, Locate, Remove, WindowOk;
    LocateIs(e, p, sid, i);
    var w := e.sessions[sid].windows[i];
    OkDistinct(w);
    RemoveDeletesOne(w.layout, p);
  }

  /**
   The last pane of its window: that window goes, the others stay in order, and the first of them
   becomes the active one, whichever was active before; a session left without windows goes too.
   */
  lemma CloseActivatesFirst(e: EngineState, p: PaneId, sid: SessionId, i: nat)
    requires Inv(e) && LiesIn(e, p, sid, i) && e.sessions[sid].windows[i].layout == Leaf(p)
    ensures var e' := DoClose(e, p);
            var s := e.sessions[sid];
            && SessionsKept(e, e', sid) && PaneLeaves(e, e', p)
            && e'.windowSession == e.windowSession - {s.windows[i].id}
            && (sid in e'.sessions <==> |s.windows| > 1)
            && (|s.windows| > 1 ==>
                  var s' := e'.sessions[sid];
                  && s'.id == s.id && s'.name == s.name && s'.defaultPolicy == s.defaultPolicy
                  && |s'.windows| == |s.windows| - 1
                  && (forall j :: 0 <= j < i ==> s'.windows[j] == s.windows[j])
                  && (forall j :: i <= j < |s'.windows| ==> s'.windows[j] == s.windows[j + 1])
                  && s'.activeWindow == (if i == 0 then s.windows[1].id else s.windows[0].id))
  {
    hide Inv, Leaves, Locate, WindowOk;
    LocateIs(e, p, sid, i);
  }

  // ------------------------------------------------------------------ starting and resizing

  /** A start of a record keeps its policy, its count and its last exit; budget, backoff and requests begin afresh. */
  lemma StartRestoredAfresh(e: EngineState, p: PaneId, fallback: RestartPolicy, spawn: Spawn)
    requires p in e.panes && e.panes[p].Dead? && p in e.supervisors
    ensures var e' := DoStartRestored(e, p, fallback, Some(spawn));
            && e'.sessions == e.sessions && e'.windowSession == e.windowSession && e'.paneWindow == e.paneWindow
            && PanesKept(e, e', {p}) && p in e'.panes && e'.panes[p] == PaneEntry.Live(spawn.pane)
            && p in e'.supervisors
            && var before, sup := e.supervisors[p], e'.supervisors[p];
               && sup.policy == before.policy && sup.restartCount == before.restartCount && sup.lastExit == before.lastExit
               && JustStarted(sup.(restartCount := 0, lastExit := None), before.policy, spawn.now)
  {
  }

  /** A pane that runs, or does not exist, is not started again; nor is anything changed when the spawn fails. */
  lemma StartRestoredRefused(e: EngineState, p: PaneId, fallback: RestartPolicy, spawn: Option<Spawn>)
    ensures DoStartRestored(e, p, fallback, spawn) != e ==> p in e.panes && e.panes[p].Dead? && spawn.Some?
  {
  }

  /** A resize changes two numbers of one window. */
  lemma ResizeOnlySizes(e: EngineState, sid: SessionId, i: nat, rows: nat, cols: nat)
    requires Inv(e) && sid in e.sessions && i < |e.sessions[sid].windows|
    ensures var s := e.sessions[sid];
            var w := s.windows[i];
            var e' := DoResize(e, w.id, rows, cols);
            && SessionsKept(e, e', sid) && sid in e'.sessions
            && WindowBecomes(s, e'.sessions[sid], i, WindowState(w.id, w.name, w.layout, rows, cols))
            && e' == e.(sessions := e'.sessions)
  {
    hide Inv, WindowOk;
    var s := e.sessions[sid];
    InvSession(e, sid);
    assert HasWindow(s, s.windows[i].id);
  }

  // ------------------------------------------------------------------ policies over runs

  /** Every pane a scan finds is supervised under the default policy of its own session. */
  ghost predicate UnderDefault(e: EngineState) {
    forall sid, i: nat, p :: LiesIn(e, p, sid, i) ==> HasPolicy(e, p, e.sessions[sid].defaultPolicy)
  }

  ghost predicate HasPolicy(e: EngineState, p: PaneId, policy: RestartPolicy) {
    p in e.supervisors && e.supervisors[p].policy == policy
  }

  /** Nobody is given another policy by hand, and nothing is loaded from disk. */
  ghost predicate LeavesPolicies(e: EngineState, op: Op) {
    && !op.LoadPersisted?
    && (op.Supervise? && op.pane in e.supervisors ==> op.supervisor.policy == e.supervisors[op.pane].policy)
  }

  /** Panes other than `joined` keep their window and their policy; windows keep their session, sessions their default. */
  ghost predicate KeepsPolicies(e: EngineState, e': EngineState, joined: set<PaneId>) {
    && (forall p :: p in e'.paneWindow && p !in joined ==>
          p in e.paneWindow && e'.paneWindow[p] == e.paneWindow[p] && SamePolicy(e, e', p))
    && (forall w :: w in e.windowSession && w in e'.windowSession ==> e'.windowSession[w] == e.windowSession[w])
    && (forall sid :: sid in e.sessions && sid in e'.sessions ==> e'.sessions[sid].defaultPolicy == e.sessions[sid].defaultPolicy)
  }

  ghost predicate SamePolicy(e: EngineState, e': EngineState, p: PaneId) {
    p in e.supervisors ==> HasPolicy(e', p, e.supervisors[p].policy)
  }

  /** Where a pane lies, by the index. */
  lemma LiesWhereIndexed(e: EngineState, p: PaneId, sid: SessionId, i: nat)
    requires Inv(e) && LiesIn(e, p, sid, i)
    ensures var w := e.sessions[sid].windows[i].id;
            p in e.paneWindow && e.paneWindow[p] == w && w in e.windowSession && e.windowSession[w] == sid
  {
    hide Inv, Leaves, Locate;
    LocateIs(e, p, sid, i);
    LocateFinds(e, p);
  }

  /** A pane of the index lies in the session the index names. */
  lemma IndexedLies(e: EngineState, p: PaneId)
    requires Inv(e) && p in e.paneWindow
    ensures e.paneWindow[p] in e.windowSession
    ensures exists i: nat :: LiesIn(e, p, e.windowSession[e.paneWindow[p]], i)
  {
    hide Inv, Leaves, Locate;
    InvKeys(e);
    LocateFinds(e, p);
    assert LiesIn(e, p, Locate(e, p).value.session, Locate(e, p).value.position);
  }

  lemma StaysUnderDefault(e: EngineState, e': EngineState, joined: set<PaneId>)
    requires Inv(e) && Inv(e') && UnderDefault(e) && KeepsPolicies(e, e', joined)
    requires forall sid, i: nat, p :: p in joined && LiesIn(e', p, sid, i) ==> HasPolicy(e', p, e'.sessions[sid].defaultPolicy)
    ensures UnderDefault(e')
  {
    hide Inv, HasPolicy;
    forall sid, i: nat, p | LiesIn(e', p, sid, i) ensures HasPolicy(e', p, e'.sessions[sid].defaultPolicy) {
      if p !in joined {
        LiesWhereIndexed(e', p, sid, i);
        IndexedLies(e, p);
        var j: nat :| LiesIn(e, p, e.windowSession[e.paneWindow[p]], j);
        PolicyIs(e, p, e.sessions[sid].defaultPolicy);
      }
    }
  }

  lemma PolicyIs(e: EngineState, p: PaneId, policy: RestartPolicy)
    ensures HasPolicy(e, p, policy) <==> p in e.supervisors && e.supervisors[p].policy == policy
  {
  }

  /** Each operation that brings a pane brings it under its session's default; the others leave policies alone. */
  lemma DefaultStep(e: EngineState, op: Op)
    requires Inv(e) && RatiosEverywhere(e) && Enabled(e, op) && LeavesPolicies(e, op) && UnderDefault(e)
    ensures UnderDefault(Next(e, op))
  {
    hide Inv, UnderDefault, KeepsPolicies, RatiosEverywhere, DoCreateSession, DoCreateWindow, DoSplit, DoClose, DoKill, DoResize, DoStartRestored, DoSupervise;
    var e' := Next(e, op);
    InvNext(e, op);
    match op
    case CreateSession(sid, wid, name, policy, spawn) =>
      if spawn.Some? { CreateSessionDefault(e, sid, wid, name, policy, spawn.value); } else { NoSpawn(e, op); }
    case CreateWindow(sid, wid, spawn) =>
      if spawn.Some? { CreateWindowDefault(e, sid, wid, spawn.value); } else { NoSpawn(e, op); }
    case SplitPane(target, o, spawn) =>
      if spawn.Some? { SplitDefault(e, target, o, spawn.value); } else { NoSpawn(e, op); }
    case ClosePane(p) =>
      CloseKeepsPolicies(e, p);
      StaysUnderDefault(e, e', {});
    case KillSession(sid) =>
      KillKeepsPolicies(e, sid);
      StaysUnderDefault(e, e', {});
    case ResizeWindow(w, rows, cols) =>
      ResizeKeepsPolicies(e, w, rows, cols);
      StaysUnderDefault(e, e', {});
    case StartRestored(p, fallback, spawn) =>
      StartKeepsPolicies(e, p, fallback, spawn);
      StaysUnderDefault(e, e', {});
    case Supervise(p, sup) =>
      SuperviseKeepsPolicies(e, p, sup);
      StaysUnderDefault(e, e', {});
  }

  lemma NoSpawn(e: EngineState, op: Op)
    requires RatiosEverywhere(e)
    requires (op.CreateSession? || op.CreateWindow? || op.SplitPane?) && op.spawn.None?
    ensures Next(e, op) == e
  {
    hide RatiosEverywhere, Locate;
  }

  lemma KeptPanesKeepPolicies(e: EngineState, e': EngineState, but: set<PaneId>)
    requires PanesKept(e, e', but)
    requires forall w :: w in e.windowSession && w in e'.windowSession ==> e'.windowSession[w] == e.windowSession[w]
    requires forall sid :: sid in e.sessions && sid in e'.sessions ==> e'.sessions[sid].defaultPolicy == e.sessions[sid].defaultPolicy
    ensures KeepsPolicies(e, e', but)
  {
  }

  lemma JoinedUnderDefault(e: EngineState, e': EngineState, spawn: Spawn, w: WindowId, sid: SessionId)
    requires Inv(e) && Inv(e') && UnderDefault(e) && sid in e'.sessions && w in e'.windowSession && e'.windowSession[w] == sid
    requires PaneJoins(e, e', spawn, w, e'.sessions[sid].defaultPolicy) && KeepsPolicies(e, e', {spawn.id})
    ensures UnderDefault(e')
  {
    hide Inv, UnderDefault, KeepsPolicies, LiesIn;
    forall s, i: nat, p | p in {spawn.id} && LiesIn(e', p, s, i) ensures s in e'.sessions && HasPolicy(e', p, e'.sessions[s].defaultPolicy) {
      LiesWhereIndexed(e', p, s, i);
    }
    StaysUnderDefault(e, e', {spawn.id});
  }

  lemma CreateSessionDefault(e: EngineState, sid: SessionId, wid: WindowId, name: string, policy: RestartPolicy, spawn: Spawn)
    requires Inv(e) && UnderDefault(e) && sid !in e.sessions && wid !in e.windowSession
    requires Inv(DoCreateSession(e, sid, wid, name, policy, Some(spawn)))
    ensures UnderDefault(DoCreateSession(e, sid, wid, name, policy, Some(spawn)))
  {
    hide Inv, UnderDefault, KeepsPolicies, DoCreateSession;
    CreateSessionOpens(e, sid, wid, name, policy, spawn);
    if policy.Valid() {
      var e' := DoCreateSession(e, sid, wid, name, policy, Some(spawn));
      KeptPanesKeepPolicies(e, e', {spawn.id});
      JoinedUnderDefault(e, e', spawn, wid, sid);
    }
  }

  lemma CreateWindowDefault(e: EngineState, sid: SessionId, wid: WindowId, spawn: Spawn)
    requires Inv(e) && UnderDefault(e) && wid !in e.windowSession
    requires Inv(DoCreateWindow(e, sid, wid, Some(spawn)))
    ensures UnderDefault(DoCreateWindow(e, sid, wid, Some(spawn)))
  {
    hide Inv, UnderDefault, KeepsPolicies, DoCreateWindow;
    CreateWindowActivates(e, sid, wid, spawn);
    if sid in e.sessions {
      var e' := DoCreateWindow(e, sid, wid, Some(spawn));
      KeptPanesKeepPolicies(e, e', {spawn.id});
      JoinedUnderDefault(e, e', spawn, wid, sid);
    }
  }

  lemma SplitDefault(e: EngineState, target: PaneId, o: Orientation, spawn: Spawn)
    requires Inv(e) && RatiosEverywhere(e) && UnderDefault(e)
    requires Inv(DoSplit(e, target, o, Some(spawn)))
    ensures UnderDefault(DoSplit(e, target, o, Some(spawn)))
  {
    hide Inv, UnderDefault, KeepsPolicies, DoSplit, RatiosEverywhere, Leaves, SplitVerdict;
    if sid, i: nat :| LiesIn(e, target, sid, i) {
      LiesWhereIndexed(e, target, sid, i);
      SplitPlacesPane(e, target, o, spawn, sid, i);
      var w := e.sessions[sid].windows[i];
      if SplitVerdict(w.layout, target, o, w.rows, w.cols).Done? {
        var e' := DoSplit(e, target, o, Some(spawn));
        KeptPanesKeepPolicies(e, e', {spawn.id});
        JoinedUnderDefault(e, e', spawn, w.id, sid);
      }
    } else {
      SplitOfUnknownPane(e, target, o, Some(spawn));
    }
  }

  lemma CloseKeepsPolicies(e: EngineState, p: PaneId)
    ensures KeepsPolicies(e, DoClose(e, p), {})
  {
    hide Remove, Locate;
  }

  lemma KillKeepsPolicies(e: EngineState, sid: SessionId)
    ensures KeepsPolicies(e, DoKill(e, sid), {})
  {
  }

  lemma ResizeKeepsPolicies(e: EngineState, w: WindowId, rows: nat, cols: nat)
    ensures KeepsPolicies(e, DoResize(e, w, rows, cols), {})
  {
    hide LocateWindow;
  }

  lemma StartKeepsPolicies(e: EngineState, p: PaneId, fallback: RestartPolicy, spawn: Option<Spawn>)
    ensures KeepsPolicies(e, DoStartRestored(e, p, fallback, spawn), {})
  {
  }

  lemma SuperviseKeepsPolicies(e: EngineState, p: PaneId, sup: Supervisor)
    requires p in e.supervisors ==> sup.policy == e.supervisors[p].policy
    ensures KeepsPolicies(e, DoSupervise(e, p, sup), {})
  {
  }

  ghost predicate PoliciesLeftAlone(e: EngineState, ops: seq<Op>)
    requires Run(e, ops)
  {
    ops == [] || (
      var prefix := ops[..|ops| - 1];
      PoliciesLeftAlone(e, prefix) && LeavesPolicies(After(e, prefix), ops[|ops| - 1]))
  }

  /**
   Over every run of creating, splitting, closing, killing, starting and resizing in which no pane is
   given a policy of its own, each pane is supervised under the default its session was created with.
   */
  lemma {:induction false} PanesInheritDefault(ops: seq<Op>)
    requires Run(EMPTY, ops) && PoliciesLeftAlone(EMPTY, ops)
    ensures UnderDefault(After(EMPTY, ops))
  {
    hide Inv, UnderDefault, Next, Enabled, RatiosEverywhere, LeavesPolicies;
    if ops == [] {
      EmptyUnderDefault();
    } else {
      var prefix := ops[..|ops| - 1];
      PanesInheritDefault(prefix);
      InvEmpty();
      InvRun(EMPTY, prefix);
      DefaultStep(After(EMPTY, prefix), ops[|ops| - 1]);
    }
  }

  lemma EmptyUnderDefault()
    ensures UnderDefault(EMPTY)
  {
  }
}
