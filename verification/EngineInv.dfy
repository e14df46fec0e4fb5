/**
 The reverse index always agrees with scanning every layout: each whole operation keeps the
 invariant of `Engine`. Every operation touches one session, so all proofs go through one lemma,
 `OneSessionChanged`, that reduces the global statement to that session.
 */
module EngineInv {
  import opened Common
  import opened Restart
  import opened Layout
  import opened LayoutRuns
  import opened Persistence
  import opened Engine

  /** Index entries that belong to another session than `sid`. */
  ghost predicate Foreign(e: EngineState, sid: SessionId, p: PaneId) {
    p in e.paneWindow && e.paneWindow[p] in e.windowSession && e.windowSession[e.paneWindow[p]] != sid
  }

  ghost predicate ForeignWindow(e: EngineState, sid: SessionId, w: WindowId) {
    w in e.windowSession && e.windowSession[w] != sid
  }

  /** Other sessions and their index entries are the same in `e` and `e'`. */
  ghost predicate OthersKept(e: EngineState, e': EngineState, sid: SessionId) {
    && (forall s :: s != sid ==> (s in e'.sessions <==> s in e.sessions))
    && (forall s :: s != sid && s in e.sessions ==> s in e'.sessions && e'.sessions[s] == e.sessions[s])
    && (forall p :: Foreign(e, sid, p) ==> p in e'.paneWindow && e'.paneWindow[p] == e.paneWindow[p])
    && (forall w :: ForeignWindow(e, sid, w) ==> w in e'.windowSession && e'.windowSession[w] == e.windowSession[w])
  }

  /** All index entries of `e'` are another session's, or found in session `sid`. */
  ghost predicate OwnScanned(e: EngineState, e': EngineState, sid: SessionId) {
    && (forall p :: p in e'.paneWindow ==> Foreign(e, sid, p) || OwnPane(e', sid, p))
    && (forall w :: w in e'.windowSession ==> ForeignWindow(e, sid, w) || OwnWindow(e', sid, w))
  }

  ghost predicate OwnPane(e: EngineState, sid: SessionId, p: PaneId)
    requires p in e.paneWindow
  {
    sid in e.sessions && HasPane(e.sessions[sid], e.paneWindow[p], p)
  }

  ghost predicate OwnWindow(e: EngineState, sid: SessionId, w: WindowId)
    requires w in e.windowSession
  {
    sid in e.sessions && HasWindow(e.sessions[sid], w)
  }

  lemma PaneImpliesWindow(s: SessionState, w: WindowId, p: PaneId)
    requires HasPane(s, w, p)
    ensures HasWindow(s, w)
  {
  }

  lemma OneSessionChanged(e: EngineState, e': EngineState, sid: SessionId)
    requires Inv(e) && OthersKept(e, e', sid) && OwnScanned(e, e', sid)
    requires sid in e'.sessions ==> SessionOk(sid, e'.sessions[sid]) && Indexed(e', sid)
    requires SameKeys(e') && KeyedById(e'.panes)
    ensures Inv(e')
  {
    hide HasPane, HasWindow, SessionOk, SameKeys, KeyedById;
    forall s | s in e'.sessions ensures SessionOk(s, e'.sessions[s]) && Indexed(e', s) {
      if s != sid {
        OtherIndexed(e, e', sid, s);
      }
    }
    forall p | p in e'.paneWindow ensures PaneScanned(e', p) {
      if Foreign(e, sid, p) {
        assert PaneScanned(e, p);
        assert ForeignWindow(e, sid, e.paneWindow[p]);
      } else {
        assert OwnPane(e', sid, p);
        PaneImpliesWindow(e'.sessions[sid], e'.paneWindow[p], p);
      }
    }
    forall w | w in e'.windowSession ensures WindowScanned(e', w) {
      if ForeignWindow(e, sid, w) {
        assert WindowScanned(e, w);
      } else {
        assert OwnWindow(e', sid, w);
      }
    }
  }

  lemma OtherIndexed(e: EngineState, e': EngineState, sid: SessionId, s: SessionId)
    requires Inv(e) && OthersKept(e, e', sid) && s != sid && s in e'.sessions
    ensures s in e.sessions && e'.sessions[s] == e.sessions[s] && SessionOk(s, e'.sessions[s]) && Indexed(e', s)
  {
    hide HasPane, HasWindow, SessionOk, SameKeys, KeyedById;
    assert Indexed(e, s);
    forall w, p | HasPane(e'.sessions[s], w, p) ensures p in e'.paneWindow && e'.paneWindow[p] == w {
      PaneImpliesWindow(e.sessions[s], w, p);
      assert Foreign(e, sid, p);
    }
    forall w | HasWindow(e'.sessions[s], w) ensures w in e'.windowSession && e'.windowSession[w] == s {
      assert ForeignWindow(e, sid, w);
    }
  }

  /** A session that does not exist owns nothing. */
  lemma NewOwner(e: EngineState, sid: SessionId)
    requires Inv(e) && sid !in e.sessions
    ensures forall p :: p in e.paneWindow ==> Foreign(e, sid, p)
    ensures forall w :: w in e.windowSession ==> ForeignWindow(e, sid, w)
  {
    forall p | p in e.paneWindow ensures Foreign(e, sid, p) { assert PaneScanned(e, p); }
    forall w | w in e.windowSession ensures ForeignWindow(e, sid, w) { assert WindowScanned(e, w); }
  }

  // ------------------------------------------------------------------ lookups

  /** What the index answers for a pane is where the scan finds it. */
  lemma LocateFinds(e: EngineState, p: PaneId)
    requires Inv(e)
    ensures Locate(e, p).Some? <==> p in e.panes
    ensures var r := Locate(e, p);
            r.Some? ==>
              && p in e.paneWindow && r.value.window == e.paneWindow[p] && r.value.window in e.windowSession
              && r.value.session == e.windowSession[r.value.window] == e.sessions[r.value.session].id
              && e.sessions[r.value.session].windows[r.value.position].id == r.value.window
              && p in Leaves(e.sessions[r.value.session].windows[r.value.position].layout)
  {
    hide KeyedById;
    if p in e.paneWindow {
      assert PaneScanned(e, p);
      var w := e.paneWindow[p];
      var s := e.sessions[e.windowSession[w]];
      assert SessionOk(e.windowSession[w], s);
      var i :| 0 <= i < |s.windows| && s.windows[i].id == w && p in Leaves(s.windows[i].layout);
      var at := Position(s.windows, w);
      assert at.Some?;
      assert at.value == i;
    }
  }

  // ------------------------------------------------------------------ create and split

  ghost predicate Had(e: EngineState, sid: SessionId, w: WindowId, p: PaneId) {
    sid in e.sessions && HasPane(e.sessions[sid], w, p)
  }

  ghost predicate HadWindow(e: EngineState, sid: SessionId, w: WindowId) {
    sid in e.sessions && HasWindow(e.sessions[sid], w)
  }

  /** The panes of `s` are those session `sid` had, and `p` in window `w`; likewise for windows. */
  ghost predicate AddsPane(e: EngineState, sid: SessionId, s: SessionState, w: WindowId, p: PaneId) {
    && (forall w', p' :: HasPane(s, w', p') <==> Had(e, sid, w', p') || (w' == w && p' == p))
    && (forall w' :: HasWindow(s, w') <==> HadWindow(e, sid, w') || w' == w)
  }

  lemma PaneAdded(e: EngineState, sid: SessionId, s: SessionState, w: WindowId, spawn: Spawn, policy: RestartPolicy)
    requires Inv(e) && spawn.id !in e.panes && SessionOk(sid, s) && AddsPane(e, sid, s, w, spawn.id)
    requires w in e.windowSession ==> e.windowSession[w] == sid
    ensures Inv(AddPane(e.(sessions := e.sessions[sid := s], windowSession := e.windowSession[w := sid]), spawn, w, policy))
  {
    hide HasPane, HasWindow, SessionOk, Registered, OthersKept, OwnScanned, Inv, Indexed, KeyedById, AddsPane;
    var e' := AddPane(e.(sessions := e.sessions[sid := s], windowSession := e.windowSession[w := sid]), spawn, w, policy);
    IndexedAfterAdding(e, e', sid, s, w, spawn.id);
    OwnAfterAdding(e, e', sid, s, w, spawn.id);
    KeysAfterAdding(e, e', spawn.id);
    OneSessionChanged(e, e', sid);
  }

  lemma KeysAfterAdding(e: EngineState, e': EngineState, p: PaneId)
    requires Inv(e)
    requires e'.panes.Keys == e.panes.Keys + {p} && e'.paneWindow.Keys == e.paneWindow.Keys + {p}
    requires e'.supervisors.Keys == e.supervisors.Keys + {p}
    requires p in e'.panes && e'.panes[p].Live? && forall q :: q in e.panes && q != p ==> e'.panes[q] == e.panes[q]
    ensures SameKeys(e') && KeyedById(e'.panes)
  {
  }

  lemma IndexedAfterAdding(e: EngineState, e': EngineState, sid: SessionId, s: SessionState, w: WindowId, p: PaneId)
    requires Inv(e) && p !in e.panes && AddsPane(e, sid, s, w, p) && e'.sessions == e.sessions[sid := s]
    requires w in e.windowSession ==> e.windowSession[w] == sid
    requires e'.paneWindow == e.paneWindow[p := w] && e'.windowSession == e.windowSession[w := sid]
    ensures Indexed(e', sid) && OthersKept(e, e', sid)
  {
    hide HasPane, HasWindow, SessionOk, Inv, SameKeys, KeyedById;
    InvKeys(e);
    if sid in e.sessions {
      InvSession(e, sid);
    }
    assert Indexed(e', sid) by {
      hide OthersKept, Foreign, ForeignWindow;
      forall w', p' | HasPane(s, w', p') ensures p' in e'.paneWindow && e'.paneWindow[p'] == w' {
        assert Had(e, sid, w', p') || (w' == w && p' == p);
      }
      forall w' | HasWindow(s, w') ensures w' in e'.windowSession && e'.windowSession[w'] == sid {
        assert HadWindow(e, sid, w') || w' == w;
      }
    }
    assert OthersKept(e, e', sid) by {
      hide AddsPane, Had, HadWindow, Indexed;
    }
  }

  lemma InvKeys(e: EngineState)
    requires Inv(e)
    ensures e.panes.Keys == e.paneWindow.Keys == e.supervisors.Keys
    ensures SameKeys(e) && KeyedById(e.panes)
  {
  }

  lemma InvSession(e: EngineState, sid: SessionId)
    requires Inv(e) && sid in e.sessions
    ensures SessionOk(sid, e.sessions[sid]) && Indexed(e, sid)
  {
  }

  lemma OwnAfterAdding(e: EngineState, e': EngineState, sid: SessionId, s: SessionState, w: WindowId, p: PaneId)
    requires Inv(e) && AddsPane(e, sid, s, w, p) && sid in e'.sessions && e'.sessions[sid] == s
    requires e'.paneWindow == e.paneWindow[p := w] && e'.windowSession == e.windowSession[w := sid]
    ensures OwnScanned(e, e', sid)
  {
    hide HasPane, HasWindow, SessionOk, SameKeys, KeyedById, Indexed;
    forall p' | p' in e'.paneWindow ensures Foreign(e, sid, p') || OwnPane(e', sid, p') {
      if p' != p {
        assert PaneScanned(e, p');
        assert Foreign(e, sid, p') || Had(e, sid, e.paneWindow[p'], p');
      } else {
        assert HasPane(s, w, p);
      }
    }
    forall w' | w' in e'.windowSession ensures ForeignWindow(e, sid, w') || OwnWindow(e', sid, w') {
      if w' != w {
        assert WindowScanned(e, w');
        assert ForeignWindow(e, sid, w') || HadWindow(e, sid, w');
      } else {
        assert HasWindow(s, w);
      }
    }
  }

  lemma CreateSessionInv(e: EngineState, sid: SessionId, wid: WindowId, name: string, policy: RestartPolicy, spawn: Option<Spawn>)
    requires Inv(e) && sid !in e.sessions && wid !in e.windowSession && FreshSpawn(e, spawn)
    ensures Inv(DoCreateSession(e, sid, wid, name, policy, spawn))
  {
    hide Inv, AddPane;
    if policy.Valid() && spawn.Some? {
      var p := spawn.value.id;
      var s := SessionState(sid, name, [NewWindow(wid, "0", p)], wid, policy);
      NewWindowOk(wid, "0", p);
      assert SessionOk(sid, s);
      assert AddsPane(e, sid, s, wid, p) by {
        assert s.windows[0].id == wid && Leaves(s.windows[0].layout) == [p];
      }
      PaneAdded(e, sid, s, wid, spawn.value, policy);
    }
  }

  lemma NewWindowOk(wid: WindowId, name: string, p: PaneId)
    ensures WindowOk(NewWindow(wid, name, p)) && Leaves(NewWindow(wid, name, p).layout) == [p]
  {
  }

  lemma CreateWindowInv(e: EngineState, sid: SessionId, wid: WindowId, spawn: Option<Spawn>)
    requires Inv(e) && wid !in e.windowSession && FreshSpawn(e, spawn)
    ensures Inv(DoCreateWindow(e, sid, wid, spawn))
  {
    if spawn.Some? && sid in e.sessions {
      var p, s := spawn.value.id, e.sessions[sid];
      var w := NewWindow(wid, Decimal(|s.windows|), p);
      var s' := s.(windows := s.windows + [w], activeWindow := wid);
      NewWindowOk(wid, Decimal(|s.windows|), p);
      assert SessionOk(sid, s) && Indexed(e, sid);
      WindowAppended(s, s', w);
      assert SessionOk(sid, s') by {
        hide Inv, HasPane, WindowOk, NewWindow;
        forall i | 0 <= i < |s.windows| ensures s.windows[i].id != wid { assert HasWindow(s, s.windows[i].id); }
      }
      hide *;
      assert AddsPane(e, sid, s', wid, p);
      PaneAdded(e, sid, s', wid, spawn.value, s.defaultPolicy);
    }
  }

  lemma WindowAppended(s: SessionState, s': SessionState, w: WindowState)
    requires s'.windows == s.windows + [w]
    ensures forall w', p' :: HasPane(s', w', p') <==> HasPane(s, w', p') || (w' == w.id && p' in Leaves(w.layout))
    ensures forall w' :: HasWindow(s', w') <==> HasWindow(s, w') || w' == w.id
  {
    hide Leaves;
    assert s'.windows[|s.windows|] == w;
    forall w', p' | HasPane(s, w', p') ensures HasPane(s', w', p') {
      var i :| 0 <= i < |s.windows| && s.windows[i].id == w' && p' in Leaves(s.windows[i].layout);
      assert s'.windows[i] == s.windows[i];
    }
    forall w' | HasWindow(s, w') ensures HasWindow(s', w') {
      var i :| 0 <= i < |s.windows| && s.windows[i].id == w';
      assert s'.windows[i] == s.windows[i];
    }
  }

  // ------------------------------------------------------------------ one window replaced

  /** Replacing a window by one with the same id changes exactly that window's panes. */
  lemma WindowReplaced(s: SessionState, i: nat, w: WindowState)
    requires i < |s.windows| && w.id == s.windows[i].id && SessionOk(s.id, s)
    ensures var s' := SetWindow(s, i, w);
            && (forall w', p' :: HasPane(s', w', p') <==> if w' == w.id then p' in Leaves(w.layout) else HasPane(s, w', p'))
            && (forall p' :: HasPane(s, w.id, p') <==> p' in Leaves(s.windows[i].layout))
            && (forall w' :: HasWindow(s', w') <==> HasWindow(s, w'))
            && (WindowOk(w) ==> SessionOk(s.id, s'))
  {
    hide Leaves, WindowOk;
    var s' := SetWindow(s, i, w);
    assert s'.windows[i] == w && forall j :: 0 <= j < |s.windows| && j != i ==> s'.windows[j] == s.windows[j];
    forall w', p' ensures HasPane(s', w', p') <==> if w' == w.id then p' in Leaves(w.layout) else HasPane(s, w', p') {
      if HasPane(s', w', p') {
        var j :| 0 <= j < |s'.windows| && s'.windows[j].id == w' && p' in Leaves(s'.windows[j].layout);
        assert j == i || s'.windows[j] == s.windows[j];
      }
      if w' != w.id && HasPane(s, w', p') {
        var j :| 0 <= j < |s.windows| && s.windows[j].id == w' && p' in Leaves(s.windows[j].layout);
        assert s'.windows[j] == s.windows[j];
      }
    }
    forall w' ensures HasWindow(s', w') <==> HasWindow(s, w') {
      if HasWindow(s, w') {
        var j :| 0 <= j < |s.windows| && s.windows[j].id == w';
        assert s'.windows[j].id == w';
      }
      if HasWindow(s', w') {
        var j :| 0 <= j < |s'.windows| && s'.windows[j].id == w';
        assert s.windows[j].id == w';
      }
    }
  }

  lemma SplitWindowOk(w: WindowState, target: PaneId, o: Orientation, added: PaneId)
    requires WindowOk(w) && added !in Leaves(w.layout) && target in Leaves(w.layout)
    ensures var w' := w.(layout := SplitLeaf(w.layout, target, o, added));
            WindowOk(w') && forall p :: p in Leaves(w'.layout) <==> p in Leaves(w.layout) || p == added
  {
    hide Leaves, SplitLeaf;
    SplitAddsOne(w.layout, target, o, added);
    SplitKeepsDistinct(w.layout, target, o, added);
    SplitStaysLoadable(w.layout, target, o, added);
    InsertedMembers(Leaves(w.layout), target, added);
  }

  lemma SplitInv(e: EngineState, target: PaneId, o: Orientation, spawn: Option<Spawn>)
    requires Inv(e) && RatiosEverywhere(e) && FreshSpawn(e, spawn)
    ensures Inv(DoSplit(e, target, o, spawn))
  {
    hide Inv, Leaves, SplitLeaf, HasPane, HasWindow, WindowOk, AddPane, Locate, SplitVerdict;
    LocateFinds(e, target);
    var place := Locate(e, target);
    if spawn.Some? && place.Some? {
      var sid, i, p := place.value.session, place.value.position, spawn.value.id;
      var s := e.sessions[sid];
      var w := s.windows[i];
      InvSession(e, sid);
      InvKeys(e);
      WindowReplaced(s, i, w);
      assert p !in Leaves(w.layout) by { assert !HasPane(s, w.id, p); }
      var w' := w.(layout := SplitLeaf(w.layout, target, o, p));
      SplitWindowOk(w, target, o, p);
      WindowReplaced(s, i, w');
      assert HasWindow(s, w.id) by { PaneImpliesWindow(s, w.id, target); }
      assert AddsPane(e, sid, SetWindow(s, i, w'), w.id, p);
      assert e.windowSession[w.id := sid] == e.windowSession;
      PaneAdded(e, sid, SetWindow(s, i, w'), w.id, spawn.value, s.defaultPolicy);
    }
  }

  // ------------------------------------------------------------------ close and kill

  /** `e` after the panes in `gone` and the windows in `shut`, all of session `sid`, were taken out. */
  ghost predicate TakenOut(e: EngineState, e': EngineState, sid: SessionId, gone: set<PaneId>, shut: set<WindowId>) {
    && (forall s :: s != sid ==> (s in e'.sessions <==> s in e.sessions) && (s in e.sessions ==> e'.sessions[s] == e.sessions[s]))
    && e'.panes == e.panes - gone && e'.paneWindow == e.paneWindow - gone && e'.supervisors == e.supervisors - gone
    && e'.windowSession == e.windowSession - shut
    && (forall w, p :: Had(e', sid, w, p) <==> Had(e, sid, w, p) && p !in gone)
    && (forall w :: HadWindow(e', sid, w) <==> HadWindow(e, sid, w) && w !in shut)
    && (forall p :: p in gone ==> exists w :: Had(e, sid, w, p))
    && (forall w :: w in shut ==> HadWindow(e, sid, w))
  }

  lemma TakenOutInv(e: EngineState, e': EngineState, sid: SessionId, gone: set<PaneId>, shut: set<WindowId>)
    requires Inv(e) && sid in e.sessions && TakenOut(e, e', sid, gone, shut)
    requires sid in e'.sessions ==> SessionOk(sid, e'.sessions[sid])
    ensures Inv(e')
  {
    hide Inv, HasPane, HasWindow, SessionOk, OthersKept, OwnScanned, Indexed;
    InvKeys(e);
    OthersAfterTaking(e, e', sid, gone, shut);
    OwnAfterTaking(e, e', sid, gone, shut);
    assert SameKeys(e') && KeyedById(e'.panes);
    OneSessionChanged(e, e', sid);
  }

  lemma OthersAfterTaking(e: EngineState, e': EngineState, sid: SessionId, gone: set<PaneId>, shut: set<WindowId>)
    requires Inv(e) && sid in e.sessions && TakenOut(e, e', sid, gone, shut)
    ensures OthersKept(e, e', sid) && (sid in e'.sessions ==> Indexed(e', sid))
  {
    hide Inv, HasPane, HasWindow, SessionOk;
    InvSession(e, sid);
    forall p | Foreign(e, sid, p) ensures p !in gone {
      if p in gone {
        var w :| Had(e, sid, w, p);
        PaneImpliesWindow(e.sessions[sid], w, p);
        assert false;
      }
    }
    if sid in e'.sessions {
      forall w, p | HasPane(e'.sessions[sid], w, p) ensures p in e'.paneWindow && e'.paneWindow[p] == w {
        assert Had(e', sid, w, p);
      }
      forall w | HasWindow(e'.sessions[sid], w) ensures w in e'.windowSession && e'.windowSession[w] == sid {
        assert HadWindow(e', sid, w);
      }
    }
  }

  lemma OwnAfterTaking(e: EngineState, e': EngineState, sid: SessionId, gone: set<PaneId>, shut: set<WindowId>)
    requires Inv(e) && TakenOut(e, e', sid, gone, shut)
    ensures OwnScanned(e, e', sid)
  {
    hide HasPane, HasWindow, SessionOk, SameKeys, KeyedById, Indexed;
    forall p | p in e'.paneWindow ensures Foreign(e, sid, p) || OwnPane(e', sid, p) {
      assert PaneScanned(e, p);
      assert Foreign(e, sid, p) || Had(e, sid, e.paneWindow[p], p);
    }
    forall w | w in e'.windowSession ensures ForeignWindow(e, sid, w) || OwnWindow(e', sid, w) {
      assert WindowScanned(e, w);
      assert ForeignWindow(e, sid, w) || HadWindow(e, sid, w);
    }
  }

  lemma WindowRemoved(s: SessionState, i: nat)
    requires i < |s.windows| && SessionOk(s.id, s)
    ensures var s', gone := CloseWindow(s, i), s.windows[i].id;
            && (forall w, p :: HasPane(s', w, p) <==> HasPane(s, w, p) && w != gone)
            && (forall w :: HasWindow(s', w) <==> HasWindow(s, w) && w != gone)
            && SessionOk(s.id, s')
  {
    hide Leaves, WindowOk, HasPane, HasWindow;
    var s', gone := CloseWindow(s, i), s.windows[i].id;
    assert forall j :: 0 <= j < |s'.windows| ==> s'.windows[j] == s.windows[if j < i then j else j + 1];
    forall w, p ensures HasPane(s', w, p) <==> HasPane(s, w, p) && w != gone {
      PaneAfterRemoval(s, i, w, p);
    }
    forall w ensures HasWindow(s', w) <==> HasWindow(s, w) && w != gone {
      WindowAfterRemoval(s, i, w);
    }
  }

  lemma PaneAfterRemoval(s: SessionState, i: nat, w: WindowId, p: PaneId)
    requires i < |s.windows| && SessionOk(s.id, s)
    ensures HasPane(CloseWindow(s, i), w, p) <==> HasPane(s, w, p) && w != s.windows[i].id
  {
    hide Leaves, WindowOk;
    var s' := CloseWindow(s, i);
    if HasPane(s', w, p) {
      var j :| 0 <= j < |s'.windows| && s'.windows[j].id == w && p in Leaves(s'.windows[j].layout);
      assert s'.windows[j] == s.windows[if j < i then j else j + 1];
    }
    if HasPane(s, w, p) && w != s.windows[i].id {
      var j :| 0 <= j < |s.windows| && s.windows[j].id == w && p in Leaves(s.windows[j].layout);
      assert s.windows[j] == s'.windows[if j < i then j else j - 1];
    }
  }

  lemma WindowAfterRemoval(s: SessionState, i: nat, w: WindowId)
    requires i < |s.windows| && SessionOk(s.id, s)
    ensures HasWindow(CloseWindow(s, i), w) <==> HasWindow(s, w) && w != s.windows[i].id
  {
    hide Leaves, WindowOk;
    var s' := CloseWindow(s, i);
    if HasWindow(s', w) {
      var j :| 0 <= j < |s'.windows| && s'.windows[j].id == w;
      assert s'.windows[j] == s.windows[if j < i then j else j + 1];
    }
    if HasWindow(s, w) && w != s.windows[i].id {
      var j :| 0 <= j < |s.windows| && s.windows[j].id == w;
      assert s.windows[j] == s'.windows[if j < i then j else j - 1];
    }
  }

  lemma CollapsedWindowOk(w: WindowState, p: PaneId)
    requires WindowOk(w) && Remove(w.layout, p).Collapsed?
    ensures var w' := w.(layout := Remove(w.layout, p).tree);
            WindowOk(w') && forall q :: q in Leaves(w'.layout) <==> q in Leaves(w.layout) && q != p
  {
    hide Leaves, Remove;
    RemoveDeletesOne(w.layout, p);
    CloseStaysLoadable(w.layout, p);
    WithoutMembers(Leaves(w.layout), p);
    WithoutRemoves(Leaves(w.layout), p);
    forall q | q in Leaves(w.layout) && q != p ensures q in Without(Leaves(w.layout), p) {
      WithoutKeeps(Leaves(w.layout), p, q);
    }
  }

  /** Closing takes out exactly the pane, its window when that was its last pane, and its session when that was its last window. */
  lemma CloseTakesOut(e: EngineState, p: PaneId)
    requires Inv(e) && p in e.panes
    ensures p in e.paneWindow && e.paneWindow[p] in e.windowSession
    ensures var w := e.paneWindow[p];
            var sid := e.windowSession[w];
            var place := Locate(e, p);
            place.Some? && place.value.session == sid && sid in e.sessions &&
            var last := e.sessions[sid].windows[place.value.position].layout == Leaf(p);
            && TakenOut(e, DoClose(e, p), sid, {p}, if last then {w} else {})
            && (sid in DoClose(e, p).sessions ==> SessionOk(sid, DoClose(e, p).sessions[sid]))
            && (sid !in DoClose(e, p).sessions <==> last && |e.sessions[sid].windows| == 1)
  {
    hide Inv, Leaves, Remove, HasPane, HasWindow, WindowOk, Locate;
    LocateFinds(e, p);
    var place := Locate(e, p);
    var sid, i := place.value.session, place.value.position;
    var s := e.sessions[sid];
    var w := s.windows[i];
    InvSession(e, sid);
    WindowReplaced(s, i, w);
    PaneImpliesWindow(s, w.id, p);
    OkDistinct(w);
    RemoveDeletesOne(w.layout, p);
    var e' := DoClose(e, p);
    assert Had(e, sid, w.id, p);
    if w.layout == Leaf(p) {
      LeafAlone(p);
      WindowRemoved(s, i);
      assert TakenOut(e, e', sid, {p}, {w.id}) by {
        if |s.windows| == 1 {
          NoWindowsNoPanes(CloseWindow(s, i));
        }
      }
    } else {
      CollapsedWindowOk(w, p);
      WindowReplaced(s, i, w.(layout := Remove(w.layout, p).tree));
      assert TakenOut(e, e', sid, {p}, {});
    }
  }

  lemma OkDistinct(w: WindowState)
    requires WindowOk(w)
    ensures Distinct(w.layout) && RatiosOk(w.layout)
  {
  }

  lemma LeafAlone(p: PaneId)
    ensures Leaves(Leaf(p)) == [p]
  {
  }

  lemma NoWindowsNoPanes(s: SessionState)
    requires s.windows == []
    ensures forall w, p :: !HasPane(s, w, p)
    ensures forall w :: !HasWindow(s, w)
  {
  }

  lemma CloseInv(e: EngineState, p: PaneId)
    requires Inv(e)
    ensures Inv(DoClose(e, p))
  {
    hide Inv, Leaves, Remove, HasPane, HasWindow, SessionOk, TakenOut;
    LocateFinds(e, p);
    if p in e.panes {
      CloseTakesOut(e, p);
      hide DoClose, Locate;
      var w := e.paneWindow[p];
      var sid := e.windowSession[w];
      var last := e.sessions[sid].windows[Locate(e, p).value.position].layout == Leaf(p);
      TakenOutInv(e, DoClose(e, p), sid, {p}, if last then {w} else {});
    }
  }

  lemma {:induction false} LeavesOfWindows(windows: seq<WindowState>)
    ensures forall p :: p in WindowLeaves(windows) <==> exists i :: 0 <= i < |windows| && p in Leaves(windows[i].layout)
  {
    hide Leaves;
    if windows != [] {
      var n := |windows| - 1;
      LeavesOfWindows(windows[..n]);
      assert forall i :: 0 <= i < n ==> windows[..n][i] == windows[i];
    }
  }

  lemma KillTakesOut(e: EngineState, sid: SessionId)
    requires sid in e.sessions
    ensures var s := e.sessions[sid];
            TakenOut(e, DoKill(e, sid), sid, SetOf(WindowLeaves(s.windows)), SetOf(WindowIds(s.windows)))
  {
    hide Leaves, WindowLeaves;
    var s := e.sessions[sid];
    LeavesOfWindows(s.windows);
    var gone, shut := SetOf(WindowLeaves(s.windows)), SetOf(WindowIds(s.windows));
    forall p | p in gone ensures exists w :: Had(e, sid, w, p) {
      var i :| 0 <= i < |s.windows| && p in Leaves(s.windows[i].layout);
      assert Had(e, sid, s.windows[i].id, p);
    }
  }

  lemma KillInv(e: EngineState, sid: SessionId)
    requires Inv(e)
    ensures Inv(DoKill(e, sid))
  {
    hide Inv, TakenOut, WindowLeaves, SetOf;
    if sid in e.sessions {
      KillTakesOut(e, sid);
      var s := e.sessions[sid];
      TakenOutInv(e, DoKill(e, sid), sid, SetOf(WindowLeaves(s.windows)), SetOf(WindowIds(s.windows)));
    }
  }

  // ------------------------------------------------------------------ resize, start, supervise

  lemma ResizeInv(e: EngineState, w: WindowId, rows: nat, cols: nat)
    requires Inv(e) && rows <= U16_MAX && cols <= U16_MAX
    ensures Inv(DoResize(e, w, rows, cols))
  {
    hide Inv, Leaves, HasPane, HasWindow, TakenOut;
    var place := LocateWindow(e, w);
    if place.Some? {
      var sid, i := place.value.session, place.value.position;
      var s := e.sessions[sid];
      InvSession(e, sid);
      WindowReplaced(s, i, s.windows[i]);
      WindowReplaced(s, i, s.windows[i].(rows := rows, cols := cols));
      var e' := DoResize(e, w, rows, cols);
      assert TakenOut(e, e', sid, {}, {}) by { ResizeTakesNothing(e, e', sid, i, rows, cols); }
      TakenOutInv(e, e', sid, {}, {});
    }
  }

  lemma ResizeTakesNothing(e: EngineState, e': EngineState, sid: SessionId, i: nat, rows: nat, cols: nat)
    requires sid in e.sessions && i < |e.sessions[sid].windows| && SessionOk(sid, e.sessions[sid])
    requires var s := e.sessions[sid];
             e' == e.(sessions := e.sessions[sid := SetWindow(s, i, s.windows[i].(rows := rows, cols := cols))])
    ensures TakenOut(e, e', sid, {}, {})
  {
    hide Leaves, HasPane, HasWindow, SessionOk;
    var s := e.sessions[sid];
    assert s.id == sid by { SessionIdOk(sid, s); }
    WindowReplaced(s, i, s.windows[i]);
    WindowReplaced(s, i, s.windows[i].(rows := rows, cols := cols));
  }

  lemma SessionIdOk(sid: SessionId, s: SessionState)
    requires SessionOk(sid, s)
    ensures s.id == sid
  {
  }

  /** Only the values under existing pane ids change. */
  lemma ValuesChanged(e: EngineState, e': EngineState)
    requires Inv(e) && e'.sessions == e.sessions && e'.paneWindow == e.paneWindow && e'.windowSession == e.windowSession
    requires e'.panes.Keys == e.panes.Keys && e'.supervisors.Keys == e.supervisors.Keys && KeyedById(e'.panes)
    ensures Inv(e')
  {
    hide HasPane, HasWindow, SessionOk;
    forall sid | sid in e'.sessions ensures SessionOk(sid, e'.sessions[sid]) && Indexed(e', sid) {
      assert Indexed(e, sid);
    }
    forall p | p in e'.paneWindow ensures PaneScanned(e', p) { assert PaneScanned(e, p); }
    forall w | w in e'.windowSession ensures WindowScanned(e', w) { assert WindowScanned(e, w); }
  }

  lemma StartRestoredInv(e: EngineState, p: PaneId, fallback: RestartPolicy, spawn: Option<Spawn>)
    requires Inv(e)
    ensures Inv(DoStartRestored(e, p, fallback, spawn))
  {
    hide Inv;
    InvKeys(e);
    ValuesChanged(e, DoStartRestored(e, p, fallback, spawn));
  }

  lemma SuperviseInv(e: EngineState, p: PaneId, sup: Supervisor)
    requires Inv(e)
    ensures Inv(DoSupervise(e, p, sup))
  {
    hide Inv;
    InvKeys(e);
    ValuesChanged(e, DoSupervise(e, p, sup));
  }
}
