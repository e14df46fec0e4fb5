/**
 `Engine` as the object it is: five maps updated in place. Every method is one whole operation of
 crates/tymux-core/src/engine.rs, proved to compute the transition of the same name in `Engine`.
 */
module EngineObject {
  import opened Common
  import opened Restart
  import opened Layout
  import opened Persistence
  import opened Engine

  datatype SplitResult = SplitOk | SplitRefused(outcome: SplitOutcome) | NoSuchPane | SpawnFailed

  datatype CloseResult = Closed(windowClosed: Option<WindowId>, sessionClosed: Option<SessionId>) | PaneUnknown

  lemma IndexOneMore(m: map<PaneId, WindowId>, ids: seq<PaneId>, x: PaneId, w: WindowId)
    ensures IndexAll(m, ids + [x], w) == IndexAll(m, ids, w)[x := w] && IndexAll(m, [], w) == m
  {
  }

  lemma RestoreOneMore(m: map<PaneId, Supervisor>, ids: seq<PaneId>, x: PaneId, panes: map<PaneId, PaneEntry>, policy: RestartPolicy)
    ensures RestoreAll(m, ids + [x], panes, policy) == RestoreAll(m, ids, panes, policy)[x := Restored(panes, x, policy)]
    ensures RestoreAll(m, [], panes, policy) == m
  {
    hide Restored;
  }

  lemma NothingTaken(a: map<WindowId, SessionId>, b: map<PaneId, WindowId>, c: map<PaneId, PaneEntry>, d: map<PaneId, Supervisor>)
    ensures SetOf([]) == {} && a - {} == a && b - {} == b && c - {} == c && d - {} == d
  {
  }

  lemma OneMoreTaken(ids: seq<nat>, x: nat)
    ensures SetOf(ids + [x]) == SetOf(ids) + {x}
  {
  }

  class EngineMaps {
    var sessions: map<SessionId, SessionState>
    var panes: map<PaneId, PaneEntry>
    var paneWindow: map<PaneId, WindowId>
    var windowSession: map<WindowId, SessionId>
    var supervisors: map<PaneId, Supervisor>

    ghost function View(): EngineState
      reads this
    {
      EngineState(sessions, panes, paneWindow, windowSession, supervisors)
    }

    constructor ()
      ensures View() == EMPTY
    {
      sessions, panes, paneWindow, windowSession, supervisors := map[], map[], map[], map[], map[];
    }

    method RegisterPane(spawn: Spawn, w: WindowId, policy: RestartPolicy)
      modifies this`panes, this`supervisors, this`paneWindow
      ensures View() == AddPane(old(View()), spawn, w, policy)
    {
      panes := panes[spawn.id := PaneEntry.Live(spawn.pane)];
      supervisors := supervisors[spawn.id := NewSupervisor(policy).OnStarted(spawn.now)];
      paneWindow := paneWindow[spawn.id := w];
    }

    method CreateSession(sid: SessionId, wid: WindowId, name: string, policy: RestartPolicy, spawn: Option<Spawn>) returns (ok: bool)
      modifies this
      ensures View() == DoCreateSession(old(View()), sid, wid, name, policy, spawn)
      ensures ok <==> policy.Valid() && spawn.Some?
    {
      if !policy.Valid() || spawn.None? {
        return false;
      }
      var window := WindowState(wid, "0", Leaf(spawn.value.id), DEFAULT_ROWS, DEFAULT_COLS);
      sessions := sessions[sid := SessionState(sid, name, [window], wid, policy)];
      windowSession := windowSession[wid := sid];
      RegisterPane(spawn.value, wid, policy);
      ok := true;
    }

    method CreateWindow(sid: SessionId, wid: WindowId, spawn: Option<Spawn>) returns (ok: bool)
      modifies this
      ensures View() == DoCreateWindow(old(View()), sid, wid, spawn)
      ensures ok <==> spawn.Some? && sid in old(sessions)
    {
      hide Decimal;
      if spawn.None? || sid !in sessions {
        return false;
      }
      var s := sessions[sid];
      var window := WindowState(wid, Decimal(|s.windows|), Leaf(spawn.value.id), DEFAULT_ROWS, DEFAULT_COLS);
      sessions := sessions[sid := s.(windows := s.windows + [window], activeWindow := wid)];
      windowSession := windowSession[wid := sid];
      RegisterPane(spawn.value, wid, s.defaultPolicy);
      ok := true;
    }

    /** `window_and_session_for_pane`, and then the window's position by searching its session. */
    method Find(p: PaneId) returns (place: Option<Place>)
      ensures place == Locate(View(), p)
    {
      if p !in paneWindow || paneWindow[p] !in windowSession || windowSession[paneWindow[p]] !in sessions {
        return None;
      }
      var w := paneWindow[p];
      var windows := sessions[windowSession[w]].windows;
      var i := 0;
      while i < |windows| && windows[i].id != w
        invariant 0 <= i <= |windows|
        invariant Position(windows, w) ==
                  var rest := Position(windows[i..], w); if rest.None? then None else Some(rest.value + i)
      {
        assert windows[i..][1..] == windows[i + 1..];
        i := i + 1;
      }
      place := if i == |windows| then None else Some(Place(w, windowSession[w], i));
    }

    method SplitPane(target: PaneId, o: Orientation, spawn: Option<Spawn>) returns (result: SplitResult)
      requires RatiosEverywhere(View())
      modifies this
      ensures View() == DoSplit(old(View()), target, o, spawn)
      ensures result.SpawnFailed? <==> spawn.None?
      ensures result.NoSuchPane? <==> spawn.Some? && Locate(old(View()), target).None?
      ensures result.SplitRefused? ==> View() == old(View())
    {
      hide SplitVerdict, SplitLeaf, Locate, Position, RatiosOk;
      if spawn.None? {
        return SpawnFailed;
      }
      var place := Find(target);
      if place.None? {
        return NoSuchPane;
      }
      var s := sessions[place.value.session];
      assert SessionRatios(s);
      var w := s.windows[place.value.position];
      var outcome := SplitVerdict(w.layout, target, o, w.rows, w.cols);
      if !outcome.Done? {
        return SplitRefused(outcome);
      }
      var layout := SplitLeaf(w.layout, target, o, spawn.value.id);
      sessions := sessions[place.value.session := SetWindow(s, place.value.position, w.(layout := layout))];
      RegisterPane(spawn.value, w.id, s.defaultPolicy);
      result := SplitOk;
    }

    method Discard(p: PaneId)
      modifies this`panes, this`supervisors
      ensures panes == old(panes) - {p} && supervisors == old(supervisors) - {p}
    {
      supervisors := supervisors - {p};
      panes := panes - {p};
    }

    /** When the session ends with the pane it has no other window left, so there is nobody else to discard. */
    method ClosePane(p: PaneId) returns (result: CloseResult)
      modifies this
      ensures View() == DoClose(old(View()), p)
      ensures result.PaneUnknown? <==> Locate(old(View()), p).None?
      ensures result.Closed? ==> var place := Locate(old(View()), p).value;
                && (result.sessionClosed == if place.session in sessions then None else Some(place.session))
                && (result.windowClosed == if Remove(old(sessions)[place.session].windows[place.position].layout, p).WindowEmpty?
                                           then Some(place.window) else None)
    {
      hide Locate, Position, Remove, Leaves;
      var place := Find(p);
      if place.None? {
        return PaneUnknown;
      }
      var sid, i := place.value.session, place.value.position;
      var s := sessions[sid];
      var w := s.windows[i];
      var rest := s.windows[..i] + s.windows[i + 1..];
      var windowClosed, sessionClosed := None, None;
      match Remove(w.layout, p) {
        case Collapsed(layout) =>
          sessions := sessions[sid := s.(windows := s.windows[i := w.(layout := layout)])];
        case WindowEmpty =>
          windowClosed := Some(w.id);
          if rest == [] {
            sessionClosed := Some(sid);
            sessions := sessions - {sid};
          } else {
            sessions := sessions[sid := s.(windows := rest, activeWindow := rest[0].id)];
          }
          windowSession := windowSession - {w.id};
      }
      paneWindow := paneWindow - {p};
      Discard(p);
      result := Closed(windowClosed, sessionClosed);
    }

    method KillSession(sid: SessionId) returns (ok: bool)
      modifies this
      ensures View() == DoKill(old(View()), sid)
      ensures ok <==> sid in old(sessions)
    {
      hide Leaves, SetOf;
      if sid !in sessions {
        return false;
      }
      var windows := sessions[sid].windows;
      sessions := sessions - {sid};
      var ids: seq<PaneId> := [];
      NothingTaken(windowSession, paneWindow, panes, supervisors);
      for i := 0 to |windows|
        invariant ids == WindowLeaves(windows[..i])
        invariant windowSession == old(windowSession) - SetOf(WindowIds(windows)[..i])
        invariant unchanged(this`panes, this`paneWindow, this`supervisors) && sessions == old(sessions) - {sid}
      {
        assert windows[..i + 1][..i] == windows[..i];
        assert WindowIds(windows)[..i + 1] == WindowIds(windows)[..i] + [windows[i].id];
        OneMoreTaken(WindowIds(windows)[..i], windows[i].id);
        ids := ids + Leaves(windows[i].layout);
        windowSession := windowSession - {windows[i].id};
      }
      assert windows[..|windows|] == windows && WindowIds(windows)[..|windows|] == WindowIds(windows);
      DiscardAll(ids);
      ok := true;
    }

    method DiscardAll(ids: seq<PaneId>)
      modifies this`paneWindow, this`panes, this`supervisors
      ensures paneWindow == old(paneWindow) - SetOf(ids)
      ensures panes == old(panes) - SetOf(ids) && supervisors == old(supervisors) - SetOf(ids)
    {
      hide SetOf;
      NothingTaken(windowSession, paneWindow, panes, supervisors);
      for i := 0 to |ids|
        invariant paneWindow == old(paneWindow) - SetOf(ids[..i])
        invariant panes == old(panes) - SetOf(ids[..i]) && supervisors == old(supervisors) - SetOf(ids[..i])
      {
        assert ids[..i + 1] == ids[..i] + [ids[i]];
        OneMoreTaken(ids[..i], ids[i]);
        paneWindow := paneWindow - {ids[i]};
        Discard(ids[i]);
      }
      assert ids[..|ids|] == ids;
    }

    /** One window of a record: the tree with its dead entries, the index, and a supervisor per leaf. */
    method LoadWindowRecord(sid: SessionId, policy: RestartPolicy, w: WindowRecord) returns (window: WindowState)
      requires ValidStructure(w.layout)
      modifies this`panes, this`windowSession, this`paneWindow, this`supervisors
      ensures (View(), window) == LoadWindow(old(View()), sid, policy, w)
    {
      hide ToLive, Leaves, Restored, ValidStructure, IndexAll, RestoreAll;
      var loaded := ToLive(w.layout, panes);
      panes := loaded.panes;
      window := WindowState(w.id, w.name, loaded.tree, DEFAULT_ROWS, DEFAULT_COLS);
      windowSession := windowSession[w.id := sid];
      var leaves := Leaves(loaded.tree);
      IndexOneMore(paneWindow, [], 0, w.id);
      RestoreOneMore(supervisors, [], 0, loaded.panes, policy);
      for i := 0 to |leaves|
        invariant panes == loaded.panes && windowSession == old(windowSession)[w.id := sid]
        invariant paneWindow == IndexAll(old(paneWindow), leaves[..i], w.id)
        invariant supervisors == RestoreAll(old(supervisors), leaves[..i], loaded.panes, policy)
      {
        assert leaves[..i + 1] == leaves[..i] + [leaves[i]];
        IndexOneMore(old(paneWindow), leaves[..i], leaves[i], w.id);
        RestoreOneMore(old(supervisors), leaves[..i], leaves[i], loaded.panes, policy);
        paneWindow := paneWindow[leaves[i] := w.id];
        supervisors := supervisors[leaves[i] := Restored(panes, leaves[i], policy)];
      }
      assert leaves[..|leaves|] == leaves;
    }

    method LoadPersisted(records: seq<SessionRecord>)
      requires forall i :: 0 <= i < |records| ==> ValidRecord(records[i])
      modifies this
      ensures View() == DoLoad(old(View()), records)
    {
      hide LoadWindow, ValidStructure;
      for k := 0 to |records|
        invariant View() == DoLoad(old(View()), records[..k])
      {
        assert records[..k + 1][..k] == records[..k];
        LoadRecord(records[k]);
      }
      assert records[..|records|] == records;
    }

    method LoadRecord(r: SessionRecord)
      requires ValidRecord(r)
      modifies this
      ensures View() == LoadSession(old(View()), r)
    {
      hide LoadWindow, ValidStructure;
      var policy := if r.defaultPolicy.Some? then r.defaultPolicy.value else DEFAULT_POLICY;
      var windows: seq<WindowState> := [];
      for i := 0 to |r.windows|
        invariant (View(), windows) == LoadWindows(old(View()), r.id, policy, r.windows[..i])
      {
        assert r.windows[..i + 1][..i] == r.windows[..i];
        var window := LoadWindowRecord(r.id, policy, r.windows[i]);
        windows := windows + [window];
      }
      assert r.windows[..|r.windows|] == r.windows;
      sessions := sessions[r.id := SessionState(r.id, r.name, windows, r.activeWindow, policy)];
    }
  }
}
