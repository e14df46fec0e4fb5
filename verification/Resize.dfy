/**
 Window sizes under concurrent viewport reports: crates/tymux-core/src/engine.rs, lines 1211-1345, and
 `Pane::resize` in crates/tymux-core/src/pane.rs, lines 960-992.

 One window whose layout does not change. Threads report or withdraw viewports and then recompute the
 window: take the window's resize lock, read the minimum of all viewports, write the window size and
 the rectangles under `sessions`, resize the live panes one after another, let go of the lock. Each of
 these is one step; the viewports may change between any two of them.
 */
module Resize {
  import opened Common
  import opened Layout
  import opened Engine

  type Thread = nat
  type ClientId = nat

  const MAX_PANE_ROWS: nat := 500
  const MAX_PANE_COLS: nat := 1000

  datatype Size = Size(rows: nat, cols: nat)

  function ClampTo(x: nat, lo: nat, hi: nat): nat {
    if x < lo then lo else if x > hi then hi else x
  }

  /** `clamp_viewport`. */
  function ClampViewport(rows: nat, cols: nat): (v: Size)
    ensures MIN_PANE_ROWS <= v.rows <= MAX_PANE_ROWS && MIN_PANE_COLS <= v.cols <= MAX_PANE_COLS
  {
    Size(ClampTo(rows, MIN_PANE_ROWS, MAX_PANE_ROWS), ClampTo(cols, MIN_PANE_COLS, MAX_PANE_COLS))
  }

  // ------------------------------------------------------------------ the effective size

  /** `m` is the least of the rows (or of the columns) in a non-empty map. */
  ghost predicate IsMinRows(viewports: map<ClientId, Size>, m: nat) {
    (exists c :: c in viewports && viewports[c].rows == m) && forall c :: c in viewports ==> m <= viewports[c].rows
  }

  ghost predicate IsMinCols(viewports: map<ClientId, Size>, m: nat) {
    (exists c :: c in viewports && viewports[c].cols == m) && forall c :: c in viewports ==> m <= viewports[c].cols
  }

  /** The window size the viewports ask for: dimension-wise minimum, or the default when there are none. */
  ghost predicate Effective(viewports: map<ClientId, Size>, size: Size) {
    if viewports == map[] then size == Size(DEFAULT_ROWS, DEFAULT_COLS)
    else IsMinRows(viewports, size.rows) && IsMinCols(viewports, size.cols)
  }

  /** The size computed by going through the clients one by one. */
  method Measure(viewports: map<ClientId, Size>) returns (size: Size)
    ensures Effective(viewports, size)
  {
    if viewports == map[] {
      return Size(DEFAULT_ROWS, DEFAULT_COLS);
    }
    var todo := viewports.Keys;
    assert todo != {};
    var first :| first in todo;
    todo := todo - {first};
    size := viewports[first];
    while todo != {}
      invariant todo <= viewports.Keys
      invariant exists c :: c in viewports && viewports[c].rows == size.rows
      invariant exists c :: c in viewports && viewports[c].cols == size.cols
      invariant forall c :: c in viewports && c !in todo ==> size.rows <= viewports[c].rows && size.cols <= viewports[c].cols
      decreases |todo|
    {
      var c :| c in todo;
      todo := todo - {c};
      size := Size(Min(size.rows, viewports[c].rows), Min(size.cols, viewports[c].cols));
    }
  }

  // ------------------------------------------------------------------ one window, one recompute

  datatype Window = Window(layout: LayoutNode, live: set<PaneId>)
  {
    ghost predicate Valid() {
      RatiosOk(layout) && Distinct(layout)
    }

    /** The rectangles of the leaves, in tree order, for a window of the given size. */
    function Rects(size: Size): seq<Placed>
      requires RatiosOk(layout)
    {
      Geometry(layout, Layout.Window(size.rows, size.cols))
    }
  }

  predicate Bounded(size: Size) {
    size.rows <= MAX_PANE_ROWS && size.cols <= MAX_PANE_COLS
  }

  /** `Pane::resize`, which clamps to the largest pane; a pane that already has that size is left alone. */
  function Resized(panes: map<PaneId, Size>, placed: Placed): map<PaneId, Size> {
    var size := Size(Min(placed.rect.rows, MAX_PANE_ROWS), Min(placed.rect.cols, MAX_PANE_COLS));
    if placed.id in panes && panes[placed.id] == size then panes else panes[placed.id := size]
  }

  predicate HasSize(panes: map<PaneId, Size>, placed: Placed) {
    placed.id in panes && panes[placed.id] == Size(placed.rect.rows, placed.rect.cols)
  }

  /** The live panes among the first `n` leaves have the size of their own rectangle. */
  ghost predicate FitUpTo(w: Window, size: Size, panes: map<PaneId, Size>, n: nat)
    requires RatiosOk(w.layout)
  {
    var rects := w.Rects(size);
    forall i :: 0 <= i < |rects| && i < n && rects[i].id in w.live ==> HasSize(panes, rects[i])
  }

  /** Ids in the list of rectangles are distinct, and no rectangle is larger than the window. */
  lemma RectsOk(w: Window, size: Size)
    requires w.Valid()
    ensures var rects := w.Rects(size);
            && (forall i, j :: 0 <= i < j < |rects| ==> rects[i].id != rects[j].id)
            && (forall i :: 0 <= i < |rects| ==> rects[i].rect.rows <= size.rows && rects[i].rect.cols <= size.cols)
  {
    hide Geometry, Leaves, RatiosOk;
    var r := Layout.Window(size.rows, size.cols);
    GeometryInLeafOrder(w.layout, r);
    GeometryInside(w.layout, r);
    LeavesDistinct(w.layout);
  }

  /** Resizing one pane sets that pane to its own rectangle and spoils none of those before it. */
  lemma FitOneMore(w: Window, size: Size, panes: map<PaneId, Size>, n: nat)
    requires w.Valid() && Bounded(size) && n < |w.Rects(size)| && FitUpTo(w, size, panes, n)
    ensures var placed := w.Rects(size)[n];
            FitUpTo(w, size, if placed.id in w.live then Resized(panes, placed) else panes, n + 1)
  {
    hide Geometry, Leaves, RatiosOk, Distinct;
    RectsOk(w, size);
  }

  /** All rectangles applied: every live leaf has its own. */
  lemma PanesFit(w: Window, size: Size, panes: map<PaneId, Size>)
    requires w.Valid() && FitUpTo(w, size, panes, |w.Rects(size)|)
    ensures forall id :: id in w.live && id in Leaves(w.layout) ==>
              id in panes && panes[id] == Size(OwnRect(w, size, id).rows, OwnRect(w, size, id).cols)
  {
    hide Geometry, Leaves, RatiosOk, Distinct, RectIn;
    var rects := w.Rects(size);
    forall id | id in w.live && id in Leaves(w.layout)
      ensures id in panes && panes[id] == Size(OwnRect(w, size, id).rows, OwnRect(w, size, id).cols)
    {
      RectAmong(w.layout, Layout.Window(size.rows, size.cols), id);
    }
  }

  /** The rectangle `id` is given in a window of that size. */
  function OwnRect(w: Window, size: Size, id: PaneId): PtyRect
    requires RatiosOk(w.layout) && id in Leaves(w.layout)
  {
    RectIn(w.layout, Layout.Window(size.rows, size.cols), id)
  }

  /** A leaf's own rectangle is one of those listed under its id. */
  lemma RectAmong(t: LayoutNode, r: PtyRect, id: PaneId)
    requires RatiosOk(t) && id in Leaves(t)
    ensures exists i :: 0 <= i < |Geometry(t, r)| && Geometry(t, r)[i] == Placed(id, RectIn(t, r, id))
  {
    hide Geometry, Leaves, RatiosOk;
    RectOfLeaf(t, r, id);
    RectOfAmong(Geometry(t, r), id);
  }

  lemma {:induction false} RectOfAmong(g: seq<Placed>, id: PaneId)
    requires RectOf(g, id).Some?
    ensures exists i :: 0 <= i < |g| && g[i] == Placed(id, RectOf(g, id).value)
  {
    if g[0].id == id {
      assert g[0] == Placed(id, RectOf(g, id).value);
    } else {
      RectOfAmong(g[1..], id);
      var i :| 0 <= i < |g[1..]| && g[1..][i] == Placed(id, RectOf(g[1..], id).value);
      assert g[i + 1] == Placed(id, RectOf(g, id).value);
    }
  }

  lemma EffectiveIsBounded(viewports: map<ClientId, Size>, size: Size)
    requires Effective(viewports, size) && forall c :: c in viewports ==> Bounded(viewports[c])
    ensures Bounded(size)
  {
  }

  /** The window as the engine holds it: sizes written and panes resized in place. */
  class WindowSizes {
    const w: Window
    var viewports: map<ClientId, Size>
    var size: Size
    var panes: map<PaneId, Size>

    ghost predicate Valid()
      reads this
    {
      w.Valid() && forall c :: c in viewports ==> Bounded(viewports[c])
    }

    constructor (w: Window, size: Size, panes: map<PaneId, Size>)
      requires w.Valid()
      ensures Valid() && this.w == w && viewports == map[] && this.size == size && this.panes == panes
    {
      this.w, viewports, this.size, this.panes := w, map[], size, panes;
    }

    method ReportViewportAndRecompute(client: ClientId, rows: nat, cols: nat) returns (result: Size)
      requires Valid()
      modifies this
      ensures Valid() && result == size && viewports == old(viewports)[client := ClampViewport(rows, cols)]
      ensures 2 <= rows <= 500 && 10 <= cols <= 1000 ==> viewports[client] == Size(rows, cols)
      ensures Effective(viewports, size) && size.rows <= ClampViewport(rows, cols).rows && size.cols <= ClampViewport(rows, cols).cols
      ensures FitUpTo(w, size, panes, |w.Rects(size)|)
      ensures forall id :: id !in w.live || id !in Leaves(w.layout) ==> (id in panes <==> id in old(panes))
      ensures forall id :: (id !in w.live || id !in Leaves(w.layout)) && id in panes ==> panes[id] == old(panes)[id]
    {
      hide Geometry, RatiosOk, Leaves, Distinct, FitUpTo, Resized;
      viewports := viewports[client := ClampViewport(rows, cols)];
      result := Recompute();
      assert client in viewports;
    }

    method UnregisterViewport(client: ClientId)
      requires Valid()
      modifies this`viewports
      ensures Valid() && client !in viewports
      ensures forall c :: c != client ==> (c in viewports <==> c in old(viewports)) && (c in viewports ==> viewports[c] == old(viewports)[c])
    {
      viewports := viewports - {client};
    }

    method Recompute() returns (result: Size)
      requires Valid()
      modifies this`size, this`panes
      ensures Valid() && result == size && Effective(viewports, size)
      ensures FitUpTo(w, size, panes, |w.Rects(size)|)
      ensures forall id :: id !in w.live || id !in Leaves(w.layout) ==> (id in panes <==> id in old(panes))
      ensures forall id :: (id !in w.live || id !in Leaves(w.layout)) && id in panes ==> panes[id] == old(panes)[id]
    {
      hide Geometry, RatiosOk, Leaves, Distinct, FitUpTo, Effective;
      result := Measure(viewports);
      EffectiveIsBounded(viewports, result);
      size := result;
      var rects := w.Rects(size);
      GeometryInLeafOrder(w.layout, Layout.Window(size.rows, size.cols));
      NothingFits(w, size, panes);
      for i := 0 to |rects|
        invariant FitUpTo(w, size, panes, i) && size == result
        invariant forall id :: id !in w.live || id !in Leaves(w.layout) ==> (id in panes <==> id in old(panes))
        invariant forall id :: (id !in w.live || id !in Leaves(w.layout)) && id in panes ==> panes[id] == old(panes)[id]
      {
        FitOneMore(w, size, panes, i);
        assert rects[i].id in Leaves(w.layout);
        if rects[i].id in w.live {
          panes := Resized(panes, rects[i]);
        }
      }
    }
  }

  lemma NothingFits(w: Window, size: Size, panes: map<PaneId, Size>)
    requires RatiosOk(w.layout)
    ensures FitUpTo(w, size, panes, 0)
  {
  }

  // ------------------------------------------------------------------ the protocol

  datatype Pc =
    | Idle
    | Reported
    | Locked
    | Measured(size: Size)
    | Applying(next: nat)

  /** `touched`: some recompute has been asked for; `applied`: one has finished. */
  datatype State = State(
    viewports: map<ClientId, Size>,
    size: Size,
    panes: map<PaneId, Size>,
    lock: Option<Thread>,
    pcs: map<Thread, Pc>,
    touched: bool,
    applied: bool)
  {
    function At(t: Thread): Pc {
      if t in pcs then pcs[t] else Idle
    }

    function Go(t: Thread, pc: Pc): State {
      this.(pcs := pcs[t := pc])
    }
  }

  datatype Step =
    | Report(t: Thread, client: ClientId, rows: nat, cols: nat)
    | Withdraw(t: Thread, client: ClientId)
    | Lock(t: Thread)
    | Read(t: Thread, size: Size)
    | Write(t: Thread)
    | ResizePane(t: Thread)
    | Unlock(t: Thread)

  /** Nobody is attached and nothing is under way; the panes may have any size. */
  predicate Init(w: Window, s: State) {
    && s.viewports == map[] && s.lock.None? && s.pcs == map[] && !s.touched && !s.applied
    && w.live <= s.panes.Keys
  }

  ghost predicate Enabled(w: Window, s: State, step: Step)
    requires RatiosOk(w.layout)
  {
    match step
    case Report(t, _, rows, cols) => s.At(t).Idle? && rows <= U16_MAX && cols <= U16_MAX
    case Withdraw(t, _) => s.At(t).Idle?
    case Lock(t) => s.At(t).Reported? && s.lock.None?
    case Read(t, size) => s.At(t).Locked? && Effective(s.viewports, size)
    case Write(t) => s.At(t).Measured?
    case ResizePane(t) => s.At(t).Applying? && s.At(t).next < |w.Rects(s.size)|
    case Unlock(t) => s.At(t).Applying? && s.At(t).next >= |w.Rects(s.size)|
  }

  function Next(w: Window, s: State, step: Step): State
    requires RatiosOk(w.layout) && Enabled(w, s, step)
  {
    match step
    case Report(t, client, rows, cols) =>
      s.(viewports := s.viewports[client := ClampViewport(rows, cols)], touched := true).Go(t, Reported)
    case Withdraw(t, client) => s.(viewports := s.viewports - {client}, touched := true).Go(t, Reported)
    case Lock(t) => s.(lock := Some(t)).Go(t, Locked)
    case Read(t, size) => s.Go(t, Measured(size))
    case Write(t) => s.(size := s.At(t).size).Go(t, Applying(0))
    case ResizePane(t) =>
      var placed := w.Rects(s.size)[s.At(t).next];
      s.(panes := if placed.id in w.live then Resized(s.panes, placed) else s.panes).Go(t, Applying(s.At(t).next + 1))
    case Unlock(t) => s.(lock := None, applied := true).Go(t, Idle)
  }

  // ------------------------------------------------------------------ invariant

  predicate Holds(pc: Pc) {
    pc.Locked? || pc.Measured? || pc.Applying?
  }

  /** The thread will still read the viewports. */
  predicate Owes(pc: Pc) {
    pc.Reported? || pc.Locked?
  }

  ghost predicate SomeoneOwes(s: State) {
    exists t :: Owes(s.At(t))
  }

  ghost predicate LockOk(s: State) {
    forall t: Thread :: Holds(s.At(t)) <==> s.lock == Some(t)
  }

  ghost predicate SizesOk(w: Window, s: State) {
    && (forall c :: c in s.viewports ==> Bounded(s.viewports[c]))
    && (forall t :: s.At(t).Measured? ==> Bounded(s.At(t).size))
    && (forall t :: s.At(t).Applying? ==> Bounded(s.size))
    && w.live <= s.panes.Keys
  }

  ghost predicate AppliedUpTo(w: Window, s: State, n: nat)
    requires RatiosOk(w.layout)
  {
    FitUpTo(w, s.size, s.panes, n)
  }

  /** Every live pane has the size of its own rectangle. */
  ghost predicate Consistent(w: Window, s: State)
    requires RatiosOk(w.layout)
  {
    FitUpTo(w, s.size, s.panes, |w.Rects(s.size)|)
  }

  ghost predicate ApplyingOk(w: Window, s: State)
    requires RatiosOk(w.layout)
  {
    forall t :: s.At(t).Applying? ==> AppliedUpTo(w, s, s.At(t).next)
  }

  /** Nobody owes a reading: then the size in use, or about to be, is what the viewports ask for. */
  ghost predicate CurrentOk(w: Window, s: State)
    requires RatiosOk(w.layout)
  {
    s.touched ==> SomeoneOwes(s) || MeasuredRight(s) || AppliedRight(w, s)
  }

  ghost predicate MeasuredRight(s: State) {
    exists t :: s.At(t).Measured? && Effective(s.viewports, s.At(t).size)
  }

  ghost predicate AppliedRight(w: Window, s: State)
    requires RatiosOk(w.layout)
  {
    && (forall t :: !s.At(t).Measured?)
    && Effective(s.viewports, s.size)
    && ((exists t :: s.At(t).Applying?) || Consistent(w, s))
  }

  /** Siblings agree about their window, except while somebody is resizing them. */
  ghost predicate SiblingsOk(w: Window, s: State)
    requires RatiosOk(w.layout)
  {
    s.applied ==> (exists t :: s.At(t).Applying?) || Consistent(w, s)
  }

  ghost predicate Inv(w: Window, s: State)
    requires RatiosOk(w.layout)
  {
    LockOk(s) && SizesOk(w, s) && ApplyingOk(w, s) && CurrentOk(w, s) && SiblingsOk(w, s)
  }

  lemma InvInit(w: Window, s: State)
    requires RatiosOk(w.layout) && Init(w, s)
    ensures Inv(w, s)
  {
    assert forall t :: s.At(t).Idle?;
  }

  /** Only the thread that takes the step moves. */
  lemma Moves(w: Window, s: State, step: Step)
    requires RatiosOk(w.layout) && Enabled(w, s, step)
    ensures forall t :: t != step.t ==> Next(w, s, step).At(t) == s.At(t)
    ensures Next(w, s, step).At(step.t) == Next(w, s, step).pcs[step.t]
  {
    hide Effective, Geometry, RatiosOk;
  }

  lemma LockStep(w: Window, s: State, step: Step)
    requires RatiosOk(w.layout) && LockOk(s) && Enabled(w, s, step)
    ensures LockOk(Next(w, s, step))
  {
    hide Effective, Geometry, RatiosOk;
    Moves(w, s, step);
    var s' := Next(w, s, step);
    assert Holds(s.At(step.t)) <==> s.lock == Some(step.t);
    forall t: Thread ensures Holds(s'.At(t)) <==> s'.lock == Some(t) {
      assert Holds(s.At(t)) <==> s.lock == Some(t);
    }
  }

  lemma SizesStep(w: Window, s: State, step: Step)
    requires RatiosOk(w.layout) && LockOk(s) && SizesOk(w, s) && Enabled(w, s, step)
    ensures SizesOk(w, Next(w, s, step))
  {
    hide Effective, Geometry, RatiosOk;
    Moves(w, s, step);
    if step.Read? {
      EffectiveIsBounded(s.viewports, step.size);
    }
    assert Holds(s.At(step.t)) <==> s.lock == Some(step.t);
    var s' := Next(w, s, step);
    forall t: Thread | s'.At(t).Applying? ensures Bounded(s'.size) {
      assert Holds(s.At(t)) <==> s.lock == Some(t);
    }
  }

  lemma ApplyingStep(w: Window, s: State, step: Step)
    requires w.Valid() && LockOk(s) && SizesOk(w, s) && ApplyingOk(w, s) && Enabled(w, s, step)
    ensures ApplyingOk(w, Next(w, s, step))
  {
    hide Geometry, RatiosOk, FitUpTo, Distinct, Effective;
    Moves(w, s, step);
    assert Holds(s.At(step.t)) <==> s.lock == Some(step.t);
    var s' := Next(w, s, step);
    forall t: Thread | s'.At(t).Applying? ensures AppliedUpTo(w, s', s'.At(t).next) {
      assert Holds(s.At(t)) <==> s.lock == Some(t);
      if step.Write? && t == step.t {
        NothingFits(w, s'.size, s'.panes);
      } else if step.ResizePane? && t == step.t {
        FitOneMore(w, s.size, s.panes, s.At(t).next);
      } else {
        SameApplied(w, s, s', s.At(t).next);
      }
    }
  }

  lemma SameApplied(w: Window, s: State, s': State, n: nat)
    requires RatiosOk(w.layout) && s'.size == s.size && s'.panes == s.panes
    ensures AppliedUpTo(w, s, n) == AppliedUpTo(w, s', n) && Consistent(w, s) == Consistent(w, s')
  {
    hide Geometry;
  }

  lemma AllApplied(w: Window, s: State, n: nat)
    requires RatiosOk(w.layout) && AppliedUpTo(w, s, n) && n >= |w.Rects(s.size)|
    ensures Consistent(w, s)
  {
    hide Geometry;
  }

  /** Siblings only disagree while somebody holds the lock to resize them. */
  lemma SiblingsStep(w: Window, s: State, step: Step)
    requires RatiosOk(w.layout) && LockOk(s) && ApplyingOk(w, s) && SiblingsOk(w, s) && Enabled(w, s, step)
    ensures SiblingsOk(w, Next(w, s, step))
  {
    hide Geometry, RatiosOk, AppliedUpTo, Consistent, Effective;
    Moves(w, s, step);
    var s' := Next(w, s, step);
    match step
    case Unlock(t) =>
      AllApplied(w, s, s.At(t).next);
      SameApplied(w, s, s', 0);
    case Write(t) => assert s'.At(t).Applying?;
    case ResizePane(t) => assert s'.At(t).Applying?;
    case _ =>
      SameApplied(w, s, s', 0);
      ApplyingStays(w, s, step);
  }

  lemma ApplyingStays(w: Window, s: State, step: Step)
    requires RatiosOk(w.layout) && Enabled(w, s, step) && !step.Unlock?
    ensures (exists t :: s.At(t).Applying?) ==> exists t :: Next(w, s, step).At(t).Applying?
  {
    hide Geometry, RatiosOk, Effective;
    Moves(w, s, step);
    if t :| s.At(t).Applying? {
      assert Next(w, s, step).At(t).Applying?;
    }
  }

  lemma OwingStays(w: Window, s: State, step: Step)
    requires RatiosOk(w.layout) && Enabled(w, s, step) && !step.Read? && SomeoneOwes(s)
    ensures SomeoneOwes(Next(w, s, step))
  {
    hide Geometry, RatiosOk, Effective;
    Moves(w, s, step);
    var t :| Owes(s.At(t));
    assert Owes(Next(w, s, step).At(t));
  }

  lemma NowOwes(s: State, t: Thread)
    requires Owes(s.At(t))
    ensures SomeoneOwes(s)
  {
  }

  /** The size that was read becomes the size in use. */
  lemma WriteCurrent(w: Window, s: State, t: Thread)
    requires RatiosOk(w.layout) && LockOk(s) && s.At(t).Measured? && MeasuredRight(s)
    ensures AppliedRight(w, Next(w, s, Write(t)))
  {
    hide Geometry, RatiosOk, Effective, Consistent;
    Moves(w, s, Write(t));
    var s' := Next(w, s, Write(t));
    var r: Thread :| s.At(r).Measured? && Effective(s.viewports, s.At(r).size);
    assert Holds(s.At(t)) && Holds(s.At(r)) && s.lock == Some(t) == Some(r);
    assert s'.At(t).Applying?;
    forall x: Thread ensures !s'.At(x).Measured? {
      assert Holds(s.At(x)) <==> s.lock == Some(x);
    }
  }

  lemma UnlockCurrent(w: Window, s: State, t: Thread)
    requires RatiosOk(w.layout) && ApplyingOk(w, s) && Enabled(w, s, Unlock(t)) && AppliedRight(w, s)
    ensures AppliedRight(w, Next(w, s, Unlock(t)))
  {
    hide Geometry, RatiosOk, Effective, Consistent, AppliedUpTo;
    Moves(w, s, Unlock(t));
    AllApplied(w, s, s.At(t).next);
    SameApplied(w, s, Next(w, s, Unlock(t)), 0);
  }

  lemma ResizeCurrent(w: Window, s: State, t: Thread)
    requires RatiosOk(w.layout) && Enabled(w, s, ResizePane(t)) && AppliedRight(w, s)
    ensures AppliedRight(w, Next(w, s, ResizePane(t)))
  {
    hide Geometry, RatiosOk, Effective, Consistent;
    Moves(w, s, ResizePane(t));
    assert Next(w, s, ResizePane(t)).At(t).Applying?;
  }

  lemma CurrentStep(w: Window, s: State, step: Step)
    requires RatiosOk(w.layout) && LockOk(s) && ApplyingOk(w, s) && CurrentOk(w, s) && Enabled(w, s, step)
    ensures CurrentOk(w, Next(w, s, step))
  {
    hide Geometry, RatiosOk, Effective, Consistent, AppliedUpTo, AppliedRight, SomeoneOwes, ApplyingOk;
    var s' := Next(w, s, step);
    match step
    case Report(t, _, _, _) => NowOwes(s', t);
    case Withdraw(t, _) => NowOwes(s', t);
    case Lock(t) => NowOwes(s', t);
    case Read(t, size) => assert s'.At(t) == Measured(size) && Effective(s'.viewports, s'.At(t).size);
    case Write(t) =>
      if s.touched {
        if SomeoneOwes(s) { OwingStays(w, s, step); }
        else if MeasuredRight(s) { WriteCurrent(w, s, t); }
        else { NotApplied(w, s, t); }
      }
    case ResizePane(t) =>
      if s.touched {
        if SomeoneOwes(s) { OwingStays(w, s, step); }
        else { NoneMeasured(s, t); ResizeCurrent(w, s, t); }
      }
    case Unlock(t) =>
      if s.touched {
        if SomeoneOwes(s) { OwingStays(w, s, step); }
        else { NoneMeasured(s, t); UnlockCurrent(w, s, t); }
      }
  }

  lemma NotApplied(w: Window, s: State, t: Thread)
    requires RatiosOk(w.layout) && s.At(t).Measured?
    ensures !AppliedRight(w, s)
  {
  }

  lemma NoneMeasured(s: State, t: Thread)
    requires LockOk(s) && s.At(t).Applying?
    ensures !MeasuredRight(s)
  {
    forall r: Thread ensures !s.At(r).Measured? {
      assert (Holds(s.At(r)) <==> s.lock == Some(r)) && (Holds(s.At(t)) <==> s.lock == Some(t));
    }
  }

  lemma InvStep(w: Window, s: State, step: Step)
    requires w.Valid() && Inv(w, s) && Enabled(w, s, step)
    ensures Inv(w, Next(w, s, step))
  {
    hide LockOk, SizesOk, ApplyingOk, CurrentOk, SiblingsOk, Next, Enabled, RatiosOk, Distinct;
    LockStep(w, s, step);
    SizesStep(w, s, step);
    ApplyingStep(w, s, step);
    CurrentStep(w, s, step);
    SiblingsStep(w, s, step);
  }

  // ------------------------------------------------------------------ runs

  ghost predicate Run(w: Window, s: State, steps: seq<Step>)
    requires RatiosOk(w.layout)
    decreases |steps|, 0
  {
    steps == [] || (Run(w, s, steps[..|steps| - 1]) && Enabled(w, After(w, s, steps[..|steps| - 1]), steps[|steps| - 1]))
  }

  ghost function After(w: Window, s: State, steps: seq<Step>): State
    requires RatiosOk(w.layout) && Run(w, s, steps)
    decreases |steps|, 1
  {
    if steps == [] then s else Next(w, After(w, s, steps[..|steps| - 1]), steps[|steps| - 1])
  }

  lemma {:induction false} InvRun(w: Window, s: State, steps: seq<Step>)
    requires w.Valid() && Init(w, s) && Run(w, s, steps)
    ensures Inv(w, After(w, s, steps))
    ensures steps != [] ==> After(w, s, steps).touched
  {
    hide Inv, Enabled, RatiosOk, Distinct, Next;
    if steps == [] {
      InvInit(w, s);
    } else {
      var prefix := steps[..|steps| - 1];
      InvRun(w, s, prefix);
      InvStep(w, After(w, s, prefix), steps[|steps| - 1]);
      if prefix == [] {
        FirstStepTouches(w, s, steps[|steps| - 1]);
      } else {
        TouchedStays(w, After(w, s, prefix), steps[|steps| - 1]);
      }
    }
  }

  lemma TouchedStays(w: Window, s: State, step: Step)
    requires RatiosOk(w.layout) && Enabled(w, s, step) && s.touched
    ensures Next(w, s, step).touched
  {
    hide Geometry, Effective, RatiosOk;
  }

  lemma FirstStepTouches(w: Window, s: State, step: Step)
    requires RatiosOk(w.layout) && Init(w, s) && Enabled(w, s, step)
    ensures Next(w, s, step).touched
  {
    hide Geometry, Effective, RatiosOk;
    assert s.At(step.t).Idle?;
  }

  /**
   Resize convergence: for every interleaving of reports and withdrawals, when all calls have returned
   the window has the dimension-wise minimum of the clamped reports (the default, when none is left),
   and every live pane has the size of its own rectangle, dead leaves mixed in or not.
   */
  lemma ResizeConverges(w: Window, s: State, steps: seq<Step>)
    requires w.Valid() && Init(w, s) && Run(w, s, steps) && steps != []
    requires forall t :: After(w, s, steps).At(t).Idle?
    ensures var now := After(w, s, steps);
            && Effective(now.viewports, now.size)
            && forall id :: id in w.live && id in Leaves(w.layout) ==>
                 && id in now.panes
                 && now.panes[id] == Size(OwnRect(w, now.size, id).rows, OwnRect(w, now.size, id).cols)
  {
    hide Run, After, Next, Effective, RatiosOk, Distinct, Geometry, Leaves, OwnRect, LockOk, SizesOk, ApplyingOk, SiblingsOk;
    InvRun(w, s, steps);
    var now := After(w, s, steps);
    assert !SomeoneOwes(now);
    PanesFit(w, now.size, now.panes);
  }

  /** Whenever nobody holds the resize lock, and one recompute has finished, siblings agree about their window. */
  lemma SiblingsAgree(w: Window, s: State, steps: seq<Step>)
    requires w.Valid() && Init(w, s) && Run(w, s, steps)
    requires After(w, s, steps).lock.None? && After(w, s, steps).applied
    ensures var now := After(w, s, steps);
            forall id :: id in w.live && id in Leaves(w.layout) ==>
              && id in now.panes
              && now.panes[id] == Size(OwnRect(w, now.size, id).rows, OwnRect(w, now.size, id).cols)
  {
    hide Run, After, Next, Effective, RatiosOk, Distinct, Geometry, Leaves, OwnRect, SizesOk, ApplyingOk, CurrentOk;
    InvRun(w, s, steps);
    var now := After(w, s, steps);
    forall t: Thread ensures !now.At(t).Applying? {
      assert Holds(now.At(t)) <==> now.lock == Some(t);
    }
    PanesFit(w, now.size, now.panes);
  }
}
