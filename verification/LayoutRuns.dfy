/**
 A window over its whole life: splits, closes and growth, in place (`WindowLayout`) and as runs of
 operations, and the size floor that every leaf keeps.
 */
module LayoutRuns {
  import opened Common
  import opened Layout

  class WindowLayout {
    var root: LayoutNode
    var rows: nat
    var cols: nat

    ghost predicate Valid()
      reads this
    {
      RatiosOk(root) && Distinct(root) && rows <= U16_MAX && cols <= U16_MAX
    }

    constructor (pane: PaneId, rows: nat, cols: nat)
      requires rows <= U16_MAX && cols <= U16_MAX
      ensures Valid() && root == Leaf(pane) && this.rows == rows && this.cols == cols
    {
      root := Leaf(pane);
      this.rows, this.cols := rows, cols;
    }

    /** The target's current rectangle decides; the tree is touched only when the split is allowed. */
    method Split(target: PaneId, o: Orientation, added: PaneId) returns (outcome: SplitOutcome)
      requires Valid() && added !in Leaves(root)
      modifies this`root
      ensures Valid()
      ensures outcome == SplitVerdict(old(root), target, o, rows, cols)
      ensures root == if outcome.Done? then SplitLeaf(old(root), target, o, added) else old(root)
    {
      if !Contains(root, target) {
        return PaneNotFound;
      }
      var g := Geometry(root, Window(rows, cols));
      var i := 0;
      while i < |g| && g[i].id != target
        invariant 0 <= i <= |g|
        invariant RectOf(g, target) == RectOf(g[i..], target)
      {
        assert g[i..][1..] == g[i + 1..];
        i := i + 1;
      }
      if i == |g| {
        return PaneNotFound;
      }
      var (newRows, newCols) := HalfSize(o, g[i].rect);
      if newRows < MIN_PANE_ROWS || newCols < MIN_PANE_COLS {
        return BelowMinimumSize(newRows, newCols);
      }
      if o == Horizontal && newRows < RECOMMENDED_SPLIT_MIN_ROWS {
        return BelowRecommendedSize(newRows);
      }
      SplitAddsOne(root, target, o, added);
      SplitKeepsDistinct(root, target, o, added);
      root := SplitLeaf(root, target, o, added);
      outcome := Done;
    }

    /** Answers whether the window is still there; an emptied window keeps its last leaf. */
    method Close(id: PaneId) returns (stays: bool)
      requires Valid()
      modifies this`root
      ensures Valid()
      ensures stays <==> old(root) != Leaf(id)
      ensures root == if stays then Remove(old(root), id).tree else old(root)
    {
      RemoveDeletesOne(root, id);
      var out := Remove(root, id);
      stays := out.Collapsed?;
      if stays {
        root := out.tree;
      }
    }
  }

  /** A split whose target exists is never answered "pane not found". */
  lemma SplitFindsItsTarget(t: LayoutNode, target: PaneId, o: Orientation, rows: nat, cols: nat)
    requires RatiosOk(t)
    ensures SplitVerdict(t, target, o, rows, cols).PaneNotFound? <==> target !in Leaves(t)
  {
    ContainsIsLeaf(t, target);
    RectOfLeaf(t, Window(rows, cols), target);
  }

  // ------------------------------------------------------------------ runs

  datatype WindowOp =
    | SplitOp(target: PaneId, orientation: Orientation, added: PaneId)
    | CloseOp(id: PaneId)
    | GrowOp(rows: nat, cols: nat)

  datatype Win = Gone | Win(tree: LayoutNode, rows: nat, cols: nat)

  /** A new pane has a new id, and the window never shrinks. */
  predicate Allowed(w: Win, op: WindowOp) {
    w.Win? && RatiosOk(w.tree) &&
    match op
    case SplitOp(target, o, added) => added !in Leaves(w.tree)
    case CloseOp(id) => true
    case GrowOp(rows, cols) => w.rows <= rows <= U16_MAX && w.cols <= cols <= U16_MAX
  }

  function Step(w: Win, op: WindowOp): Win
    requires Allowed(w, op)
  {
    match op
    case SplitOp(target, o, added) =>
      if SplitVerdict(w.tree, target, o, w.rows, w.cols).Done?
      then w.(tree := SplitLeaf(w.tree, target, o, added)) else w
    case CloseOp(id) =>
      var out := Remove(w.tree, id);
      if out.Collapsed? then w.(tree := out.tree) else Gone
    case GrowOp(rows, cols) => w.(rows := rows, cols := cols)
  }

  predicate Run(w: Win, ops: seq<WindowOp>)
    decreases |ops|
  {
    ops == [] || (Allowed(w, ops[0]) && Run(Step(w, ops[0]), ops[1..]))
  }

  function After(w: Win, ops: seq<WindowOp>): Win
    requires Run(w, ops)
    decreases |ops|
  {
    if ops == [] then w else After(Step(w, ops[0]), ops[1..])
  }

  predicate AtLeastMinimum(r: PtyRect) {
    r.rows >= MIN_PANE_ROWS && r.cols >= MIN_PANE_COLS
  }

  ghost predicate FloorKept(w: Win) {
    w.Win? ==>
      && RatiosOk(w.tree) && Distinct(w.tree) && w.rows <= U16_MAX && w.cols <= U16_MAX
      && forall id :: id in Leaves(w.tree) ==> AtLeastMinimum(RectIn(w.tree, Window(w.rows, w.cols), id))
  }

  lemma SplitKeepsFloor(w: Win, target: PaneId, o: Orientation, added: PaneId)
    requires w.Win? && FloorKept(w) && added !in Leaves(w.tree)
    requires SplitVerdict(w.tree, target, o, w.rows, w.cols).Done?
    ensures FloorKept(w.(tree := SplitLeaf(w.tree, target, o, added)))
  {
    hide Geometry, RectOf;
    var r, t' := Window(w.rows, w.cols), SplitLeaf(w.tree, target, o, added);
    SplitFindsItsTarget(w.tree, target, o, w.rows, w.cols);
    SplitAddsOne(w.tree, target, o, added);
    InsertedMembers(Leaves(w.tree), target, added);
    SplitKeepsDistinct(w.tree, target, o, added);
    assert AtLeastMinimum(RectIn(w.tree, r, target));
    forall id | id in Leaves(t') ensures AtLeastMinimum(RectIn(t', r, id)) {
      SplitIsLocal(w.tree, target, o, added, r, id);
      assert id in Leaves(w.tree) ==> AtLeastMinimum(RectIn(w.tree, r, id));
    }
  }

  lemma CloseKeepsFloor(w: Win, closed: PaneId)
    requires w.Win? && FloorKept(w)
    ensures FloorKept(Step(w, CloseOp(closed)))
  {
    hide Geometry, RectOf;
    var r, out := Window(w.rows, w.cols), Remove(w.tree, closed);
    RemoveDeletesOne(w.tree, closed);
    if closed !in Leaves(w.tree) {
      RemoveAbsent(w.tree, closed);
    } else if out.Collapsed? {
      WithoutMembers(Leaves(w.tree), closed);
      WithoutRemoves(Leaves(w.tree), closed);
      forall id | id in Leaves(out.tree) ensures AtLeastMinimum(RectIn(out.tree, r, id)) {
        CloseNeverShrinks(w.tree, closed, r, id);
        assert AtLeastMinimum(RectIn(w.tree, r, id));
      }
    }
  }

  lemma {:induction false} WithoutRemoves(ids: seq<PaneId>, id: PaneId)
    ensures id !in Without(ids, id)
  {
    if ids != [] {
      WithoutRemoves(ids[1..], id);
    }
  }

  lemma GrowKeepsFloor(w: Win, rows: nat, cols: nat)
    requires FloorKept(w) && Allowed(w, GrowOp(rows, cols))
    ensures FloorKept(w.(rows := rows, cols := cols))
  {
    hide Geometry, RectOf;
    forall id | id in Leaves(w.tree) ensures AtLeastMinimum(RectIn(w.tree, Window(rows, cols), id)) {
      GrowthIsMonotone(w.tree, Window(w.rows, w.cols), Window(rows, cols), id);
      assert AtLeastMinimum(RectIn(w.tree, Window(w.rows, w.cols), id));
    }
  }

  /**
   Over every run of splits, closes and growth, every leaf of the window stays at least
   MIN_PANE_ROWS x MIN_PANE_COLS.
   */
  lemma {:induction false} FloorOverRuns(w: Win, ops: seq<WindowOp>)
    requires FloorKept(w) && Run(w, ops)
    ensures FloorKept(After(w, ops))
    decreases |ops|
  {
    hide FloorKept, SplitVerdict, Geometry, RectOf;
    if ops != [] {
      match ops[0] {
        case SplitOp(target, o, added) =>
          if SplitVerdict(w.tree, target, o, w.rows, w.cols).Done? {
            SplitKeepsFloor(w, target, o, added);
          }
        case CloseOp(id) => CloseKeepsFloor(w, id);
        case GrowOp(rows, cols) => GrowKeepsFloor(w, rows, cols);
      }
      FloorOverRuns(Step(w, ops[0]), ops[1..]);
    }
  }

  /** A window that starts as one leaf of at least the minimum size is such a window. */
  lemma SingleLeafKeepsFloor(pane: PaneId, rows: nat, cols: nat)
    requires MIN_PANE_ROWS <= rows <= U16_MAX && MIN_PANE_COLS <= cols <= U16_MAX
    ensures FloorKept(Win(Leaf(pane), rows, cols))
  {
    assert Geometry(Leaf(pane), Window(rows, cols)) == [Placed(pane, Window(rows, cols))];
  }

  /** Over every run of splits, closes and growth in a window that opens at or above the minimum size. */
  lemma FloorFromFirstPane(pane: PaneId, rows: nat, cols: nat, ops: seq<WindowOp>)
    requires MIN_PANE_ROWS <= rows <= U16_MAX && MIN_PANE_COLS <= cols <= U16_MAX
    requires Run(Win(Leaf(pane), rows, cols), ops)
    ensures FloorKept(After(Win(Leaf(pane), rows, cols), ops))
  {
    hide FloorKept, Run, After;
    SingleLeafKeepsFloor(pane, rows, cols);
    FloorOverRuns(Win(Leaf(pane), rows, cols), ops);
  }

  /** Shrinking is different: an allowed split, then a smaller client, leaves a pane under the floor. */
  lemma ShrinkBreaksFloor()
    ensures var t := SplitLeaf(Leaf(1), 1, Horizontal, 2);
            && SplitVerdict(Leaf(1), 1, Horizontal, 24, 80).Done?
            && RatiosOk(t) && 1 in Leaves(t)
            && !AtLeastMinimum(RectIn(t, Window(MIN_PANE_ROWS, MIN_PANE_COLS), 1))
  {
    var t := SplitLeaf(Leaf(1), 1, Horizontal, 2);
    assert Geometry(Leaf(1), Window(24, 80)) == [Placed(1, Window(24, 80))];
    HalfExtent(10);
    var r := Window(MIN_PANE_ROWS, MIN_PANE_COLS);
    assert t == LayoutNode.Split(Horizontal, Leaf(1), 0.5, Leaf(2), 0.5);
    assert FirstExtent(t, r) == 5;
    assert 1 in Leaves(Leaf(1));
    RectInSplit(t, r, 1);
  }

  // ------------------------------------------------------------------ exactly when a size is enough

  /** Every ratio is one half, as in every tree that splits and closes build. */
  predicate HalfTree(t: LayoutNode) {
    t.Split? ==> t.firstRatio == 0.5 && HalfTree(t.first) && HalfTree(t.second)
  }

  /** What a side-by-side (or stacked) pair needs: the first child gets the smaller half. */
  function NeedBoth(first: nat, second: nat): nat {
    Max(2 * first, if second == 0 then 0 else 2 * second - 1)
  }

  function NeedRows(t: LayoutNode): nat {
    match t
    case Leaf(_) => MIN_PANE_ROWS
    case Split(o, a, _, b, _) =>
      if o.Vertical? then NeedBoth(NeedRows(a), NeedRows(b)) else Max(NeedRows(a), NeedRows(b))
  }

  function NeedCols(t: LayoutNode): nat {
    match t
    case Leaf(_) => MIN_PANE_COLS
    case Split(o, a, _, b, _) =>
      if o.Horizontal? then NeedBoth(NeedCols(a), NeedCols(b)) else Max(NeedCols(a), NeedCols(b))
  }

  lemma {:induction false} HalfTreeRatios(t: LayoutNode)
    requires HalfTree(t)
    ensures RatiosOk(t)
  {
    if t.Split? {
      HalfTreeRatios(t.first);
      HalfTreeRatios(t.second);
    }
  }

  /** Large enough: every leaf is at least the minimum. */
  lemma {:induction false} EnoughRoom(t: LayoutNode, r: PtyRect, id: PaneId)
    requires HalfTree(t) && RatiosOk(t) && id in Leaves(t) && r.rows <= U16_MAX && r.cols <= U16_MAX
    requires NeedRows(t) <= r.rows && NeedCols(t) <= r.cols
    ensures AtLeastMinimum(RectIn(t, r, id))
  {
    hide Geometry, RectOf;
    match t
    case Leaf(i) => LeafFills(t, r, id);
    case Split(o, a, _, b, _) =>
      HalfExtent(if o.Horizontal? then r.cols else r.rows);
      var e := FirstExtent(t, r);
      RectInSplit(t, r, id);
      if id in Leaves(a) {
        EnoughRoom(a, FirstRect(o, r, e), id);
      } else {
        EnoughRoom(b, SecondRect(o, r, e), id);
      }
  }

  lemma LeafFills(t: LayoutNode, r: PtyRect, id: PaneId)
    requires t.Leaf? && id in Leaves(t)
    ensures RectIn(t, r, id) == r
  {
  }

  /** Too small: some leaf falls below the minimum. */
  lemma {:induction false} NotEnoughRoom(t: LayoutNode, r: PtyRect) returns (id: PaneId)
    requires HalfTree(t) && RatiosOk(t) && Distinct(t) && r.rows <= U16_MAX && r.cols <= U16_MAX
    requires r.rows < NeedRows(t) || r.cols < NeedCols(t)
    ensures id in Leaves(t) && !AtLeastMinimum(RectIn(t, r, id))
  {
    hide Geometry, RectOf;
    match t
    case Leaf(i) =>
      id := i;
      LeafFills(t, r, id);
    case Split(o, a, _, b, _) =>
      HalfExtent(if o.Horizontal? then r.cols else r.rows);
      var e := FirstExtent(t, r);
      var r1, r2 := FirstRect(o, r, e), SecondRect(o, r, e);
      if r1.rows < NeedRows(a) || r1.cols < NeedCols(a) {
        id := NotEnoughRoom(a, r1);
      } else {
        id := NotEnoughRoom(b, r2);
      }
      RectInSplit(t, r, id);
  }

  /**
   Exactly when a window of a given size keeps every pane of its tree at or above the minimum: iff it
   has at least `NeedRows` rows and `NeedCols` columns. This is what a caller can check before shrinking.
   */
  lemma FloorIffEnoughRoom(t: LayoutNode, rows: nat, cols: nat)
    requires HalfTree(t) && Distinct(t) && rows <= U16_MAX && cols <= U16_MAX
    ensures FloorKept(Win(t, rows, cols)) <==> NeedRows(t) <= rows && NeedCols(t) <= cols
  {
    hide Geometry, RectOf;
    HalfTreeRatios(t);
    var r := Window(rows, cols);
    if NeedRows(t) <= rows && NeedCols(t) <= cols {
      forall id | id in Leaves(t) ensures AtLeastMinimum(RectIn(t, r, id)) {
        EnoughRoom(t, r, id);
      }
    } else {
      var id := NotEnoughRoom(t, r);
    }
  }

  lemma {:induction false} SplitKeepsHalves(t: LayoutNode, target: PaneId, o: Orientation, added: PaneId)
    requires HalfTree(t)
    ensures HalfTree(SplitLeaf(t, target, o, added))
  {
    if t.Split? {
      SplitKeepsHalves(t.first, target, o, added);
      SplitKeepsHalves(t.second, target, o, added);
    }
  }

  lemma {:induction false} CloseKeepsHalves(t: LayoutNode, id: PaneId)
    requires HalfTree(t)
    ensures Remove(t, id).Collapsed? ==> HalfTree(Remove(t, id).tree)
  {
    if t.Split? {
      CloseKeepsHalves(t.first, id);
      CloseKeepsHalves(t.second, id);
    }
  }

  /** Every tree a run builds from a single leaf is such a half-and-half tree. */
  lemma {:induction false} RunsBuildHalfTrees(w: Win, ops: seq<WindowOp>)
    requires Run(w, ops) && (w.Win? ==> HalfTree(w.tree))
    ensures After(w, ops).Win? ==> HalfTree(After(w, ops).tree)
    decreases |ops|
  {
    hide SplitVerdict, Geometry, RectOf;
    if ops != [] {
      match ops[0] {
        case SplitOp(target, o, added) => SplitKeepsHalves(w.tree, target, o, added);
        case CloseOp(id) => CloseKeepsHalves(w.tree, id);
        case GrowOp(rows, cols) =>
      }
      RunsBuildHalfTrees(Step(w, ops[0]), ops[1..]);
    }
  }
}
