/**
 The split tree of one window: crates/tymux-core/src/layout.rs.

 Geometry, `contains`, `leaves` and `remove` are functions on trees; the class `WindowLayout` holds
 a tree that `split` and `remove` change in place. Ratios (`f32`) are reals; an extent is a `u16` in
 the source and a natural number here, and the tiling theorem shows that nothing ever leaves the
 window, so nothing overflows.
 */
module Layout {
  import opened Common

  type PaneId = nat

  datatype Orientation = Horizontal | Vertical

  /** `children` always holds two entries in the source: here they are two fields. */
  datatype LayoutNode =
    | Leaf(id: PaneId)
    | Split(orientation: Orientation, first: LayoutNode, firstRatio: real, second: LayoutNode, secondRatio: real)

  datatype PtyRect = PtyRect(row: nat, col: nat, rows: nat, cols: nat)

  datatype Placed = Placed(id: PaneId, rect: PtyRect)

  datatype RemoveOutcome = Collapsed(tree: LayoutNode) | WindowEmpty

  datatype SplitOutcome =
    | Done
    | BelowMinimumSize(rows: nat, cols: nat)
    | BelowRecommendedSize(rows: nat)
    | PaneNotFound

  const MIN_PANE_ROWS: nat := 2
  const MIN_PANE_COLS: nat := 10
  const RECOMMENDED_SPLIT_MIN_ROWS: nat := 20

  function Leaves(t: LayoutNode): seq<PaneId> {
    match t
    case Leaf(id) => [id]
    case Split(_, a, _, b, _) => Leaves(a) + Leaves(b)
  }

  predicate Contains(t: LayoutNode, id: PaneId) {
    match t
    case Leaf(i) => i == id
    case Split(_, a, _, b, _) => Contains(a, id) || Contains(b, id)
  }

  /** Every ratio of the first children lies in [0, 1]. */
  predicate RatiosOk(t: LayoutNode) {
    t.Split? ==> 0.0 <= t.firstRatio <= 1.0 && RatiosOk(t.first) && RatiosOk(t.second)
  }

  predicate Distinct(t: LayoutNode) {
    t.Split? ==>
      && Distinct(t.first) && Distinct(t.second)
      && forall id :: id in Leaves(t.first) ==> id !in Leaves(t.second)
  }

  /** `((extent as f32) * ratio).floor() as u16`; the cast saturates at 0 and at 65535. */
  function SplitExtent(extent: nat, ratio: real): nat {
    Max(0, Min(Scaled(extent, ratio).Floor, U16_MAX))
  }

  function Scaled(extent: nat, ratio: real): real {
    extent as real * ratio
  }

  function SecondRect(o: Orientation, r: PtyRect, extent: nat): PtyRect
    requires extent <= if o.Horizontal? then r.cols else r.rows
  {
    if o.Horizontal? then PtyRect(r.row, r.col + extent, r.rows, r.cols - extent)
    else PtyRect(r.row + extent, r.col, r.rows - extent, r.cols)
  }

  function FirstRect(o: Orientation, r: PtyRect, extent: nat): PtyRect {
    if o.Horizontal? then r.(cols := extent) else r.(rows := extent)
  }

  /** The extent of the first child; the second one gets the remainder. */
  function FirstExtent(t: LayoutNode, r: PtyRect): (e: nat)
    requires t.Split? && 0.0 <= t.firstRatio <= 1.0
    ensures e <= if t.orientation.Horizontal? then r.cols else r.rows
  {
    var whole := if t.orientation.Horizontal? then r.cols else r.rows;
    ExtentFits(whole, t.firstRatio);
    SplitExtent(whole, t.firstRatio)
  }

  lemma ExtentFits(extent: nat, ratio: real)
    requires 0.0 <= ratio <= 1.0
    ensures SplitExtent(extent, ratio) <= extent
  {
    hide Scaled;
    ScaledGrows(0, extent, ratio);
  }

  /** Scaling by a ratio in [0, 1] never adds more than the extent itself grew. */
  lemma ScaledGrows(a: nat, b: nat, ratio: real)
    requires a <= b && 0.0 <= ratio <= 1.0
    ensures 0.0 <= Scaled(a, ratio) <= Scaled(b, ratio) <= Scaled(a, ratio) + (b - a) as real
    ensures Scaled(0, ratio) == 0.0
  {
    hide Scaled;
    ScaledBound(0, ratio);
    ScaledBound(a, ratio);
    ScaledBound(b - a, ratio);
    ScaledSum(a, b - a, b, ratio);
  }

  lemma ScaledBound(extent: nat, ratio: real)
    requires 0.0 <= ratio <= 1.0
    ensures 0.0 <= Scaled(extent, ratio) <= extent as real
  {
    Product(extent as real, ratio);
  }

  lemma ScaledSum(a: nat, b: nat, sum: nat, ratio: real)
    requires sum == a + b
    ensures Scaled(sum, ratio) == Scaled(a, ratio) + Scaled(b, ratio)
  {
    assert sum as real == a as real + b as real;
    Distribute(a as real, b as real, ratio);
  }

  lemma Product(a: real, r: real)
    requires a >= 0.0 && 0.0 <= r <= 1.0
    ensures 0.0 <= a * r <= a
  {
  }

  lemma Distribute(a: real, b: real, r: real)
    ensures (a + b) * r == a * r + b * r
  {
  }

  /** `compute_geometry_at`: one rectangle per leaf, first child before second. */
  function Geometry(t: LayoutNode, r: PtyRect): seq<Placed>
    requires RatiosOk(t)
  {
    match t
    case Leaf(id) => [Placed(id, r)]
    case Split(o, a, _, b, _) =>
      var e := FirstExtent(t, r);
      Geometry(a, FirstRect(o, r, e)) + Geometry(b, SecondRect(o, r, e))
  }

  function Window(rows: nat, cols: nat): PtyRect {
    PtyRect(0, 0, rows, cols)
  }

  // ------------------------------------------------------------------ exact tiling

  predicate InRect(r: PtyRect, row: int, col: int) {
    r.row <= row < r.row + r.rows && r.col <= col < r.col + r.cols
  }

  predicate Inside(inner: PtyRect, outer: PtyRect) {
    && outer.row <= inner.row && inner.row + inner.rows <= outer.row + outer.rows
    && outer.col <= inner.col && inner.col + inner.cols <= outer.col + outer.cols
  }

  /** How many of the placed rectangles cover a cell. */
  function Covers(g: seq<Placed>, row: int, col: int): nat {
    if g == [] then 0 else (if InRect(g[0].rect, row, col) then 1 else 0) + Covers(g[1..], row, col)
  }

  lemma {:induction false} CoversConcat(a: seq<Placed>, b: seq<Placed>, row: int, col: int)
    ensures Covers(a + b, row, col) == Covers(a, row, col) + Covers(b, row, col)
  {
    if a == [] {
      assert a + b == b;
    } else {
      CoversConcat(a[1..], b, row, col);
      assert (a + b)[1..] == a[1..] + b;
    }
  }

  /** One placement per leaf, in `leaves()` order. */
  lemma {:induction false} GeometryInLeafOrder(t: LayoutNode, r: PtyRect)
    requires RatiosOk(t)
    ensures |Geometry(t, r)| == |Leaves(t)|
    ensures forall i :: 0 <= i < |Leaves(t)| ==> Geometry(t, r)[i].id == Leaves(t)[i]
  {
    if t.Split? {
      var e := FirstExtent(t, r);
      GeometryInLeafOrder(t.first, FirstRect(t.orientation, r, e));
      GeometryInLeafOrder(t.second, SecondRect(t.orientation, r, e));
    }
  }

  /** Every rectangle lies inside the given one. */
  lemma {:induction false} GeometryInside(t: LayoutNode, r: PtyRect)
    requires RatiosOk(t)
    ensures forall i :: 0 <= i < |Geometry(t, r)| ==> Inside(Geometry(t, r)[i].rect, r)
  {
    if t.Split? {
      var e := FirstExtent(t, r);
      GeometryInside(t.first, FirstRect(t.orientation, r, e));
      GeometryInside(t.second, SecondRect(t.orientation, r, e));
    }
  }

  /** Every cell of the rectangle is covered exactly once, and no other cell at all. */
  lemma {:induction false} CoveredOnce(t: LayoutNode, r: PtyRect, row: int, col: int)
    requires RatiosOk(t)
    ensures Covers(Geometry(t, r), row, col) == if InRect(r, row, col) then 1 else 0
  {
    match t
    case Leaf(id) =>
      assert Geometry(t, r)[1..] == [];
    case Split(o, a, _, b, _) =>
      var e := FirstExtent(t, r);
      CoveredOnce(a, FirstRect(o, r, e), row, col);
      CoveredOnce(b, SecondRect(o, r, e), row, col);
      CoversConcat(Geometry(a, FirstRect(o, r, e)), Geometry(b, SecondRect(o, r, e)), row, col);
  }

  lemma {:induction false} CoversAtLeast(g: seq<Placed>, i: nat, j: nat, row: int, col: int)
    requires i < |g| && InRect(g[i].rect, row, col)
    requires i < j < |g| && InRect(g[j].rect, row, col)
    ensures Covers(g, row, col) >= 2
  {
    if i > 0 {
      CoversAtLeast(g[1..], i - 1, j - 1, row, col);
    } else {
      CoversSome(g[1..], j - 1, row, col);
    }
  }

  lemma {:induction false} CoversSome(g: seq<Placed>, j: nat, row: int, col: int)
    requires j < |g| && InRect(g[j].rect, row, col)
    ensures Covers(g, row, col) >= 1
  {
    if j > 0 {
      CoversSome(g[1..], j - 1, row, col);
    }
  }

  /**
   Exact tiling, for every tree with ratios in [0, 1] and every window a `u16` can describe: the
   rectangles come in leaf order, lie in the window (so every coordinate fits `u16`), cover every
   cell of it exactly once and none outside, and no two share a cell.
   */
  lemma ExactTiling(t: LayoutNode, rows: nat, cols: nat)
    requires RatiosOk(t) && rows <= U16_MAX && cols <= U16_MAX
    ensures var g := Geometry(t, Window(rows, cols));
            && |g| == |Leaves(t)|
            && (forall i :: 0 <= i < |g| ==> g[i].id == Leaves(t)[i])
            && (forall i :: 0 <= i < |g| ==>
                  g[i].rect.row + g[i].rect.rows <= rows <= U16_MAX && g[i].rect.col + g[i].rect.cols <= cols <= U16_MAX)
            && (forall row, col :: Covers(g, row, col) == if 0 <= row < rows && 0 <= col < cols then 1 else 0)
            && (forall i, j, row, col :: 0 <= i < j < |g| && InRect(g[i].rect, row, col) ==> !InRect(g[j].rect, row, col))
  {
    var r := Window(rows, cols);
    var g := Geometry(t, r);
    GeometryInLeafOrder(t, r);
    GeometryInside(t, r);
    forall row, col ensures Covers(g, row, col) == if 0 <= row < rows && 0 <= col < cols then 1 else 0 {
      CoveredOnce(t, r, row, col);
    }
    forall i, j, row, col | 0 <= i < j < |g| && InRect(g[i].rect, row, col) ensures !InRect(g[j].rect, row, col) {
      if InRect(g[j].rect, row, col) {
        CoversAtLeast(g, i, j, row, col);
      }
    }
  }

  lemma {:induction false} LeavesDistinct(t: LayoutNode)
    requires Distinct(t)
    ensures NoRepeats(Leaves(t))
  {
    if t.Split? {
      LeavesDistinct(t.first);
      LeavesDistinct(t.second);
      NoRepeatsConcat(Leaves(t.first), Leaves(t.second));
    }
  }

  predicate NoRepeats(ids: seq<PaneId>) {
    forall i, j :: 0 <= i < j < |ids| ==> ids[i] != ids[j]
  }

  lemma NoRepeatsConcat(a: seq<PaneId>, b: seq<PaneId>)
    requires NoRepeats(a) && NoRepeats(b) && forall x :: x in a ==> x !in b
    ensures NoRepeats(a + b)
  {
    forall i, j | 0 <= i < j < |a + b| ensures (a + b)[i] != (a + b)[j] {
      if i < |a| && j >= |a| {
        assert (a + b)[i] in a && (a + b)[j] in b;
      }
    }
  }

  // ------------------------------------------------------------------ split and remove

  lemma {:induction false} ContainsIsLeaf(t: LayoutNode, id: PaneId)
    ensures Contains(t, id) <==> id in Leaves(t)
  {
    if t.Split? {
      ContainsIsLeaf(t.first, id);
      ContainsIsLeaf(t.second, id);
    }
  }

  /** `replace_leaf` as `split` uses it: the target leaf becomes a half-and-half split with `added`. */
  function SplitLeaf(t: LayoutNode, target: PaneId, o: Orientation, added: PaneId): LayoutNode {
    match t
    case Leaf(id) => if id == target then Split(o, t, 0.5, Leaf(added), 0.5) else t
    case Split(_, a, _, b, _) => t.(first := SplitLeaf(a, target, o, added), second := SplitLeaf(b, target, o, added))
  }

  function RectOf(g: seq<Placed>, id: PaneId): Option<PtyRect> {
    if g == [] then None else if g[0].id == id then Some(g[0].rect) else RectOf(g[1..], id)
  }

  function HalfSize(o: Orientation, r: PtyRect): (nat, nat) {
    if o.Horizontal? then (r.rows, r.cols / 2) else (r.rows / 2, r.cols)
  }

  /** What `split` answers; only `Done` changes the tree. */
  function SplitVerdict(t: LayoutNode, target: PaneId, o: Orientation, rows: nat, cols: nat): SplitOutcome
    requires RatiosOk(t)
  {
    if !Contains(t, target) then PaneNotFound
    else
      var rect := RectOf(Geometry(t, Window(rows, cols)), target);
      if rect.None? then PaneNotFound
      else
        var (newRows, newCols) := HalfSize(o, rect.value);
        if newRows < MIN_PANE_ROWS || newCols < MIN_PANE_COLS then BelowMinimumSize(newRows, newCols)
        else if o.Horizontal? && newRows < RECOMMENDED_SPLIT_MIN_ROWS then BelowRecommendedSize(newRows)
        else Done
  }

  function Remove(t: LayoutNode, id: PaneId): RemoveOutcome {
    match t
    case Leaf(i) => if i == id then WindowEmpty else Collapsed(t)
    case Split(o, a, ra, b, rb) =>
      if Contains(a, id) && a.Leaf? then Collapsed(b)
      else if Contains(b, id) && b.Leaf? then Collapsed(a)
      else if Contains(a, id) then
        (match Remove(a, id)
         case Collapsed(a') => Collapsed(Split(o, a', ra, b, rb))
         case WindowEmpty => Collapsed(b))
      else if Contains(b, id) then
        (match Remove(b, id)
         case Collapsed(b') => Collapsed(Split(o, a, ra, b', rb))
         case WindowEmpty => Collapsed(a))
      else Collapsed(t)
  }

  /** The sequence without the occurrences of `id`. */
  function Without(ids: seq<PaneId>, id: PaneId): seq<PaneId> {
    if ids == [] then [] else Unless(ids[0], id) + Without(ids[1..], id)
  }

  function Unless(x: PaneId, id: PaneId): seq<PaneId> {
    if x == id then [] else [x]
  }

  lemma WithoutNone(id: PaneId)
    ensures Without([], id) == []
  {
  }

  lemma WithoutFirst(first: PaneId, rest: seq<PaneId>, id: PaneId)
    ensures Without([first] + rest, id) == Unless(first, id) + Without(rest, id)
  {
    hide Unless;
    assert ([first] + rest)[1..] == rest;
  }

  lemma {:induction false} WithoutConcat(a: seq<PaneId>, b: seq<PaneId>, id: PaneId)
    ensures Without(a + b, id) == Without(a, id) + Without(b, id)
  {
    hide Without, Unless;
    if a == [] {
      assert a + b == b;
      WithoutNone(id);
      assert [] + Without(b, id) == Without(b, id);
    } else {
      WithoutConcat(a[1..], b, id);
      WithoutFirst(a[0], a[1..], id);
      WithoutFirst(a[0], a[1..] + b, id);
      assert a == [a[0]] + a[1..] && a + b == [a[0]] + (a[1..] + b);
    }
  }

  lemma {:induction false} WithoutAbsent(ids: seq<PaneId>, id: PaneId)
    requires id !in ids
    ensures Without(ids, id) == ids
  {
    if ids != [] {
      WithoutAbsent(ids[1..], id);
    }
  }

  /**
   `remove` deletes exactly the given id, keeps the order of all others and every surviving ratio,
   and leaves a window empty exactly when its tree was that one leaf.
   */
  lemma {:induction false} RemoveDeletesOne(t: LayoutNode, id: PaneId)
    requires Distinct(t)
    ensures Remove(t, id).WindowEmpty? <==> t == Leaf(id)
    ensures Remove(t, id).Collapsed? ==>
              var t' := Remove(t, id).tree;
              Leaves(t') == Without(Leaves(t), id) && Distinct(t') && (RatiosOk(t) ==> RatiosOk(t'))
  {
    match t
    case Leaf(i) =>
    case Split(o, a, ra, b, rb) =>
      ContainsIsLeaf(a, id);
      ContainsIsLeaf(b, id);
      RemoveDeletesOne(a, id);
      RemoveDeletesOne(b, id);
      WithoutConcat(Leaves(a), Leaves(b), id);
      if id !in Leaves(a) { WithoutAbsent(Leaves(a), id); }
      if id !in Leaves(b) { WithoutAbsent(Leaves(b), id); }
      WithoutMembers(Leaves(a), id);
      WithoutMembers(Leaves(b), id);
  }

  lemma {:induction false} WithoutMembers(ids: seq<PaneId>, id: PaneId)
    ensures forall x :: x in Without(ids, id) ==> x in ids
  {
    if ids != [] {
      WithoutMembers(ids[1..], id);
    }
  }

  /** The sequence with `added` right after `target`. */
  function Inserted(ids: seq<PaneId>, target: PaneId, added: PaneId): seq<PaneId> {
    if ids == [] then [] else WithAdded(ids[0], target, added) + Inserted(ids[1..], target, added)
  }

  function WithAdded(id: PaneId, target: PaneId, added: PaneId): seq<PaneId> {
    if id == target then [id, added] else [id]
  }

  lemma InsertedNone(target: PaneId, added: PaneId)
    ensures Inserted([], target, added) == []
  {
  }

  lemma InsertedFirst(first: PaneId, rest: seq<PaneId>, target: PaneId, added: PaneId)
    ensures Inserted([first] + rest, target, added) == WithAdded(first, target, added) + Inserted(rest, target, added)
  {
    hide WithAdded;
    assert ([first] + rest)[1..] == rest;
  }

  lemma {:induction false} InsertedConcat(a: seq<PaneId>, b: seq<PaneId>, target: PaneId, added: PaneId)
    ensures Inserted(a + b, target, added) == Inserted(a, target, added) + Inserted(b, target, added)
  {
    hide Inserted, WithAdded;
    if a == [] {
      assert a + b == b;
      InsertedNone(target, added);
      assert [] + Inserted(b, target, added) == Inserted(b, target, added);
    } else {
      InsertedConcat(a[1..], b, target, added);
      InsertedFirst(a[0], a[1..], target, added);
      InsertedFirst(a[0], a[1..] + b, target, added);
      assert a == [a[0]] + a[1..] && a + b == [a[0]] + (a[1..] + b);
    }
  }

  /** Splitting adds exactly the new id, right after its target. */
  lemma {:induction false} SplitAddsOne(t: LayoutNode, target: PaneId, o: Orientation, added: PaneId)
    ensures Leaves(SplitLeaf(t, target, o, added)) == Inserted(Leaves(t), target, added)
    ensures RatiosOk(t) ==> RatiosOk(SplitLeaf(t, target, o, added))
  {
    match t
    case Leaf(id) =>
    case Split(_, a, _, b, _) =>
      SplitAddsOne(a, target, o, added);
      SplitAddsOne(b, target, o, added);
      InsertedConcat(Leaves(a), Leaves(b), target, added);
  }

  lemma {:induction false} SplitElsewhere(t: LayoutNode, target: PaneId, o: Orientation, added: PaneId)
    requires target !in Leaves(t)
    ensures SplitLeaf(t, target, o, added) == t
  {
    if t.Split? {
      SplitElsewhere(t.first, target, o, added);
      SplitElsewhere(t.second, target, o, added);
    }
  }

  lemma {:induction false} InsertedMembers(ids: seq<PaneId>, target: PaneId, added: PaneId)
    ensures forall x :: x in Inserted(ids, target, added) <==> x in ids || (x == added && target in ids)
  {
    if ids != [] {
      InsertedMembers(ids[1..], target, added);
    }
  }

  lemma {:induction false} SplitKeepsDistinct(t: LayoutNode, target: PaneId, o: Orientation, added: PaneId)
    requires Distinct(t) && added !in Leaves(t)
    ensures Distinct(SplitLeaf(t, target, o, added))
  {
    if t.Split? {
      SplitKeepsDistinct(t.first, target, o, added);
      SplitKeepsDistinct(t.second, target, o, added);
      SplitAddsOne(t.first, target, o, added);
      SplitAddsOne(t.second, target, o, added);
      InsertedMembers(Leaves(t.first), target, added);
      InsertedMembers(Leaves(t.second), target, added);
    }
  }

  lemma {:induction false} RemoveAbsent(t: LayoutNode, id: PaneId)
    requires id !in Leaves(t)
    ensures Remove(t, id) == Collapsed(t)
  {
    ContainsIsLeaf(t, id);
  }

  /** Closing the pane a split created gives back the tree as it was, ratios included. */
  lemma {:induction false} RemoveUndoesSplit(t: LayoutNode, target: PaneId, o: Orientation, added: PaneId)
    requires Distinct(t) && target in Leaves(t) && added !in Leaves(t)
    ensures Remove(SplitLeaf(t, target, o, added), added) == Collapsed(t)
  {
    match t
    case Leaf(id) =>
    case Split(p, a, ra, b, rb) =>
      var a', b' := SplitLeaf(a, target, o, added), SplitLeaf(b, target, o, added);
      SplitAddsOne(a, target, o, added);
      SplitAddsOne(b, target, o, added);
      InsertedMembers(Leaves(a), target, added);
      InsertedMembers(Leaves(b), target, added);
      ContainsIsLeaf(a', added);
      ContainsIsLeaf(b', added);
      if target in Leaves(a) {
        RemoveUndoesSplit(a, target, o, added);
        SplitElsewhere(b, target, o, added);
      } else {
        RemoveUndoesSplit(b, target, o, added);
        SplitElsewhere(a, target, o, added);
      }
  }

  // ------------------------------------------------------------------ geometry of split and remove

  lemma {:induction false} RectOfConcat(a: seq<Placed>, b: seq<Placed>, id: PaneId)
    ensures RectOf(a + b, id) == if RectOf(a, id).Some? then RectOf(a, id) else RectOf(b, id)
  {
    if a == [] {
      assert a + b == b;
    } else {
      RectOfConcat(a[1..], b, id);
      assert (a + b)[1..] == a[1..] + b;
    }
  }

  lemma {:induction false} RectOfLeaf(t: LayoutNode, r: PtyRect, id: PaneId)
    requires RatiosOk(t)
    ensures RectOf(Geometry(t, r), id).Some? <==> id in Leaves(t)
  {
    if t.Split? {
      var e := FirstExtent(t, r);
      var r1, r2 := FirstRect(t.orientation, r, e), SecondRect(t.orientation, r, e);
      RectOfLeaf(t.first, r1, id);
      RectOfLeaf(t.second, r2, id);
      RectOfConcat(Geometry(t.first, r1), Geometry(t.second, r2), id);
    }
  }

  /** The rectangle of leaf `id` when the tree fills `r`. */
  function RectIn(t: LayoutNode, r: PtyRect, id: PaneId): PtyRect
    requires RatiosOk(t) && id in Leaves(t)
  {
    RectOfLeaf(t, r, id);
    RectOf(Geometry(t, r), id).value
  }

  lemma RectInSplit(t: LayoutNode, r: PtyRect, id: PaneId)
    requires RatiosOk(t) && t.Split? && id in Leaves(t)
    ensures var e := FirstExtent(t, r);
            RectIn(t, r, id) ==
              if id in Leaves(t.first) then RectIn(t.first, FirstRect(t.orientation, r, e), id)
              else RectIn(t.second, SecondRect(t.orientation, r, e), id)
  {
    var e := FirstExtent(t, r);
    var r1, r2 := FirstRect(t.orientation, r, e), SecondRect(t.orientation, r, e);
    RectOfLeaf(t.first, r1, id);
    RectOfLeaf(t.second, r2, id);
    RectOfConcat(Geometry(t.first, r1), Geometry(t.second, r2), id);
  }

  lemma HalfExtent(extent: nat)
    ensures extent <= U16_MAX ==> SplitExtent(extent, 0.5) == extent / 2
  {
  }

  /**
   A split is local: every other leaf keeps its rectangle, and the target's rectangle is divided
   between the target (first half) and the new pane (the rest).
   */
  lemma {:induction false} SplitIsLocal(t: LayoutNode, target: PaneId, o: Orientation, added: PaneId, r: PtyRect, id: PaneId)
    requires RatiosOk(t) && Distinct(t) && target in Leaves(t) && added !in Leaves(t)
    requires r.rows <= U16_MAX && r.cols <= U16_MAX
    requires id == added || id in Leaves(t)
    ensures var t' := SplitLeaf(t, target, o, added);
            && RatiosOk(t') && id in Leaves(t')
            && var was := RectIn(t, r, target);
               var half := if o.Horizontal? then was.cols / 2 else was.rows / 2;
               RectIn(t', r, id) ==
                 if id == target then FirstRect(o, was, half)
                 else if id == added then SecondRect(o, was, half)
                 else RectIn(t, r, id)
  {
    var t' := SplitLeaf(t, target, o, added);
    SplitAddsOne(t, target, o, added);
    InsertedMembers(Leaves(t), target, added);
    match t
    case Leaf(i) =>
      HalfExtent(if o.Horizontal? then r.cols else r.rows);
      RectInSplit(t', r, id);
    case Split(p, a, ra, b, rb) =>
      var e := FirstExtent(t, r);
      var r1, r2 := FirstRect(p, r, e), SecondRect(p, r, e);
      RectInSplit(t, r, target);
      RectInSplit(t', r, id);
      if id != added { RectInSplit(t, r, id); }
      SplitAddsOne(a, target, o, added);
      SplitAddsOne(b, target, o, added);
      InsertedMembers(Leaves(a), target, added);
      InsertedMembers(Leaves(b), target, added);
      if target in Leaves(a) {
        SplitElsewhere(b, target, o, added);
        if id in Leaves(a) || id == added { SplitIsLocal(a, target, o, added, r1, id); }
      } else {
        SplitElsewhere(a, target, o, added);
        if id in Leaves(b) || id == added { SplitIsLocal(b, target, o, added, r2, id); }
      }
  }

  predicate NotSmaller(a: PtyRect, b: PtyRect) {
    a.rows <= b.rows && a.cols <= b.cols
  }

  lemma ExtentMonotone(a: nat, b: nat, ratio: real)
    requires a <= b && 0.0 <= ratio <= 1.0
    ensures SplitExtent(a, ratio) <= SplitExtent(b, ratio)
    ensures SplitExtent(a, ratio) <= a && SplitExtent(b, ratio) <= b
    ensures a - SplitExtent(a, ratio) <= b - SplitExtent(b, ratio)
  {
    hide Scaled;
    ScaledGrows(a, b, ratio);
    ScaledGrows(0, a, ratio);
    FloorGrows(Scaled(a, ratio), Scaled(b, ratio), b - a);
    FloorGrows(0.0, Scaled(a, ratio), a);
  }

  lemma FloorGrows(x: real, y: real, d: nat)
    requires 0.0 <= x <= y <= x + d as real
    ensures 0 <= x.Floor <= y.Floor <= x.Floor + d
  {
  }

  /** A larger rectangle makes no leaf smaller, in either dimension. */
  lemma {:induction false} GrowthIsMonotone(t: LayoutNode, r: PtyRect, r': PtyRect, id: PaneId)
    requires RatiosOk(t) && id in Leaves(t) && NotSmaller(r, r')
    ensures NotSmaller(RectIn(t, r, id), RectIn(t, r', id))
  {
    if t.Split? {
      var e, e' := FirstExtent(t, r), FirstExtent(t, r');
      if t.orientation.Horizontal? {
        ExtentMonotone(r.cols, r'.cols, t.firstRatio);
      } else {
        ExtentMonotone(r.rows, r'.rows, t.firstRatio);
      }
      RectInSplit(t, r, id);
      RectInSplit(t, r', id);
      if id in Leaves(t.first) {
        GrowthIsMonotone(t.first, FirstRect(t.orientation, r, e), FirstRect(t.orientation, r', e'), id);
      } else {
        GrowthIsMonotone(t.second, SecondRect(t.orientation, r, e), SecondRect(t.orientation, r', e'), id);
      }
    }
  }

  /** Closing a pane never makes any surviving pane smaller, in either dimension, whatever the ratios. */
  lemma {:induction false} CloseNeverShrinks(t: LayoutNode, closed: PaneId, r: PtyRect, id: PaneId)
    requires RatiosOk(t) && Distinct(t) && closed in Leaves(t) && id in Leaves(t) && id != closed
    ensures var out := Remove(t, closed);
            && out.Collapsed? && RatiosOk(out.tree) && id in Leaves(out.tree)
            && NotSmaller(RectIn(t, r, id), RectIn(out.tree, r, id))
  {
    RemoveDeletesOne(t, closed);
    WithoutKeeps(Leaves(t), closed, id);
    match t
    case Leaf(i) =>
    case Split(o, a, ra, b, rb) =>
      ContainsIsLeaf(a, closed);
      ContainsIsLeaf(b, closed);
      RectInSplit(t, r, id);
      var e := FirstExtent(t, r);
      var r1, r2 := FirstRect(o, r, e), SecondRect(o, r, e);
      if closed in Leaves(a) && a.Leaf? {
        GrowthIsMonotone(b, r2, r, id);
      } else if closed in Leaves(b) && b.Leaf? {
        GrowthIsMonotone(a, r1, r, id);
      } else {
        RectInSplit(Remove(t, closed).tree, r, id);
        if closed in Leaves(a) {
          RemoveDeletesOne(a, closed);
          WithoutMembers(Leaves(a), closed);
          if id in Leaves(a) { WithoutKeeps(Leaves(a), closed, id); CloseNeverShrinks(a, closed, r1, id); }
        } else {
          RemoveDeletesOne(b, closed);
          WithoutMembers(Leaves(b), closed);
          if id in Leaves(b) { WithoutKeeps(Leaves(b), closed, id); CloseNeverShrinks(b, closed, r2, id); }
        }
      }
  }

  lemma {:induction false} WithoutKeeps(ids: seq<PaneId>, gone: PaneId, id: PaneId)
    requires id in ids && id != gone
    ensures id in Without(ids, gone)
  {
    if ids[0] != id {
      WithoutKeeps(ids[1..], gone, id);
    }
  }
}
