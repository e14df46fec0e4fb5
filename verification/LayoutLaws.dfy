/**
 What a split answers and what the tree operations do, said from the geometry and from the shape of
 the tree: crates/tymux-core/src/layout.rs, lines 130-360.
 */
module LayoutLaws {
  import opened Common
  import opened Layout
  import opened LayoutRuns

  // ------------------------------------------------------------------ geometry, written out

  /** `e` is the whole part of `extent * ratio`. */
  predicate IsShare(e: nat, extent: nat, ratio: real) {
    e as real <= extent as real * ratio < e as real + 1.0
  }

  lemma ShareIsFloor(extent: nat, ratio: real)
    requires 0.0 <= ratio <= 1.0 && extent <= U16_MAX
    ensures IsShare(SplitExtent(extent, ratio), extent, ratio)
  {
    hide Scaled;
    ScaledGrows(0, extent, ratio);
    assert Scaled(extent, ratio) == extent as real * ratio by { ScaledIs(extent, ratio); }
  }

  lemma ScaledIs(extent: nat, ratio: real)
    ensures Scaled(extent, ratio) == extent as real * ratio
  {
  }

  /**
   A horizontal split puts its children side by side, a vertical one on top of each other: the first
   child gets the whole part of its share of the columns (or rows), the second all the rest behind it.
   */
  lemma SplitGeometry(t: LayoutNode, r: PtyRect) returns (e: nat)
    requires RatiosOk(t) && t.Split? && r.rows <= U16_MAX && r.cols <= U16_MAX
    ensures IsShare(e, if t.orientation.Horizontal? then r.cols else r.rows, t.firstRatio)
    ensures e <= if t.orientation.Horizontal? then r.cols else r.rows
    ensures Geometry(t, r) ==
              if t.orientation.Horizontal? then
                Geometry(t.first, PtyRect(r.row, r.col, r.rows, e)) + Geometry(t.second, PtyRect(r.row, r.col + e, r.rows, r.cols - e))
              else
                Geometry(t.first, PtyRect(r.row, r.col, e, r.cols)) + Geometry(t.second, PtyRect(r.row + e, r.col, r.rows - e, r.cols))
  {
    hide SplitExtent;
    e := FirstExtent(t, r);
    ShareIsFloor(if t.orientation.Horizontal? then r.cols else r.rows, t.firstRatio);
  }

  lemma LeafGeometry(id: PaneId, r: PtyRect)
    ensures Geometry(Leaf(id), r) == [Placed(id, r)]
  {
  }

  // ------------------------------------------------------------------ what a split answers

  /** The target's own rectangle once the split is made. */
  lemma TargetAfterSplit(t: LayoutNode, target: PaneId, o: Orientation, added: PaneId, rows: nat, cols: nat)
    requires RatiosOk(t) && Distinct(t) && target in Leaves(t) && added !in Leaves(t) && rows <= U16_MAX && cols <= U16_MAX
    ensures var t' := SplitLeaf(t, target, o, added);
            && RatiosOk(t') && target in Leaves(t') && added in Leaves(t')
            && var was, now := RectIn(t, Window(rows, cols), target), RectIn(t', Window(rows, cols), target);
               && now.rows == (if o.Horizontal? then was.rows else was.rows / 2)
               && now.cols == (if o.Horizontal? then was.cols / 2 else was.cols)
  {
    hide RatiosOk, Distinct, Leaves, SplitLeaf, RectIn, Geometry;
    SplitIsLocal(t, target, o, added, Window(rows, cols), target);
    SplitIsLocal(t, target, o, added, Window(rows, cols), added);
  }

  /**
   The answer of a split, exactly, from the rectangles the split would make: refused as too small iff
   the target would have less than 2 rows or less than 10 columns (and with that size); else refused as
   below the recommended size iff the panes would stand side by side with less than 20 rows; else made.
   */
  lemma SplitAnswerIff(t: LayoutNode, target: PaneId, o: Orientation, added: PaneId, rows: nat, cols: nat)
    requires RatiosOk(t) && Distinct(t) && target in Leaves(t) && added !in Leaves(t) && rows <= U16_MAX && cols <= U16_MAX
    ensures var t' := SplitLeaf(t, target, o, added);
            && RatiosOk(t') && target in Leaves(t')
            && var half, answer := RectIn(t', Window(rows, cols), target), SplitVerdict(t, target, o, rows, cols);
               var small, low := half.rows < 2 || half.cols < 10, o.Horizontal? && half.rows < 20;
               && (answer.BelowMinimumSize? <==> small)
               && (answer.BelowMinimumSize? ==> answer == BelowMinimumSize(half.rows, half.cols))
               && (answer.BelowRecommendedSize? <==> !small && low)
               && (answer.BelowRecommendedSize? ==> answer == BelowRecommendedSize(half.rows))
               && (answer.Done? <==> !small && !low)
  {
    hide RatiosOk, Distinct, Leaves, SplitLeaf, Geometry, Contains;
    TargetAfterSplit(t, target, o, added, rows, cols);
    ContainsIsLeaf(t, target);
    RectOfLeaf(t, Window(rows, cols), target);
  }

  /** A pane of 24 rows and 80 columns can be split on top of each other, and not side by side below 20 rows. */
  lemma SplitAnswersOfOnePane(p: PaneId)
    ensures SplitVerdict(Leaf(p), p, Vertical, 24, 80) == Done
    ensures SplitVerdict(Leaf(p), p, Horizontal, 24, 80) == Done
    ensures SplitVerdict(Leaf(p), p, Horizontal, 10, 80) == BelowRecommendedSize(10)
    ensures SplitVerdict(Leaf(p), p, Vertical, 3, 80) == BelowMinimumSize(1, 80)
  {
    LeafGeometry(p, Window(24, 80));
    LeafGeometry(p, Window(10, 80));
    LeafGeometry(p, Window(3, 80));
  }

  // ------------------------------------------------------------------ remove, by the shape

  /** The tree without leaf `id`: a split that loses one side is its other side. */
  function Stripped(t: LayoutNode, id: PaneId): Option<LayoutNode> {
    match t
    case Leaf(i) => if i == id then None else Some(t)
    case Split(o, a, ra, b, rb) =>
      var a', b' := Stripped(a, id), Stripped(b, id);
      if a'.None? then b' else if b'.None? then a' else Some(Split(o, a'.value, ra, b'.value, rb))
  }

  lemma {:induction false} StrippedAbsent(t: LayoutNode, id: PaneId)
    requires id !in Leaves(t)
    ensures Stripped(t, id) == Some(t)
  {
    if t.Split? {
      StrippedAbsent(t.first, id);
      StrippedAbsent(t.second, id);
    }
  }

  /** `remove` is exactly that: it touches nothing but the split the leaf hangs from. */
  lemma {:induction false} RemoveStrips(t: LayoutNode, id: PaneId)
    requires Distinct(t)
    ensures Remove(t, id) == match Stripped(t, id) { case Some(t') => Collapsed(t') case None => WindowEmpty }
  {
    match t
    case Leaf(_) =>
    case Split(_, a, _, b, _) =>
      ContainsIsLeaf(a, id);
      ContainsIsLeaf(b, id);
      RemoveStrips(a, id);
      RemoveStrips(b, id);
      if id !in Leaves(a) { StrippedAbsent(a, id); }
      if id !in Leaves(b) { StrippedAbsent(b, id); }
  }

  /** A split only changes the target leaf: into a half-and-half split of the asked orientation, target first. */
  lemma {:induction false} SplitChangesTarget(t: LayoutNode, target: PaneId, o: Orientation, added: PaneId)
    ensures t == Leaf(target) ==> SplitLeaf(t, target, o, added) == Split(o, Leaf(target), 0.5, Leaf(added), 0.5)
    ensures t.Leaf? && t.id != target ==> SplitLeaf(t, target, o, added) == t
    ensures t.Split? ==>
              SplitLeaf(t, target, o, added) ==
                Split(t.orientation, SplitLeaf(t.first, target, o, added), t.firstRatio, SplitLeaf(t.second, target, o, added), t.secondRatio)
  {
  }
}
