/**
 What the reports of a run add up to: the window size told from the calls alone.
 crates/tymux-core/src/engine.rs, lines 65-72 and 1211-1345.

 `Resize` proves that the window settles on the least of the viewports held. Here the viewports are
 told from the run: each attached client counts with the last size it reported, brought within the
 limits of a pane.
 */
module ResizeLaws {
  import opened Common
  import opened Layout
  import opened Resize

  /** `x`, or the nearer of the two limits. */
  function Within(lo: nat, x: nat, hi: nat): nat {
    Max(lo, Min(x, hi))
  }

  /** Each dimension by itself: kept between 2 and 500 rows and 10 and 1000 columns, raised or cut to the limit outside. */
  lemma ClampedPerDimension(rows: nat, cols: nat)
    ensures var v := ClampViewport(rows, cols);
            && (2 <= rows <= 500 ==> v.rows == rows) && (rows < 2 ==> v.rows == 2) && (rows > 500 ==> v.rows == 500)
            && (10 <= cols <= 1000 ==> v.cols == cols) && (cols < 10 ==> v.cols == 10) && (cols > 1000 ==> v.cols == 1000)
            && v == Size(Within(2, rows, 500), Within(10, cols, 1000))
  {
  }

  predicate SpeaksOf(step: Step, client: ClientId) {
    (step.Report? || step.Withdraw?) && step.client == client
  }

  /** Step `i` is the last word about `client`, and it is a report. */
  ghost predicate LastReport(steps: seq<Step>, i: nat, client: ClientId) {
    && i < |steps| && steps[i].Report? && steps[i].client == client
    && forall j :: i < j < |steps| ==> !SpeaksOf(steps[j], client)
  }

  ghost predicate Attached(steps: seq<Step>, client: ClientId) {
    exists i: nat :: LastReport(steps, i, client)
  }

  /** The viewports held are the last reports, one for each attached client. */
  ghost predicate HoldsLastReports(viewports: map<ClientId, Size>, steps: seq<Step>) {
    && (forall c :: c in viewports <==> Attached(steps, c))
    && forall i: nat, c :: LastReport(steps, i, c) ==>
         c in viewports && viewports[c] == Size(Within(2, steps[i].rows, 500), Within(10, steps[i].cols, 1000))
  }

  /** One step later: the last word about every other client stays the last word. */
  lemma LastReportGrows(steps: seq<Step>, i: nat, client: ClientId)
    requires steps != []
    ensures var n := |steps| - 1;
            LastReport(steps, i, client) <==>
            (i == n && steps[n].Report? && steps[n].client == client)
            || (LastReport(steps[..n], i, client) && !SpeaksOf(steps[n], client))
  {
    var n := |steps| - 1;
    if LastReport(steps[..n], i, client) && !SpeaksOf(steps[n], client) {
      forall j | i < j < |steps| ensures !SpeaksOf(steps[j], client) {
        assert j < n ==> steps[j] == steps[..n][j];
      }
    }
    if LastReport(steps, i, client) && i < n {
      forall j | i < j < n ensures !SpeaksOf(steps[..n][j], client) {
        assert steps[..n][j] == steps[j];
      }
    }
  }

  lemma AttachedGrows(steps: seq<Step>, client: ClientId)
    requires steps != []
    ensures var n := |steps| - 1;
            Attached(steps, client) <==>
            (steps[n].Report? && steps[n].client == client) || (Attached(steps[..n], client) && !SpeaksOf(steps[n], client))
  {
    hide LastReport;
    var n := |steps| - 1;
    if i: nat :| LastReport(steps, i, client) {
      LastReportGrows(steps, i, client);
    }
    if steps[n].Report? && steps[n].client == client {
      LastReportGrows(steps, n, client);
    } else if i: nat :| LastReport(steps[..n], i, client) && !SpeaksOf(steps[n], client) {
      LastReportGrows(steps, i, client);
    }
  }

  /** What a step does to the viewports, said of one client at a time. */
  lemma ViewportStep(w: Window, s: State, step: Step, client: ClientId)
    requires RatiosOk(w.layout) && Enabled(w, s, step)
    ensures var s' := Next(w, s, step);
            && (client in s'.viewports <==> (step.Report? && step.client == client) || (client in s.viewports && !SpeaksOf(step, client)))
            && (step.Report? && step.client == client ==>
                  s'.viewports[client] == Size(Within(2, step.rows, 500), Within(10, step.cols, 1000)))
            && (client in s.viewports && !SpeaksOf(step, client) ==> s'.viewports[client] == s.viewports[client])
  {
    hide Geometry, RatiosOk, Effective;
  }

  lemma {:induction false} LastReportsHeld(w: Window, s: State, steps: seq<Step>)
    requires RatiosOk(w.layout) && Init(w, s) && Run(w, s, steps)
    ensures HoldsLastReports(After(w, s, steps).viewports, steps)
  {
    hide Geometry, RatiosOk, Effective, Enabled, Next, LastReport, Attached, Within, SpeaksOf;
    if steps == [] {
      NobodyReported();
    } else {
      var n := |steps| - 1;
      LastReportsHeld(w, s, steps[..n]);
      var before, now := After(w, s, steps[..n]), After(w, s, steps);
      forall c ensures c in now.viewports <==> Attached(steps, c) {
        ViewportStep(w, before, steps[n], c);
        AttachedGrows(steps, c);
      }
      forall i: nat, c | LastReport(steps, i, c) ensures HeldAs(now.viewports, steps, i, c) {
        HeldOneMore(w, before, now, steps, i, c);
      }
    }
  }

  /** The viewport held for `client` is what step `i` reported. */
  ghost predicate HeldAs(viewports: map<ClientId, Size>, steps: seq<Step>, i: nat, client: ClientId) {
    && i < |steps| && steps[i].Report? && client in viewports
    && viewports[client] == Size(Within(2, steps[i].rows, 500), Within(10, steps[i].cols, 1000))
  }

  lemma HeldOneMore(w: Window, before: State, now: State, steps: seq<Step>, i: nat, client: ClientId)
    requires RatiosOk(w.layout) && steps != [] && LastReport(steps, i, client)
    requires Enabled(w, before, steps[|steps| - 1]) && now == Next(w, before, steps[|steps| - 1])
    requires HoldsLastReports(before.viewports, steps[..|steps| - 1])
    ensures HeldAs(now.viewports, steps, i, client)
  {
    hide Geometry, RatiosOk, Effective, Enabled, Next, LastReport, Attached, Within, SpeaksOf;
    var n := |steps| - 1;
    InRange(steps, i, client);
    ViewportStep(w, before, steps[n], client);
    LastReportGrows(steps, i, client);
    if i != n {
      assert LastReport(steps[..n], i, client) && !SpeaksOf(steps[n], client);
      assert steps[..n][i] == steps[i];
    }
  }

  lemma NobodyReported()
    ensures forall c :: !Attached([], c)
    ensures forall i: nat, c :: !LastReport([], i, c)
  {
  }

  lemma InRange(steps: seq<Step>, i: nat, client: ClientId)
    requires LastReport(steps, i, client)
    ensures i < |steps| && steps[i].Report? && steps[i].client == client
  {
  }

  /** No attached client sees fewer rows or columns than the window has, and in each dimension one sees exactly as many. */
  ghost predicate LeastOfReports(steps: seq<Step>, size: Size) {
    && (forall i: nat, c :: LastReport(steps, i, c) ==>
          size.rows <= Within(2, steps[i].rows, 500) && size.cols <= Within(10, steps[i].cols, 1000))
    && (exists i: nat, c :: LastReport(steps, i, c) && size.rows == Within(2, steps[i].rows, 500))
    && (exists i: nat, c :: LastReport(steps, i, c) && size.cols == Within(10, steps[i].cols, 1000))
  }

  lemma EffectiveIsLeast(viewports: map<ClientId, Size>, steps: seq<Step>, size: Size)
    requires HoldsLastReports(viewports, steps) && Effective(viewports, size)
    ensures (forall c :: !Attached(steps, c)) ==> size == Size(24, 80)
    ensures (exists c :: Attached(steps, c)) ==> LeastOfReports(steps, size)
  {
    hide LastReport, Within;
    if c :| Attached(steps, c) {
      assert c in viewports;
      var r :| r in viewports && viewports[r].rows == size.rows;
      var i: nat :| LastReport(steps, i, r);
      InRange(steps, i, r);
      assert size.rows == Within(2, steps[i].rows, 500);
      var k :| k in viewports && viewports[k].cols == size.cols;
      var j: nat :| LastReport(steps, j, k);
      InRange(steps, j, k);
      assert size.cols == Within(10, steps[j].cols, 1000);
    }
  }

  /**
   Resize convergence told from the calls: for every interleaving of reports and withdrawals, once all
   calls have returned, the window has the dimension-wise minimum of the attached clients' last reports,
   each brought within 2..500 rows and 10..1000 columns, and 24 by 80 when nobody is attached; every
   live pane has the size of its own rectangle in that window.
   */
  lemma WindowFitsLastReports(w: Window, s: State, steps: seq<Step>)
    requires w.Valid() && Init(w, s) && Run(w, s, steps) && steps != []
    requires forall t :: After(w, s, steps).At(t).Idle?
    ensures var now := After(w, s, steps);
            && ((exists c :: Attached(steps, c)) ==> LeastOfReports(steps, now.size))
            && ((forall c :: !Attached(steps, c)) ==> now.size == Size(24, 80))
            && forall id :: id in w.live && id in Leaves(w.layout) ==>
                 && id in now.panes
                 && now.panes[id] == Size(OwnRect(w, now.size, id).rows, OwnRect(w, now.size, id).cols)
  {
    hide Run, After, Effective, RatiosOk, Distinct, Geometry, Leaves, OwnRect, LeastOfReports, Attached, HoldsLastReports, Next;
    ResizeConverges(w, s, steps);
    ValidRatios(w);
    LastReportsHeld(w, s, steps);
    EffectiveIsLeast(After(w, s, steps).viewports, steps, After(w, s, steps).size);
  }

  lemma ValidRatios(w: Window)
    requires w.Valid()
    ensures RatiosOk(w.layout)
  {
  }

  lemma OneLastReport(steps: seq<Step>, i: nat, j: nat, client: ClientId)
    requires LastReport(steps, i, client) && LastReport(steps, j, client)
    ensures i == j
  {
    assert SpeaksOf(steps[i], client) && SpeaksOf(steps[j], client);
  }

  /** A single client whose terminal is within the limits gets a window of exactly its own size. */
  lemma LoneClientGetsItsSize(w: Window, s: State, steps: seq<Step>, i: nat, client: ClientId)
    requires w.Valid() && Init(w, s) && Run(w, s, steps) && LastReport(steps, i, client)
    requires forall t :: After(w, s, steps).At(t).Idle?
    requires forall c :: Attached(steps, c) ==> c == client
    requires 2 <= steps[i].rows <= 500 && 10 <= steps[i].cols <= 1000
    ensures After(w, s, steps).size == Size(steps[i].rows, steps[i].cols)
  {
    hide Run, After, RatiosOk, Distinct, Geometry, Leaves, OwnRect, Next;
    WindowFitsLastReports(w, s, steps);
    forall j: nat, c | LastReport(steps, j, c) ensures j == i && c == client {
      assert Attached(steps, c);
      OneLastReport(steps, i, j, client);
    }
    assert Attached(steps, client);
  }

  // ------------------------------------------------------------------ siblings

  /** The run has brought a recompute to its end. */
  ghost predicate Finished(steps: seq<Step>) {
    exists i :: 0 <= i < |steps| && steps[i].Unlock?
  }

  lemma {:induction false} FinishedIsApplied(w: Window, s: State, steps: seq<Step>)
    requires RatiosOk(w.layout) && Run(w, s, steps) && Finished(steps)
    ensures After(w, s, steps).applied
  {
    hide Geometry, RatiosOk, Effective;
    var n := |steps| - 1;
    if !steps[n].Unlock? {
      var i :| 0 <= i < |steps| && steps[i].Unlock?;
      assert steps[..n][i].Unlock?;
      FinishedIsApplied(w, s, steps[..n]);
    }
  }

  /** From the end of the first recompute on, whenever nobody holds the resize lock, every live pane has its own rectangle. */
  lemma SiblingsAgreeOnceFinished(w: Window, s: State, steps: seq<Step>)
    requires w.Valid() && Init(w, s) && Run(w, s, steps) && Finished(steps) && After(w, s, steps).lock.None?
    ensures var now := After(w, s, steps);
            forall id :: id in w.live && id in Leaves(w.layout) ==>
              && id in now.panes
              && now.panes[id] == Size(OwnRect(w, now.size, id).rows, OwnRect(w, now.size, id).cols)
  {
    hide Run, After, Effective, RatiosOk, Distinct, Geometry, Leaves, OwnRect, Next, Finished;
    ValidRatios(w);
    FinishedIsApplied(w, s, steps);
    SiblingsAgree(w, s, steps);
  }
}
