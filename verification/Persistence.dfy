/**
 Session records on disk: crates/tymux-core/src/persistence.rs.

 A persisted tree mirrors the live one but carries a whole pane record at every leaf, and its split
 nodes hold a list of children that only validation bounds to two. Loading walks the tree, inserts a
 dead entry per leaf and rebuilds the live tree; saving walks the live tree and looks every leaf up.
 */
module Persistence {
  import opened Common
  import opened Restart
  import opened Layout

  type SessionId = nat
  type WindowId = nat

  datatype Launch = Launch(args: seq<string>, env: map<string, string>)

  const NO_LAUNCH := Launch([], map[])

  datatype PaneRecord = PaneRecord(
    paneId: PaneId,
    command: string,
    cwd: string,
    rows: nat,
    cols: nat,
    exitCode: Option<int>,
    launch: Launch,
    restart: Option<PersistedRestartState>)

  /** What a snapshot reads of a running (or exited but still held) pane; sizes are `u32` there. */
  datatype LivePane = LivePane(command: string, cwd: string, rows: nat, cols: nat, exitCode: Option<int>, launch: Launch)

  datatype PaneEntry = Live(pane: LivePane) | Dead(record: PaneRecord)

  datatype PersistedNode =
    | SavedLeaf(pane: PaneRecord)
    | SavedSplit(orientation: Orientation, children: seq<Child>)

  datatype Child = Child(node: PersistedNode, ratio: real)

  function Abs(x: real): real {
    if x < 0.0 then -x else x
  }

  predicate RatiosSum(a: real, b: real) {
    Abs(a + b - 1.0) <= 0.01
  }

  /** `validate_structure` answers Ok. */
  predicate ValidStructure(node: PersistedNode) {
    match node
    case SavedLeaf(_) => true
    case SavedSplit(_, children) =>
      && |children| == 2
      && RatiosSum(children[0].ratio, children[1].ratio)
      && ValidStructure(children[0].node) && ValidStructure(children[1].node)
  }

  /** The live counterpart of validity: what a tree must satisfy so that its record loads again. */
  predicate Loadable(t: LayoutNode) {
    t.Split? ==> RatiosSum(t.firstRatio, t.secondRatio) && Loadable(t.first) && Loadable(t.second)
  }

  function BlankRecord(id: PaneId): PaneRecord {
    PaneRecord(id, "", "", 0, 0, None, NO_LAUNCH, None)
  }

  function LeafRecord(id: PaneId, panes: map<PaneId, PaneEntry>, restart: map<PaneId, PersistedRestartState>): PaneRecord {
    var record :=
      if id !in panes then BlankRecord(id)
      else
        match panes[id]
        case Live(p) => PaneRecord(id, p.command, p.cwd, p.rows % (U16_MAX + 1), p.cols % (U16_MAX + 1), p.exitCode, p.launch, None)
        case Dead(r) => r;
    record.(restart := if id in restart then Some(restart[id]) else record.restart)
  }

  /** `PersistedLayoutNode::from_live`. */
  function FromLive(t: LayoutNode, panes: map<PaneId, PaneEntry>, restart: map<PaneId, PersistedRestartState>): PersistedNode {
    match t
    case Leaf(id) => SavedLeaf(LeafRecord(id, panes, restart))
    case Split(o, a, ra, b, rb) =>
      SavedSplit(o, [Child(FromLive(a, panes, restart), ra), Child(FromLive(b, panes, restart), rb)])
  }

  datatype Loaded = Loaded(tree: LayoutNode, panes: map<PaneId, PaneEntry>)

  /** `persisted_layout_to_live`, which inserts into `panes` as it walks. */
  function ToLive(node: PersistedNode, panes: map<PaneId, PaneEntry>): Loaded
    requires ValidStructure(node)
  {
    match node
    case SavedLeaf(r) => Loaded(Leaf(r.paneId), panes[r.paneId := Dead(r)])
    case SavedSplit(o, children) =>
      var a := ToLive(children[0].node, panes);
      var b := ToLive(children[1].node, a.panes);
      Loaded(Split(o, a.tree, children[0].ratio, b.tree, children[1].ratio), b.panes)
  }

  function Records(node: PersistedNode): seq<PaneRecord>
    requires ValidStructure(node)
  {
    match node
    case SavedLeaf(r) => [r]
    case SavedSplit(_, children) => Records(children[0].node) + Records(children[1].node)
  }

  function Ids(records: seq<PaneRecord>): (ids: seq<PaneId>)
    ensures |ids| == |records| && forall i :: 0 <= i < |ids| ==> ids[i] == records[i].paneId
  {
    seq(|records|, i requires 0 <= i < |records| => records[i].paneId)
  }

  /** One insertion after another: the last record of an id wins. */
  function InsertAll(panes: map<PaneId, PaneEntry>, records: seq<PaneRecord>): map<PaneId, PaneEntry> {
    if records == [] then panes
    else
      var last := records[|records| - 1];
      InsertAll(panes, records[..|records| - 1])[last.paneId := Dead(last)]
  }

  lemma {:induction false} InsertConcat(panes: map<PaneId, PaneEntry>, a: seq<PaneRecord>, b: seq<PaneRecord>)
    ensures InsertAll(panes, a + b) == InsertAll(InsertAll(panes, a), b)
  {
    if b == [] {
      assert a + b == a;
    } else {
      InsertConcat(panes, a, b[..|b| - 1]);
      assert (a + b)[..|a + b| - 1] == a + b[..|b| - 1];
    }
  }

  /** Loading inserts exactly the tree's records, in leaf order, and the live leaves are theirs. */
  lemma {:induction false} LoadInserts(node: PersistedNode, panes: map<PaneId, PaneEntry>)
    requires ValidStructure(node)
    ensures ToLive(node, panes).panes == InsertAll(panes, Records(node))
    ensures Leaves(ToLive(node, panes).tree) == Ids(Records(node))
  {
    hide InsertAll, Ids;
    match node
    case SavedLeaf(r) =>
      InsertOne(panes, r);
    case SavedSplit(_, children) =>
      var a, b := Records(children[0].node), Records(children[1].node);
      LoadInserts(children[0].node, panes);
      LoadInserts(children[1].node, ToLive(children[0].node, panes).panes);
      InsertConcat(panes, a, b);
      IdsConcat(a, b);
  }

  lemma InsertOne(panes: map<PaneId, PaneEntry>, r: PaneRecord)
    ensures InsertAll(panes, [r]) == panes[r.paneId := Dead(r)] && Ids([r]) == [r.paneId]
  {
    assert InsertAll(panes, []) == panes && [r][..0] == [];
  }

  lemma IdsConcat(a: seq<PaneRecord>, b: seq<PaneRecord>)
    ensures Ids(a + b) == Ids(a) + Ids(b)
  {
  }

  predicate HoldsSome(panes: map<PaneId, PaneEntry>, records: seq<PaneRecord>, id: PaneId) {
    id in panes && panes[id].Dead? && panes[id].record in records && panes[id].record.paneId == id
  }

  /** What was inserted last under an id, or what was there before. */
  lemma {:induction false} InsertedEntries(panes: map<PaneId, PaneEntry>, records: seq<PaneRecord>)
    ensures var m := InsertAll(panes, records);
            && (forall i :: 0 <= i < |records| ==> HoldsSome(m, records, records[i].paneId))
            && (forall id :: id in m <==> id in panes || id in Ids(records))
            && (forall id :: id in panes && id !in Ids(records) ==> m[id] == panes[id])
  {
    if records != [] {
      var prefix, last := records[..|records| - 1], records[|records| - 1];
      InsertedEntries(panes, prefix);
      assert records == prefix + [last] && Ids(records) == Ids(prefix) + [last.paneId];
    }
  }

  // ------------------------------------------------------------------ load, then save

  /** Equal ids carry equal records; distinct ids are the usual case. */
  predicate Consistent(records: seq<PaneRecord>) {
    forall i, j :: 0 <= i < |records| && 0 <= j < |records| && records[i].paneId == records[j].paneId ==> records[i] == records[j]
  }

  predicate DistinctIds(records: seq<PaneRecord>) {
    forall i, j :: 0 <= i < j < |records| ==> records[i].paneId != records[j].paneId
  }

  predicate Holds(panes: map<PaneId, PaneEntry>, records: seq<PaneRecord>) {
    forall i :: 0 <= i < |records| ==> records[i].paneId in panes && panes[records[i].paneId] == Dead(records[i])
  }

  lemma InsertedHolds(panes: map<PaneId, PaneEntry>, records: seq<PaneRecord>)
    ensures Holds(InsertAll(panes, records), records) <==> Consistent(records)
  {
    hide InsertAll;
    InsertedEntries(panes, records);
  }

  /** A record's restart state, replaced by what supervision knows. */
  function Overlaid(r: PaneRecord, restart: map<PaneId, PersistedRestartState>): PaneRecord {
    r.(restart := if r.paneId in restart then Some(restart[r.paneId]) else r.restart)
  }

  function Overlay(node: PersistedNode, restart: map<PaneId, PersistedRestartState>): PersistedNode
    requires ValidStructure(node)
  {
    match node
    case SavedLeaf(r) => SavedLeaf(Overlaid(r, restart))
    case SavedSplit(o, children) =>
      SavedSplit(o, [Child(Overlay(children[0].node, restart), children[0].ratio),
                     Child(Overlay(children[1].node, restart), children[1].ratio)])
  }

  lemma HoldsOne(panes: map<PaneId, PaneEntry>, r: PaneRecord)
    requires Holds(panes, [r])
    ensures r.paneId in panes && panes[r.paneId] == Dead(r)
  {
    assert [r][0] == r;
  }

  lemma HoldsParts(panes: map<PaneId, PaneEntry>, a: seq<PaneRecord>, b: seq<PaneRecord>)
    requires Holds(panes, a + b)
    ensures Holds(panes, a) && Holds(panes, b)
  {
    assert forall i :: 0 <= i < |a| ==> a[i] == (a + b)[i];
    assert forall i :: 0 <= i < |b| ==> b[i] == (a + b)[|a| + i];
  }

  /** Saving a loaded tree: shape, ratios and records come back, with the restart states of the moment. */
  lemma {:induction false} SaveAfterLoad(node: PersistedNode, before: map<PaneId, PaneEntry>, panes: map<PaneId, PaneEntry>,
                                         restart: map<PaneId, PersistedRestartState>)
    requires ValidStructure(node) && Holds(panes, Records(node))
    ensures FromLive(ToLive(node, before).tree, panes, restart) == Overlay(node, restart)
  {
    hide Holds;
    match node
    case SavedLeaf(r) =>
      HoldsOne(panes, r);
    case SavedSplit(_, children) =>
      HoldsParts(panes, Records(children[0].node), Records(children[1].node));
      SaveAfterLoad(children[0].node, before, panes, restart);
      SaveAfterLoad(children[1].node, ToLive(children[0].node, before).panes, panes, restart);
  }

  lemma {:induction false} OverlayNothing(node: PersistedNode)
    requires ValidStructure(node)
    ensures Overlay(node, map[]) == node
  {
    match node
    case SavedLeaf(r) =>
    case SavedSplit(_, children) =>
      OverlayNothing(children[0].node);
      OverlayNothing(children[1].node);
      assert children == [children[0], children[1]];
  }

  lemma {:induction false} SavedRecords(t: LayoutNode, panes: map<PaneId, PaneEntry>, restart: map<PaneId, PersistedRestartState>)
    requires ValidStructure(FromLive(t, panes, restart))
    ensures var rs := Records(FromLive(t, panes, restart));
            && |rs| == |Leaves(t)|
            && forall i :: 0 <= i < |rs| ==> rs[i] == LeafRecord(Leaves(t)[i], panes, restart)
  {
    hide LeafRecord;
    if t.Split? {
      SavedRecords(t.first, panes, restart);
      SavedRecords(t.second, panes, restart);
    }
  }

  /**
   Rebuilding a live tree from a valid record and saving it again gives back the very same record,
   exactly when no id stands for two different records (in particular when ids are distinct).
   */
  lemma RoundTripIffConsistent(node: PersistedNode, before: map<PaneId, PaneEntry>)
    requires ValidStructure(node)
    ensures var loaded := ToLive(node, before);
            FromLive(loaded.tree, loaded.panes, map[]) == node <==> Consistent(Records(node))
    ensures DistinctIds(Records(node)) ==> Consistent(Records(node))
  {
    hide ToLive, FromLive, InsertAll, LeafRecord;
    var loaded, rs := ToLive(node, before), Records(node);
    LoadInserts(node, before);
    InsertedHolds(before, rs);
    if Consistent(rs) {
      SaveAfterLoad(node, before, loaded.panes, map[]);
      OverlayNothing(node);
    }
    if FromLive(loaded.tree, loaded.panes, map[]) == node {
      SavedRecords(loaded.tree, loaded.panes, map[]);
      InsertedEntries(before, rs);
      forall i | 0 <= i < |rs| ensures rs[i].paneId in loaded.panes && loaded.panes[rs[i].paneId] == Dead(rs[i]) {
        assert rs[i] == LeafRecord(rs[i].paneId, loaded.panes, map[]);
        DeadLeafRecord(rs[i].paneId, loaded.panes);
      }
    }
  }

  /** One id, two records: a tree that passes validation. */
  const SHARED_ID := SavedSplit(Horizontal, [Child(SavedLeaf(BlankRecord(0)), 0.5),
                                             Child(SavedLeaf(BlankRecord(0).(command := "sh")), 0.5)])

  lemma SharedIdIsValid()
    ensures ValidStructure(SHARED_ID)
    ensures Records(SHARED_ID) == [BlankRecord(0), BlankRecord(0).(command := "sh")]
  {
    assert RatiosSum(0.5, 0.5);
    assert SHARED_ID.children[0].node == SavedLeaf(BlankRecord(0));
    assert SHARED_ID.children[1].node == SavedLeaf(BlankRecord(0).(command := "sh"));
  }

  /** Such a tree does not come back: the second record has overwritten the first. */
  lemma SharedIdDoesNotComeBack()
    ensures ValidStructure(SHARED_ID)
    ensures var loaded := ToLive(SHARED_ID, map[]);
            FromLive(loaded.tree, loaded.panes, map[]) != SHARED_ID
  {
    hide ToLive, FromLive, Records, ValidStructure, SHARED_ID;
    SharedIdIsValid();
    RoundTripIffConsistent(SHARED_ID, map[]);
    var rs := Records(SHARED_ID);
    assert rs[0].paneId == rs[1].paneId && rs[0].command != rs[1].command;
  }

  lemma DeadLeafRecord(id: PaneId, panes: map<PaneId, PaneEntry>)
    requires id in panes && panes[id].Dead?
    ensures LeafRecord(id, panes, map[]) == panes[id].record
  {
  }

  // ------------------------------------------------------------------ save, then load

  /** What is saved loads again exactly when the live ratios pass the check. */
  lemma {:induction false} SavedIsValid(t: LayoutNode, panes: map<PaneId, PaneEntry>, restart: map<PaneId, PersistedRestartState>)
    ensures ValidStructure(FromLive(t, panes, restart)) <==> Loadable(t)
  {
    hide LeafRecord;
    if t.Split? {
      SavedIsValid(t.first, panes, restart);
      SavedIsValid(t.second, panes, restart);
    }
  }

  /** Loading what was saved rebuilds the very tree: orientation, ratios, order and pane ids. */
  lemma {:induction false} LoadAfterSave(t: LayoutNode, panes: map<PaneId, PaneEntry>, restart: map<PaneId, PersistedRestartState>,
                                         into: map<PaneId, PaneEntry>)
    requires Loadable(t) && KeyedById(panes)
    ensures ValidStructure(FromLive(t, panes, restart)) && ToLive(FromLive(t, panes, restart), into).tree == t
  {
    SavedIsValid(t, panes, restart);
    if t.Split? {
      LoadAfterSave(t.first, panes, restart, into);
      LoadAfterSave(t.second, panes, restart, ToLive(FromLive(t.first, panes, restart), into).panes);
    }
  }

  /** Dead entries are stored under the id their record names. */
  predicate KeyedById(panes: map<PaneId, PaneEntry>) {
    forall id :: id in panes && panes[id].Dead? ==> panes[id].record.paneId == id
  }

  // ------------------------------------------------------------------ trees built in this daemon

  /** Splits only ever write one half, so what the engine builds always passes validation. */
  lemma {:induction false} SplitStaysLoadable(t: LayoutNode, target: PaneId, o: Orientation, added: PaneId)
    requires Loadable(t)
    ensures Loadable(SplitLeaf(t, target, o, added))
  {
    if t.Split? {
      SplitStaysLoadable(t.first, target, o, added);
      SplitStaysLoadable(t.second, target, o, added);
    } else {
      assert RatiosSum(0.5, 0.5);
    }
  }

  lemma {:induction false} CloseStaysLoadable(t: LayoutNode, id: PaneId)
    requires Loadable(t)
    ensures Remove(t, id).Collapsed? ==> Loadable(Remove(t, id).tree)
  {
    if t.Split? {
      CloseStaysLoadable(t.first, id);
      CloseStaysLoadable(t.second, id);
    }
  }
}
