/**
 Saving against deleting: the persist lock of crates/tymux-core/src/engine.rs.

 Any number of threads change sessions and persist them, while others end sessions and delete their
 records. A step is one critical section: a change or a removal under the `sessions` lock; taking the
 persist lock; the snapshot taken inside it; the save, which may fail; the delete; the release.
 `memory` maps a session to the record a snapshot of it would be right now. Saving and deleting one
 record are single updates of the map `disk`.

 The daemon starts from whatever is on disk: it loads every file that can be read and passes validation,
 skips the others, and saves nothing. What is then in memory is not the record that was loaded but its
 normal form (`EngineRestart.LoadedSnapshots`), so right after a start disk and memory may differ.
 */
module PersistOrder {
  import opened Common
  import opened Persistence
  import opened Engine
  import opened EngineRestart

  type Thread = nat

  datatype Pc =
    | Idle
    | Changed(sid: SessionId)
    | SaveLocked(sid: SessionId)
    | Snapped(sid: SessionId, record: Option<SessionRecord>)
    | SaveDone(sid: SessionId)
    | Removed(sid: SessionId)
    | DeleteLocked(sid: SessionId)
    | DeleteDone(sid: SessionId)

  /** A session's file: a record, or bytes that are none. */
  datatype File = Good(record: SessionRecord) | Unreadable

  /**
   `loaded` is what the daemon loaded at its start and `skipped` what it found on disk besides; neither
   changes. `known` holds every id ever drawn, `ended` the sessions whose kill (or last close) has
   returned, and `attempts` says of each session saved since the start whether its latest save succeeded.
   */
  datatype State = State(
    memory: map<SessionId, SessionRecord>,
    disk: map<SessionId, File>,
    lock: Option<Thread>,
    pcs: map<Thread, Pc>,
    loaded: map<SessionId, SessionRecord>,
    skipped: map<SessionId, File>,
    known: set<SessionId>,
    ended: set<SessionId>,
    attempts: map<SessionId, bool>)
  {
    function At(t: Thread): Pc {
      if t in pcs then pcs[t] else Idle
    }

    function Go(t: Thread, pc: Pc): State {
      this.(pcs := pcs[t := pc])
    }
  }

  datatype Step =
    | Create(t: Thread, sid: SessionId, record: SessionRecord)
    | Change(t: Thread, sid: SessionId, record: SessionRecord)
    | Persist(t: Thread, sid: SessionId)
    | LockToSave(t: Thread)
    | TakeSnapshot(t: Thread)
    | Save(t: Thread, ok: bool)
    | Unlock(t: Thread)
    | Remove(t: Thread, sid: SessionId)
    | LockToDelete(t: Thread)
    | Delete(t: Thread)
    | UnlockDeleted(t: Thread)

  predicate Loads(f: File) {
    f.Good? && ValidRecord(f.record)
  }

  /** A daemon that has just loaded what is on disk, whatever that is. */
  predicate Init(s: State) {
    && s.loaded == (map sid | sid in s.disk && Loads(s.disk[sid]) :: s.disk[sid].record)
    && s.skipped == (map sid | sid in s.disk && !Loads(s.disk[sid]) :: s.disk[sid])
    && s.memory.Keys == s.loaded.Keys
    && (forall sid :: sid in s.loaded ==> ValidRecord(s.loaded[sid]) && s.memory[sid] == Normalized(s.loaded[sid]))
    && s.lock.None? && s.pcs == map[]
    && s.disk.Keys <= s.known && s.ended == {} && s.attempts == map[]
  }

  predicate Enabled(s: State, step: Step) {
    match step
    case Create(t, sid, _) => s.At(t).Idle? && sid !in s.known
    case Change(t, sid, _) => s.At(t).Idle? && sid in s.memory
    case Persist(t, sid) => s.At(t).Idle? && sid in s.known
    case LockToSave(t) => s.At(t).Changed? && s.lock.None?
    case TakeSnapshot(t) => s.At(t).SaveLocked?
    case Save(t, _) => s.At(t).Snapped?
    case Unlock(t) => s.At(t).SaveDone?
    case Remove(t, sid) => s.At(t).Idle? && sid in s.memory
    case LockToDelete(t) => s.At(t).Removed? && s.lock.None?
    case Delete(t) => s.At(t).DeleteLocked?
    case UnlockDeleted(t) => s.At(t).DeleteDone?
  }

  function Saved(s: State, sid: SessionId, record: Option<SessionRecord>, ok: bool): State {
    if record.None? then s
    else s.(disk := if ok then s.disk[sid := Good(record.value)] else s.disk, attempts := s.attempts[sid := ok])
  }

  function Next(s: State, step: Step): State
    requires Enabled(s, step)
  {
    match step
    case Create(t, sid, record) => s.(memory := s.memory[sid := record], known := s.known + {sid}).Go(t, Changed(sid))
    case Change(t, sid, record) => s.(memory := s.memory[sid := record]).Go(t, Changed(sid))
    case Persist(t, sid) => s.Go(t, Changed(sid))
    case LockToSave(t) => s.(lock := Some(t)).Go(t, SaveLocked(s.At(t).sid))
    case TakeSnapshot(t) =>
      var sid := s.At(t).sid;
      s.Go(t, Snapped(sid, if sid in s.memory then Some(s.memory[sid]) else None))
    case Save(t, ok) => Saved(s, s.At(t).sid, s.At(t).record, ok).Go(t, SaveDone(s.At(t).sid))
    case Unlock(t) => s.(lock := None).Go(t, Idle)
    case Remove(t, sid) => s.(memory := s.memory - {sid}).Go(t, Removed(sid))
    case LockToDelete(t) => s.(lock := Some(t)).Go(t, DeleteLocked(s.At(t).sid))
    case Delete(t) => s.(disk := s.disk - {s.At(t).sid}).Go(t, DeleteDone(s.At(t).sid))
    case UnlockDeleted(t) => s.(lock := None, ended := s.ended + {s.At(t).sid}).Go(t, Idle)
  }

  // ------------------------------------------------------------------ invariant

  predicate Holds(pc: Pc) {
    pc.SaveLocked? || pc.Snapped? || pc.SaveDone? || pc.DeleteLocked? || pc.DeleteDone?
  }

  /** The thread still has to take a snapshot of `sid`. */
  predicate Owes(pc: Pc, sid: SessionId) {
    (pc.Changed? || pc.SaveLocked?) && pc.sid == sid
  }

  ghost predicate SomeoneOwes(s: State, sid: SessionId) {
    exists t :: Owes(s.At(t), sid)
  }

  /** Exactly the threads inside a locked section hold the lock. */
  ghost predicate LockOk(s: State) {
    forall t: Thread :: Holds(s.At(t)) <==> s.lock == Some(t)
  }

  ghost predicate IdsKnown(s: State) {
    && s.memory.Keys <= s.known && s.disk.Keys <= s.known && s.ended <= s.known
    && (forall t :: !s.At(t).Idle? ==> s.At(t).sid in s.known)
  }

  /** A session being removed, or gone, is in no memory; once deleted it is on no disk and in no snapshot. */
  predicate GonePc(s: State, pc: Pc) {
    && ((pc.Removed? || pc.DeleteLocked? || pc.DeleteDone?) ==> pc.sid !in s.memory)
    && (pc.DeleteDone? ==> pc.sid !in s.disk)
    && (pc.Snapped? ==> pc.sid !in s.ended || pc.record.None?)
    && (pc.Snapped? && pc.record.None? ==> pc.sid !in s.memory)
  }

  ghost predicate GoneOk(s: State) {
    && (forall t :: GonePc(s, s.At(t)))
    && (forall sid :: sid in s.ended ==> sid !in s.memory && sid !in s.disk)
  }

  predicate OnDisk(s: State, sid: SessionId) {
    sid in s.disk && sid in s.memory && s.disk[sid] == Good(s.memory[sid])
  }

  /** A snapshot of the present value, about to be written. */
  ghost predicate BeingSaved(s: State, sid: SessionId) {
    sid in s.memory && exists t :: s.At(t) == Snapped(sid, Some(s.memory[sid]))
  }

  predicate Failed(s: State, sid: SessionId) {
    sid in s.attempts && !s.attempts[sid]
  }

  /** Loaded, and neither changed nor saved since. */
  predicate Untouched(s: State, sid: SessionId) {
    && sid !in s.attempts && sid in s.loaded && ValidRecord(s.loaded[sid])
    && sid in s.memory && s.memory[sid] == Normalized(s.loaded[sid])
    && sid in s.disk && s.disk[sid] == Good(s.loaded[sid])
  }

  /** The latest save wrote the present value. */
  predicate Current(s: State, sid: SessionId) {
    sid in s.attempts && s.attempts[sid] && OnDisk(s, sid)
  }

  /** Whatever is in memory was saved, or its latest save failed, or it is as loaded, or it is on its way. */
  ghost predicate FreshOk(s: State) {
    forall sid :: sid in s.memory ==>
      Failed(s, sid) || Current(s, sid) || Untouched(s, sid) || SomeoneOwes(s, sid) || BeingSaved(s, sid)
  }

  /** A snapshot that is no longer the present value has been overtaken by a change that is still to be saved. */
  predicate SnapCurrent(s: State, pc: Pc) {
    pc.Snapped? && pc.record.Some? && pc.sid in s.memory ==> pc.record.value == s.memory[pc.sid]
  }

  ghost predicate SnapOk(s: State) {
    forall t :: s.At(t).Snapped? ==> SnapCurrent(s, s.At(t)) || SomeoneOwes(s, s.At(t).sid)
  }

  ghost predicate Removing(s: State, sid: SessionId) {
    exists t :: (s.At(t).Removed? || s.At(t).DeleteLocked?) && s.At(t).sid == sid
  }

  predicate Writes(pc: Pc, sid: SessionId) {
    pc.Snapped? && pc.record.Some? && pc.sid == sid
  }

  /** A record of a session that is gone, on disk or about to be written, has a delete still to come. */
  ghost predicate LeftoverOk(s: State) {
    && (forall sid :: sid in s.disk ==> sid in s.memory || Removing(s, sid) || sid in s.skipped)
    && (forall t, sid :: Writes(s.At(t), sid) ==> sid in s.memory || Removing(s, sid))
  }

  /** The thread will write or delete the file of `sid`. */
  predicate Touches(pc: Pc, sid: SessionId) {
    Writes(pc, sid) || ((pc.Removed? || pc.DeleteLocked?) && pc.sid == sid)
  }

  /** Files that were not loaded stay as they are. */
  ghost predicate SkippedOk(s: State) {
    && (forall sid :: sid in s.skipped ==>
          sid in s.known && sid !in s.memory && sid in s.disk && s.disk[sid] == s.skipped[sid])
    && (forall t, sid :: Touches(s.At(t), sid) ==> sid !in s.skipped)
  }

  ghost predicate Inv(s: State) {
    LockOk(s) && IdsKnown(s) && GoneOk(s) && FreshOk(s) && SnapOk(s) && LeftoverOk(s) && SkippedOk(s)
  }

  lemma InvInit(s: State)
    requires Init(s)
    ensures Inv(s)
  {
    assert forall t :: s.At(t).Idle?;
  }

  /** Only thread `t` moves. */
  lemma Moves(s: State, step: Step)
    requires Enabled(s, step)
    ensures forall t :: t != step.t ==> Next(s, step).At(t) == s.At(t)
    ensures Next(s, step).At(step.t) == Next(s, step).pcs[step.t]
  {
  }

  lemma LockStep(s: State, step: Step)
    requires LockOk(s) && Enabled(s, step)
    ensures LockOk(Next(s, step))
  {
    Moves(s, step);
    var s' := Next(s, step);
    assert Holds(s.At(step.t)) <==> s.lock == Some(step.t);
    forall t: Thread ensures Holds(s'.At(t)) <==> s'.lock == Some(t) {
      assert Holds(s.At(t)) <==> s.lock == Some(t);
    }
  }

  lemma IdsStep(s: State, step: Step)
    requires IdsKnown(s) && Enabled(s, step)
    ensures IdsKnown(Next(s, step))
  {
    Moves(s, step);
  }

  lemma GoneStep(s: State, step: Step)
    requires LockOk(s) && IdsKnown(s) && GoneOk(s) && Enabled(s, step)
    ensures GoneOk(Next(s, step))
  {
    Moves(s, step);
    var s' := Next(s, step);
    assert GonePc(s, s.At(step.t));
    forall t: Thread ensures GonePc(s', s'.At(t)) {
      assert GonePc(s, s.At(t)) && GonePc(s, s.At(step.t));
      assert Holds(s.At(t)) <==> s.lock == Some(t);
    }
  }

  /** A debt stays until the thread that has it takes its snapshot. */
  lemma DebtStep(s: State, step: Step, sid: SessionId)
    requires Enabled(s, step) && SomeoneOwes(s, sid)
    ensures SomeoneOwes(Next(s, step), sid) || (step.TakeSnapshot? && s.At(step.t).sid == sid)
  {
    Moves(s, step);
    var t :| Owes(s.At(t), sid);
    assert t != step.t ==> Owes(Next(s, step).At(t), sid);
    assert step.LockToSave? ==> Owes(Next(s, step).At(step.t), s.At(step.t).sid);
  }

  lemma SnapStep(s: State, step: Step)
    requires LockOk(s) && SnapOk(s) && Enabled(s, step)
    ensures SnapOk(Next(s, step))
  {
    hide SomeoneOwes;
    Moves(s, step);
    var s' := Next(s, step);
    forall t: Thread | s'.At(t).Snapped? ensures SnapCurrent(s', s'.At(t)) || SomeoneOwes(s', s'.At(t).sid) {
      if t != step.t {
        assert Holds(s.At(t)) && s.lock == Some(t) && s.At(t) == s'.At(t);
        assert !step.TakeSnapshot? && !step.Save? by { assert Holds(s.At(step.t)) <==> s.lock == Some(step.t); }
        if SomeoneOwes(s, s.At(t).sid) {
          DebtStep(s, step, s.At(t).sid);
        } else if step.Create? || step.Change? {
          NewDebt(s', step.t, step.sid);
        }
      }
    }
  }

  lemma NewDebt(s: State, t: Thread, sid: SessionId)
    requires s.At(t) == Changed(sid)
    ensures SomeoneOwes(s, sid)
  {
    assert Owes(s.At(t), sid);
  }

  lemma FreshStep(s: State, step: Step)
    requires LockOk(s) && GoneOk(s) && SnapOk(s) && FreshOk(s) && Enabled(s, step)
    ensures FreshOk(Next(s, step))
  {
    hide SomeoneOwes, LockOk, GoneOk, SnapOk, BeingSaved;
    var s' := Next(s, step);
    forall sid | sid in s'.memory
      ensures Failed(s', sid) || Current(s', sid) || Untouched(s', sid) || SomeoneOwes(s', sid) || BeingSaved(s', sid)
    {
      if (step.Create? || step.Change?) && step.sid == sid {
        NewDebt(s', step.t, sid);
      } else if step.TakeSnapshot? && s.At(step.t).sid == sid {
        NowBeingSaved(s, step.t);
      } else if step.Save? && s.At(step.t).sid == sid {
        SaveStep(s, step.t, step.ok);
      } else if SomeoneOwes(s, sid) {
        DebtStep(s, step, sid);
      } else if BeingSaved(s, sid) {
        StillBeingSaved(s, step, sid);
      } else if step.Delete? {
        assert GonePc(s, s.At(step.t)) by { DeletedIsGone(s, step.t); }
      }
    }
  }

  lemma DeletedIsGone(s: State, t: Thread)
    requires GoneOk(s)
    ensures GonePc(s, s.At(t))
  {
  }

  lemma NowBeingSaved(s: State, t: Thread)
    requires s.At(t).SaveLocked?
    ensures var s' := Next(s, TakeSnapshot(t)); s.At(t).sid in s'.memory ==> BeingSaved(s', s.At(t).sid)
  {
    var s', sid := Next(s, TakeSnapshot(t)), s.At(t).sid;
    if sid in s'.memory {
      assert s'.At(t) == Snapped(sid, Some(s'.memory[sid]));
    }
  }

  lemma StillBeingSaved(s: State, step: Step, sid: SessionId)
    requires Enabled(s, step) && BeingSaved(s, sid) && sid in Next(s, step).memory
    requires !((step.Create? || step.Change?) && step.sid == sid) && !(step.Save? && s.At(step.t).sid == sid)
    ensures BeingSaved(Next(s, step), sid)
  {
    Moves(s, step);
    var t :| s.At(t) == Snapped(sid, Some(s.memory[sid]));
    assert t != step.t;
    assert Next(s, step).At(t) == Snapped(sid, Some(Next(s, step).memory[sid]));
  }

  lemma SaveStep(s: State, t: Thread, ok: bool)
    requires GoneOk(s) && SnapOk(s) && s.At(t).Snapped? && s.At(t).sid in s.memory
    ensures var s', sid := Next(s, Save(t, ok)), s.At(t).sid;
            Failed(s', sid) || Current(s', sid) || SomeoneOwes(s', sid)
  {
    hide SomeoneOwes;
    var sid := s.At(t).sid;
    assert GonePc(s, s.At(t));
    if ok && !SnapCurrent(s, s.At(t)) {
      DebtStep(s, Save(t, ok), sid);
    }
  }

  lemma RemovingStep(s: State, step: Step, sid: SessionId)
    requires Enabled(s, step) && Removing(s, sid)
    ensures Removing(Next(s, step), sid) || (step.Delete? && s.At(step.t).sid == sid)
  {
    Moves(s, step);
    var t :| (s.At(t).Removed? || s.At(t).DeleteLocked?) && s.At(t).sid == sid;
    var s' := Next(s, step);
    assert t != step.t ==> s'.At(t) == s.At(t);
    assert step.LockToDelete? ==> s'.At(step.t) == DeleteLocked(s.At(step.t).sid);
  }

  lemma NowRemoving(s: State, t: Thread, sid: SessionId)
    requires s.At(t) == Removed(sid)
    ensures Removing(s, sid)
  {
  }

  lemma LeftoverStep(s: State, step: Step)
    requires LockOk(s) && LeftoverOk(s) && Enabled(s, step)
    ensures LeftoverOk(Next(s, step))
  {
    hide Removing;
    Moves(s, step);
    var s' := Next(s, step);
    forall sid | sid in s'.disk ensures sid in s'.memory || Removing(s', sid) || sid in s'.skipped {
      assert sid in s.disk || Writes(s.At(step.t), sid);
      if sid !in s.skipped {
        LeftoverCarried(s, step, sid);
      }
    }
    forall t: Thread, sid | Writes(s'.At(t), sid) ensures sid in s'.memory || Removing(s', sid) {
      if t != step.t {
        assert Holds(s.At(t)) && s.lock == Some(t) && Writes(s.At(t), sid);
        assert !step.Delete? by { assert Holds(s.At(step.t)) <==> s.lock == Some(step.t); }
        LeftoverCarried(s, step, sid);
      }
    }
  }

  lemma LeftoverCarried(s: State, step: Step, sid: SessionId)
    requires Enabled(s, step) && (sid in s.memory || Removing(s, sid))
    ensures sid in Next(s, step).memory || Removing(Next(s, step), sid) || (step.Delete? && s.At(step.t).sid == sid)
  {
    hide Removing;
    if Removing(s, sid) {
      RemovingStep(s, step, sid);
    } else if step.Remove? && step.sid == sid {
      NowRemoving(Next(s, step), step.t, sid);
    }
  }

  lemma SkippedStep(s: State, step: Step)
    requires SkippedOk(s) && Enabled(s, step)
    ensures SkippedOk(Next(s, step))
  {
    hide Touches;
    Moves(s, step);
    var s' := Next(s, step);
    forall sid | sid in s'.skipped ensures sid in s'.known && sid !in s'.memory && sid in s'.disk && s'.disk[sid] == s'.skipped[sid] {
      assert !Touches(s.At(step.t), sid);
      SkippedFile(s, step, sid);
    }
    forall t: Thread, sid | Touches(s'.At(t), sid) ensures sid !in s'.skipped {
      if t == step.t {
        TouchesAnew(s, step, sid);
      } else {
        assert Touches(s.At(t), sid);
      }
    }
  }

  lemma SkippedFile(s: State, step: Step, sid: SessionId)
    requires Enabled(s, step) && sid in s.known && sid !in s.memory && !Touches(s.At(step.t), sid)
    ensures var s' := Next(s, step);
            && s'.skipped == s.skipped && sid in s'.known && sid !in s'.memory
            && (sid in s'.disk <==> sid in s.disk) && (sid in s.disk ==> s'.disk[sid] == s.disk[sid])
  {
  }

  /** A thread comes to write or delete a file only of a session that is in memory, or that it was to write or delete anyway. */
  lemma TouchesAnew(s: State, step: Step, sid: SessionId)
    requires Enabled(s, step) && Touches(Next(s, step).At(step.t), sid)
    ensures sid in s.memory || Touches(s.At(step.t), sid)
  {
    Moves(s, step);
  }

  lemma InvStep(s: State, step: Step)
    requires Inv(s) && Enabled(s, step)
    ensures Inv(Next(s, step))
  {
    hide LockOk, IdsKnown, GoneOk, FreshOk, SnapOk, LeftoverOk, SkippedOk, Next, Enabled;
    SkippedStep(s, step);
    LeftoverStep(s, step);
    LockStep(s, step);
    IdsStep(s, step);
    GoneStep(s, step);
    FreshStep(s, step);
    SnapStep(s, step);
  }

  // ------------------------------------------------------------------ runs

  ghost predicate Run(s: State, steps: seq<Step>)
    decreases |steps|, 0
  {
    steps == [] || (Run(s, steps[..|steps| - 1]) && Enabled(After(s, steps[..|steps| - 1]), steps[|steps| - 1]))
  }

  ghost function After(s: State, steps: seq<Step>): State
    requires Run(s, steps)
    decreases |steps|, 1
  {
    if steps == [] then s else Next(After(s, steps[..|steps| - 1]), steps[|steps| - 1])
  }

  lemma {:induction false} InvRun(s: State, steps: seq<Step>)
    requires Inv(s) && Run(s, steps)
    ensures Inv(After(s, steps))
  {
    hide Inv, Next, Enabled;
    if steps != [] {
      InvRun(s, steps[..|steps| - 1]);
      InvStep(After(s, steps[..|steps| - 1]), steps[|steps| - 1]);
    }
  }

  lemma {:induction false} RunPrefix(s: State, steps: seq<Step>, k: nat)
    requires Run(s, steps) && k <= |steps|
    ensures Run(s, steps[..k])
  {
    hide Next, Enabled;
    if k == |steps| {
      assert steps[..k] == steps;
    } else {
      RunPrefix(s, steps[..|steps| - 1], k);
      assert steps[..|steps| - 1][..k] == steps[..k];
    }
  }

  /** The state after the first `k` steps of a run. */
  ghost function AfterFirst(s: State, steps: seq<Step>, k: nat): State
    requires Run(s, steps) && k <= |steps|
  {
    RunPrefix(s, steps, k);
    After(s, steps[..k])
  }

  /** What a step leaves alone. */
  lemma StepKeeps(s: State, step: Step, sid: SessionId)
    requires Enabled(s, step)
    ensures var s' := Next(s, step);
            && s'.loaded == s.loaded && s'.skipped == s.skipped && s.ended <= s'.ended
            && (Failed(s', sid) ==> Failed(s, sid) || (step.Save? && !step.ok))
  {
  }

  lemma {:induction false} EndedStays(s: State, steps: seq<Step>, k: nat, sid: SessionId)
    requires Run(s, steps) && k <= |steps| && Run(s, steps[..k]) && sid in After(s, steps[..k]).ended
    ensures sid in After(s, steps).ended
  {
    hide Enabled, Next;
    if k == |steps| {
      assert steps[..k] == steps;
    } else {
      var prefix := steps[..|steps| - 1];
      assert prefix[..k] == steps[..k];
      EndedStays(s, prefix, k, sid);
      StepKeeps(After(s, prefix), steps[|steps| - 1], sid);
    }
  }

  /**
   No resurrection: in every interleaving, once the call that ended a session has returned, its
   record is not on disk, it never is again, and no thread even holds a snapshot it could write.
   */
  lemma NoResurrection(s: State, steps: seq<Step>, k: nat, sid: SessionId)
    requires Init(s) && Run(s, steps) && k <= |steps| && sid in AfterFirst(s, steps, k).ended
    ensures var now := After(s, steps);
            && sid !in now.disk && sid !in now.memory
            && (forall t :: now.At(t).Snapped? && now.At(t).sid == sid ==> now.At(t).record.None?)
  {
    hide Run, After, Next, Enabled, LockOk, FreshOk, SnapOk, IdsKnown, SkippedOk, LeftoverOk;
    InvInit(s);
    InvRun(s, steps);
    RunPrefix(s, steps, k);
    EndedStays(s, steps, k, sid);
    var now := After(s, steps);
    forall t | now.At(t).Snapped? && now.At(t).sid == sid ensures now.At(t).record.None? {
      assert GonePc(now, now.At(t));
    }
  }

  /** Nothing is under way for `sid`: every call that changed or persisted it has returned. */
  ghost predicate Quiet(s: State, sid: SessionId) {
    forall t :: s.At(t).Idle? || s.At(t).sid != sid
  }

  /** The file last written successfully under `sid` (or found at the start) and not deleted since. */
  ghost function Written(s: State, steps: seq<Step>, sid: SessionId): Option<File>
    requires Run(s, steps)
    decreases |steps|
  {
    if steps == [] then if sid in s.disk then Some(s.disk[sid]) else None
    else
      var prefix, step := steps[..|steps| - 1], steps[|steps| - 1];
      var pc := After(s, prefix).At(step.t);
      assert step.Delete? ==> pc.DeleteLocked?;
      if step.Save? && step.ok && Writes(pc, sid) then Some(Good(pc.record.value))
      else if step.Delete? && pc.sid == sid then None
      else Written(s, prefix, sid)
  }

  /** Only a successful save and a delete touch a file. */
  lemma DiskStep(s: State, step: Step, sid: SessionId)
    requires Enabled(s, step)
    ensures var s', pc := Next(s, step), s.At(step.t);
            if step.Save? && step.ok && Writes(pc, sid) then sid in s'.disk && s'.disk[sid] == Good(pc.record.value)
            else if step.Delete? && pc.sid == sid then sid !in s'.disk
            else (sid in s'.disk <==> sid in s.disk) && (sid in s.disk ==> s'.disk[sid] == s.disk[sid])
  {
  }

  lemma {:induction false} DiskIsHistory(s: State, steps: seq<Step>, sid: SessionId)
    requires Run(s, steps)
    ensures var now := After(s, steps);
            Written(s, steps, sid) == if sid in now.disk then Some(now.disk[sid]) else None
    decreases |steps|
  {
    hide Next, Enabled;
    if steps != [] {
      DiskIsHistory(s, steps[..|steps| - 1], sid);
      DiskStep(After(s, steps[..|steps| - 1]), steps[|steps| - 1], sid);
    }
  }

  lemma {:induction false} LoadedStays(s: State, steps: seq<Step>)
    requires Run(s, steps)
    ensures After(s, steps).loaded == s.loaded && After(s, steps).skipped == s.skipped
  {
    hide Enabled, Next;
    if steps != [] {
      LoadedStays(s, steps[..|steps| - 1]);
      StepKeeps(After(s, steps[..|steps| - 1]), steps[|steps| - 1], 0);
    }
  }

  /**
   When is the disk current? In every interleaving, when nothing is under way for a live session: if
   it was saved since the start and its latest save succeeded, its record on disk is exactly its
   present structure; if its latest save failed, that is so iff what was last written before is its
   present structure; and if it was never saved, iff it was loaded from a settled record.
   */
  lemma DiskIsCurrentIff(s: State, steps: seq<Step>, sid: SessionId)
    requires Init(s) && Run(s, steps) && sid in After(s, steps).memory && Quiet(After(s, steps), sid)
    ensures var now := After(s, steps);
            OnDisk(now, sid) <==>
              if sid in now.attempts then now.attempts[sid] || Written(s, steps, sid) == Some(Good(now.memory[sid]))
              else sid in s.loaded && ValidRecord(s.loaded[sid]) && SettledRecord(s.loaded[sid])
  {
    hide Run, After, Next, Enabled, LockOk, SnapOk, IdsKnown, GoneOk, LeftoverOk, SkippedOk, ValidRecord, SettledRecord, Normalized;
    InvInit(s);
    InvRun(s, steps);
    LoadedStays(s, steps);
    DiskIsHistory(s, steps, sid);
    var now := After(s, steps);
    assert FreshOk(now);
    if sid !in now.attempts {
      assert Untouched(now, sid);
      SecondRoundIsStable(s.loaded[sid]);
    }
  }

  /** The plain start of a daemon: nothing under way, nothing failed, and yet an unsettled record differs from memory. */
  lemma StartOfUnsettled(r: SessionRecord)
    requires ValidRecord(r) && !SettledRecord(r)
    ensures var s := State(map[r.id := Normalized(r)], map[r.id := Good(r)], None, map[], map[r.id := r], map[], {r.id}, {}, map[]);
            Init(s) && r.id in s.memory && Quiet(s, r.id) && !OnDisk(s, r.id)
  {
    hide ValidRecord, SettledRecord, Normalized;
    SecondRoundIsStable(r);
  }

  lemma {:induction false} NoFailures(s: State, steps: seq<Step>, sid: SessionId)
    requires Init(s) && Run(s, steps) && forall i :: 0 <= i < |steps| ==> !(steps[i].Save? && !steps[i].ok)
    ensures !Failed(After(s, steps), sid)
  {
    hide Enabled, Next;
    if steps != [] {
      NoFailures(s, steps[..|steps| - 1], sid);
      StepKeeps(After(s, steps[..|steps| - 1]), steps[|steps| - 1], sid);
    }
  }

  /**
   With every save successful and every call returned, the disk holds a file for exactly the live
   sessions and those it could not load at the start, the latter unchanged; and the record of a live
   session is its present structure iff it was saved since the start or loaded settled.
   */
  lemma DiskAtRest(s: State, steps: seq<Step>)
    requires Init(s) && Run(s, steps) && (forall i :: 0 <= i < |steps| ==> !(steps[i].Save? && !steps[i].ok))
    requires forall t :: After(s, steps).At(t).Idle?
    ensures var now := After(s, steps);
            && now.disk.Keys == now.memory.Keys + s.skipped.Keys
            && (forall sid :: sid in s.skipped ==> sid in now.disk && now.disk[sid] == s.skipped[sid])
            && (forall sid :: sid in now.memory ==>
                  (OnDisk(now, sid) <==>
                     sid in now.attempts || (sid in s.loaded && ValidRecord(s.loaded[sid]) && SettledRecord(s.loaded[sid]))))
  {
    hide Run, After, Next, Enabled, LockOk, SnapOk, IdsKnown, GoneOk, ValidRecord, SettledRecord, Normalized;
    InvInit(s);
    InvRun(s, steps);
    LoadedStays(s, steps);
    var now := After(s, steps);
    forall sid | sid in now.memory
      ensures sid in now.disk
      ensures OnDisk(now, sid) <==>
                sid in now.attempts || (sid in s.loaded && ValidRecord(s.loaded[sid]) && SettledRecord(s.loaded[sid]))
    {
      NoFailures(s, steps, sid);
      DiskIsCurrentIff(s, steps, sid);
    }
    assert forall sid :: sid in now.disk ==> sid in now.memory || sid in s.skipped;
  }
}
