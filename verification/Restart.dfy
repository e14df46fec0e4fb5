/**
 The restart policy and the per-pane supervisor of crates/tymux-core/src/restart.rs.

 `Supervisor` is the supervisor as a value, with one function per transition; the class
 `PaneSupervisor` is the same object with its fields updated in place, and every method is proved
 to compute the corresponding function. Wall-clock times and jitter samples are arguments, as in
 the source; `f64` is modelled by `real`.
 */
module Restart {
  import opened Common

  datatype RestartMode = Never | OnFailure | Always | UnlessStopped

  datatype RestartPolicy = RestartPolicy(
    mode: RestartMode,
    maxRestarts: nat,
    windowMs: nat,
    initialDelayMs: nat,
    multiplier: real,
    maxDelayMs: nat,
    jitter: real,
    healthyAfterMs: nat)
  {
    /** `validate` answers Ok. Reals are always finite, so only the range checks remain. */
    predicate Valid() {
      multiplier >= 1.0 && 0.0 <= jitter <= 1.0 && initialDelayMs <= maxDelayMs
    }

    /** Whether this policy restarts a process that ended with `code`. */
    predicate Wants(code: Option<int>) {
      match mode
      case Never => false
      case OnFailure => code != Some(0)
      case Always => true
      case UnlessStopped => true
    }
  }

  const DEFAULT_POLICY := RestartPolicy(Never, 5, 60_000, 1_000, 2.0, 30_000, 0.2, 10_000)

  /** Multiplication, by name: proofs hide its body and use its laws. */
  function Times(a: real, b: real): real {
    a * b
  }

  function Pow(base: real, n: nat): real {
    if n == 0 then 1.0 else Times(base, Pow(base, n - 1))
  }

  function RealMin(a: real, b: real): real {
    if a < b then a else b
  }

  function Clamp(x: real, lo: real, hi: real): real {
    if x < lo then lo else if x > hi then hi else x
  }

  /** `f64::round` for a value that is not negative: halves go up. */
  function Round(x: real): nat
    requires x >= 0.0
  {
    (x + 0.5).Floor
  }

  /** The unjittered backoff after `failures` consecutive failures. */
  function BaseDelay(p: RestartPolicy, failures: nat): real {
    RealMin(Times(p.initialDelayMs as real, Pow(p.multiplier, Min(failures, 1024))), p.maxDelayMs as real)
  }

  /** A factor in [1 - jitter, 1 + jitter], chosen by a sample that is clamped to [0, 1]. */
  function JitterFactor(jitter: real, unit: real): real {
    1.0 + Times(jitter, 2.0 * Clamp(unit, 0.0, 1.0) - 1.0)
  }

  /** The backoff with jitter, before it is capped and rounded. */
  function JitteredDelay(p: RestartPolicy, failures: nat, unit: real): real {
    Times(BaseDelay(p, failures), JitterFactor(p.jitter, unit))
  }

  function DelayMs(p: RestartPolicy, failures: nat, unit: real): nat {
    if p.initialDelayMs == 0 then 0
    else Round(Clamp(JitteredDelay(p, failures, unit), 0.0, p.maxDelayMs as real))
  }

  datatype LifecycleState = Live | Exited | Backoff | Restarting | Failed | Stopped {
    predicate RestartPending() {
      Backoff? || Restarting?
    }
  }

  datatype ExitRecord = ExitRecord(code: Option<int>, signal: Option<int>, atMs: nat)

  datatype ExitKind =
    | NotRestarted
    | Scheduled(delayMs: nat, atMs: nat)
    | ManualRestart
    | GaveUp
    | StopHonored

  datatype PersistedRestartState = PersistedRestartState(
    policy: RestartPolicy,
    state: LifecycleState,
    restartCount: nat,
    restartLog: seq<nat>,
    consecutiveFailures: nat,
    lastExit: Option<ExitRecord>)

  datatype Supervisor = Supervisor(
    policy: RestartPolicy,
    state: LifecycleState,
    restartCount: nat,
    restartLog: seq<nat>,
    consecutiveFailures: nat,
    startedAt: Option<nat>,
    lastExit: Option<ExitRecord>,
    nextRestartAt: Option<nat>,
    stopRequested: bool,
    restartRequested: bool)
  {
    predicate RestartPending() {
      state.RestartPending()
    }

    function WindowStart(now: nat): nat {
      if policy.windowMs == 0 then 0 else SatSub(now, policy.windowMs)
    }

    predicate Due(now: nat) {
      RestartPending() && nextRestartAt.Some? && nextRestartAt.value <= now
    }

    function Persisted(): PersistedRestartState {
      PersistedRestartState(policy, state, restartCount, restartLog, consecutiveFailures, lastExit)
    }

    function OnStarted(now: nat): Supervisor {
      this.(state := Live, startedAt := Some(now), nextRestartAt := None,
            stopRequested := false, restartRequested := false)
    }

    function RanFor(now: nat): Option<nat> {
      if startedAt.Some? then Some(SatSub(now, startedAt.value)) else None
    }

    function OnExit(now: nat, code: Option<int>, signal: Option<int>, unit: real): (Supervisor, ExitKind) {
      var s := this.(lastExit := Some(ExitRecord(code, signal, now)), startedAt := None, nextRestartAt := None);
      if stopRequested then
        (s.(stopRequested := false, restartRequested := false, state := Stopped), StopHonored)
      else if restartRequested then
        (s.(restartRequested := false, state := Restarting, nextRestartAt := Some(now)), ManualRestart)
      else
        s.AfterFailure(now, code, RanFor(now), unit)
    }

    function OnSpawnFailed(now: nat, unit: real): (Supervisor, ExitKind) {
      this.(startedAt := None, nextRestartAt := None).AfterFailure(now, None, None, unit)
    }

    predicate Healthy(ranFor: Option<nat>) {
      ranFor.Some? && ranFor.value >= policy.healthyAfterMs
    }

    function AfterFailure(now: nat, code: Option<int>, ranFor: Option<nat>, unit: real): (Supervisor, ExitKind) {
      if !policy.Wants(code) then
        (this.(state := Exited), NotRestarted)
      else
        var s := this.(consecutiveFailures := if Healthy(ranFor) then 0 else consecutiveFailures,
                       restartLog := Prune(restartLog, WindowStart(now)));
        if |s.restartLog| >= policy.maxRestarts then
          (s.(state := Failed), GaveUp)
        else
          s.Scheduled(now, unit)
    }

    function Scheduled(now: nat, unit: real): (Supervisor, ExitKind) {
      var delay := DelayMs(policy, consecutiveFailures, unit);
      var at := SatAdd(now, delay, U64_MAX);
      (this.(consecutiveFailures := SatAdd(consecutiveFailures, 1, U32_MAX), state := Backoff,
             nextRestartAt := Some(at)),
       ExitKind.Scheduled(delay, at))
    }

    function BeginRestart(now: nat, automatic: bool): Supervisor {
      this.(restartCount := SatAdd(restartCount, 1, U32_MAX),
            restartLog := if automatic then restartLog + [now] else restartLog,
            nextRestartAt := None,
            state := Restarting)
    }

    function ScheduleManualRestartNow(now: nat): Supervisor {
      this.(stopRequested := false, restartRequested := false, state := Restarting, nextRestartAt := Some(now))
    }

    /** Whether `request_stop` finds a process that must be signaled. */
    predicate StopMustSignal() {
      ((state.Live? || state.Restarting?) && startedAt.Some?) || stopRequested
    }

    function RequestStop(): Supervisor {
      this.(restartRequested := false, nextRestartAt := None,
            stopRequested := StopMustSignal(), state := Stopped)
    }

    function RequestRestart(resetBackoff: bool): Supervisor {
      var s := if resetBackoff then this.(consecutiveFailures := 0, restartLog := []) else this;
      if startedAt.Some? then
        s.(stopRequested := false, restartRequested := true, state := Restarting)
      else
        s.(stopRequested := false)
    }

    function ResetForStart(): Supervisor {
      this.(consecutiveFailures := 0, restartLog := [], stopRequested := false,
            restartRequested := false, nextRestartAt := None)
    }

    function ResetBudget(): Supervisor {
      this.(consecutiveFailures := 0, restartLog := [], state := if state.Failed? then Exited else state)
    }

    function LastCode(): Option<int> {
      if lastExit.Some? then lastExit.value.code else None
    }

    function SetPolicy(p: RestartPolicy): Supervisor {
      if state.Backoff? && !p.Wants(LastCode()) then
        this.(policy := p, state := Exited, nextRestartAt := None)
      else
        this.(policy := p)
    }
  }

  function NewSupervisor(p: RestartPolicy): Supervisor {
    Supervisor(p, Exited, 0, [], 0, None, None, None, false, false)
  }

  /** No process survives a daemon restart: only an operator's Stopped and a Failed are kept. */
  function RestoredState(s: LifecycleState): LifecycleState {
    if s.Stopped? || s.Failed? then s else Exited
  }

  function Restore(p: PersistedRestartState): Supervisor {
    Supervisor(p.policy, RestoredState(p.state), p.restartCount, p.restartLog, p.consecutiveFailures,
               None, p.lastExit, None, false, false)
  }

  /** The log after the entries at or before `start` were dropped from its front. */
  function Prune(log: seq<nat>, start: nat): seq<nat> {
    if log != [] && log[0] <= start then Prune(log[1..], start) else log
  }

  /** Pruning keeps a suffix, drops only expired entries, and stops at the first live one. */
  lemma {:induction false} PruneIsSuffix(log: seq<nat>, start: nat)
    ensures var r := Prune(log, start);
            && |r| <= |log|
            && r == log[|log| - |r|..]
            && (forall i :: 0 <= i < |log| - |r| ==> log[i] <= start)
            && (r != [] ==> r[0] > start)
  {
    if log != [] && log[0] <= start {
      PruneIsSuffix(log[1..], start);
      var r := Prune(log[1..], start);
      forall i | 0 <= i < |log| - |r| ensures log[i] <= start {
        if i > 0 { assert log[i] == log[1..][i - 1]; }
      }
    }
  }

  /** `PaneSupervisor`, with its fields updated in place. */
  class PaneSupervisor {
    var policy: RestartPolicy
    var state: LifecycleState
    var restartCount: nat
    var restartLog: seq<nat>
    var consecutiveFailures: nat
    var startedAt: Option<nat>
    var lastExit: Option<ExitRecord>
    var nextRestartAt: Option<nat>
    var stopRequested: bool
    var restartRequested: bool

    function View(): Supervisor
      reads this
    {
      Supervisor(policy, state, restartCount, restartLog, consecutiveFailures, startedAt, lastExit,
                 nextRestartAt, stopRequested, restartRequested)
    }

    constructor New(p: RestartPolicy)
      ensures View() == NewSupervisor(p)
    {
      policy, state, restartCount, restartLog := p, Exited, 0, [];
      consecutiveFailures, startedAt, lastExit, nextRestartAt := 0, None, None, None;
      stopRequested, restartRequested := false, false;
    }

    constructor FromPersisted(p: PersistedRestartState)
      ensures View() == Restore(p)
    {
      policy, restartCount, restartLog := p.policy, p.restartCount, p.restartLog;
      match p.state {
        case Stopped => state := Stopped;
        case Failed => state := Failed;
        case _ => state := Exited;
      }
      consecutiveFailures, startedAt, lastExit, nextRestartAt := p.consecutiveFailures, None, p.lastExit, None;
      stopRequested, restartRequested := false, false;
    }

    method OnStarted(now: nat)
      modifies this
      ensures View() == old(View()).OnStarted(now)
    {
      state, startedAt, nextRestartAt := Live, Some(now), None;
      stopRequested, restartRequested := false, false;
    }

    method OnExit(now: nat, code: Option<int>, signal: Option<int>, unit: real) returns (kind: ExitKind)
      modifies this
      ensures (View(), kind) == old(View()).OnExit(now, code, signal, unit)
    {
      hide DelayMs;
      lastExit := Some(ExitRecord(code, signal, now));
      var ranFor := if startedAt.Some? then Some(SatSub(now, startedAt.value)) else None;
      startedAt, nextRestartAt := None, None;
      if stopRequested {
        stopRequested, restartRequested, state := false, false, Stopped;
        return StopHonored;
      }
      if restartRequested {
        restartRequested, state, nextRestartAt := false, Restarting, Some(now);
        return ManualRestart;
      }
      kind := AfterFailure(now, code, ranFor, unit);
    }

    method OnSpawnFailed(now: nat, unit: real) returns (kind: ExitKind)
      modifies this
      ensures (View(), kind) == old(View()).OnSpawnFailed(now, unit)
    {
      hide DelayMs;
      startedAt, nextRestartAt := None, None;
      kind := AfterFailure(now, None, None, unit);
    }

    method AfterFailure(now: nat, code: Option<int>, ranFor: Option<nat>, unit: real) returns (kind: ExitKind)
      modifies this
      ensures (View(), kind) == old(View()).AfterFailure(now, code, ranFor, unit)
    {
      hide DelayMs;
      if !policy.Wants(code) {
        state := Exited;
        return NotRestarted;
      }
      if ranFor.Some? && ranFor.value >= policy.healthyAfterMs {
        consecutiveFailures := 0;
      }
      var start := if policy.windowMs == 0 then 0 else SatSub(now, policy.windowMs);
      PruneLog(start);
      if |restartLog| >= policy.maxRestarts {
        state := Failed;
        return GaveUp;
      }
      kind := Schedule(now, unit);
    }

    /** Computes the backoff delay and arms the restart timer. */
    method Schedule(now: nat, unit: real) returns (kind: ExitKind)
      modifies this
      ensures (View(), kind) == old(View()).Scheduled(now, unit)
    {
      hide DelayMs;
      var delayMs := DelayMs(policy, consecutiveFailures, unit);
      consecutiveFailures := SatAdd(consecutiveFailures, 1, U32_MAX);
      var atMs := SatAdd(now, delayMs, U64_MAX);
      state, nextRestartAt := Backoff, Some(atMs);
      return Scheduled(delayMs, atMs);
    }

    method PruneLog(start: nat)
      modifies this`restartLog
      ensures restartLog == Prune(old(restartLog), start)
    {
      while restartLog != [] && restartLog[0] <= start
        invariant Prune(restartLog, start) == Prune(old(restartLog), start)
        decreases |restartLog|
      {
        restartLog := restartLog[1..];
      }
    }

    method BeginRestart(now: nat, automatic: bool)
      modifies this
      ensures View() == old(View()).BeginRestart(now, automatic)
    {
      restartCount := SatAdd(restartCount, 1, U32_MAX);
      if automatic {
        restartLog := restartLog + [now];
      }
      nextRestartAt, state := None, Restarting;
    }

    method ScheduleManualRestartNow(now: nat)
      modifies this
      ensures View() == old(View()).ScheduleManualRestartNow(now)
    {
      stopRequested, restartRequested, state, nextRestartAt := false, false, Restarting, Some(now);
    }

    method RequestStop() returns (processRunning: bool)
      modifies this
      ensures View() == old(View()).RequestStop() && processRunning == old(View()).StopMustSignal()
    {
      restartRequested, nextRestartAt := false, None;
      processRunning := ((state.Live? || state.Restarting?) && startedAt.Some?) || stopRequested;
      if processRunning {
        stopRequested := true;
      }
      state := Stopped;
    }

    method RequestRestart(resetBackoff: bool) returns (processRunning: bool)
      modifies this
      ensures View() == old(View()).RequestRestart(resetBackoff) && processRunning == old(startedAt.Some?)
    {
      if resetBackoff {
        consecutiveFailures, restartLog := 0, [];
      }
      stopRequested := false;
      processRunning := startedAt.Some?;
      if processRunning {
        restartRequested, state := true, Restarting;
      }
    }

    method ResetForStart()
      modifies this
      ensures View() == old(View()).ResetForStart()
    {
      consecutiveFailures, restartLog := 0, [];
      stopRequested, restartRequested, nextRestartAt := false, false, None;
    }

    method ResetBudget()
      modifies this
      ensures View() == old(View()).ResetBudget()
    {
      consecutiveFailures, restartLog := 0, [];
      if state == Failed {
        state := Exited;
      }
    }

    method SetPolicy(p: RestartPolicy)
      modifies this
      ensures View() == old(View()).SetPolicy(p)
    {
      policy := p;
      if state == Backoff {
        var code := if lastExit.Some? then lastExit.value.code else None;
        if !policy.Wants(code) {
          state, nextRestartAt := Exited, None;
        }
      }
    }
  }
}
