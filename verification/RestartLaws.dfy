/**
 What a supervisor decides, said from outside: when it gives up, how long it waits, what a reset and a
 policy mean. crates/tymux-core/src/restart.rs, lines 94-179 and 389-554. Nothing here mentions how
 the log is kept or how a delay is computed.
 */
module RestartLaws {
  import opened Common
  import opened Restart
  import opened RestartRuns

  // ------------------------------------------------------------------ giving up, exactly

  predicate Nondecreasing(h: seq<nat>) {
    forall i, j :: 0 <= i < j < |h| ==> h[i] <= h[j]
  }

  lemma {:induction false} CountAll(h: seq<nat>, lo: int)
    requires forall i :: 0 <= i < |h| ==> h[i] > lo
    ensures CountAfter(h, lo) == |h|
  {
    if h != [] {
      CountAll(h[..|h| - 1], lo);
    }
  }

  /** Pruning a log in order keeps exactly the entries after the start. */
  lemma PruneCounts(log: seq<nat>, start: nat)
    requires Nondecreasing(log)
    ensures |Prune(log, start)| == CountAfter(log, start)
  {
    hide Prune, CountAfter;
    PruneIsSuffix(log, start);
    var r := Prune(log, start);
    var dropped := log[..|log| - |r|];
    assert log == dropped + r;
    CountAfterConcat(dropped, r, start);
    CountAfterBounds(dropped, start);
    forall i | 0 <= i < |r| ensures r[i] > start {
      assert r[0] == log[|log| - |r|] && r[i] == log[|log| - |r| + i];
    }
    CountAll(r, start);
  }

  /** The clock never runs backwards, so neither do the times of the automatic restarts. */
  lemma {:induction false} AutoTimesInOrder(origin: Supervisor, calls: seq<Call>)
    requires Legal(origin, calls)
    ensures Nondecreasing(AutoTimes(calls))
    ensures forall i :: 0 <= i < |AutoTimes(calls)| ==> AutoTimes(calls)[i] <= LastTime(calls)
  {
    hide Apply, Replay;
    if calls != [] {
      AutoTimesInOrder(origin, calls[..|calls| - 1]);
    }
  }

  /** The log of a supervisor that started with an empty one is the end of the history; the rest has expired. */
  lemma LogIsTail(s: Supervisor, limit: nat, auto: seq<nat>, last: nat, n: nat)
    requires BudgetInv(s, s.policy, limit, 0, auto, last, n)
    ensures n <= |auto| && s.restartLog == auto[|auto| - n..] && (s.policy.windowMs == 0 ==> n == |auto|)
    ensures forall i :: 0 <= i < |auto| ==> auto[i] > 0
    ensures forall i :: 0 <= i < |auto| - n ==> auto[i] + s.policy.windowMs <= last
  {
    var log := s.restartLog;
    assert log[|log| - n..] == log;
  }

  lemma LogCounts(s: Supervisor, limit: nat, auto: seq<nat>, last: nat, n: nat, now: nat)
    requires BudgetInv(s, s.policy, limit, 0, auto, last, n) && last <= now && Nondecreasing(auto)
    ensures var w := s.policy.windowMs;
            |Prune(s.restartLog, s.WindowStart(now))| == if w == 0 then |auto| else CountAfter(auto, now - w)
  {
    hide Prune, CountAfter, BudgetInv, Nondecreasing;
    LogIsTail(s, limit, auto, last, n);
    LogInOrder(auto, s.restartLog, n);
    PruneCounts(s.restartLog, s.WindowStart(now));
    if s.policy.windowMs == 0 {
      AllPositive(auto);
      assert s.restartLog == auto;
    } else {
      TailCounts(auto, n, s.policy.windowMs, last, now);
    }
  }

  lemma AllPositive(auto: seq<nat>)
    requires forall i :: 0 <= i < |auto| ==> auto[i] > 0
    ensures CountAfter(auto, 0) == |auto|
  {
    CountAll(auto, 0);
  }

  lemma TailCounts(auto: seq<nat>, n: nat, w: nat, last: nat, now: nat)
    requires n <= |auto| && last <= now && w > 0
    requires forall i :: 0 <= i < |auto| ==> auto[i] > 0
    requires forall i :: 0 <= i < |auto| - n ==> auto[i] + w <= last
    ensures CountAfter(auto[|auto| - n..], SatSub(now, w)) == CountAfter(auto, now - w)
  {
    hide CountAfter;
    var dropped, log := auto[..|auto| - n], auto[|auto| - n..];
    assert auto == dropped + log;
    CountAfterConcat(dropped, log, now - w);
    assert forall i :: 0 <= i < |dropped| ==> dropped[i] == auto[i];
    CountAfterBounds(dropped, now - w);
    if now < w {
      assert forall i :: 0 <= i < |log| ==> log[i] == auto[|auto| - n + i];
      CountAll(log, now - w);
      CountAll(log, 0);
    }
  }

  lemma LogInOrder(auto: seq<nat>, log: seq<nat>, n: nat)
    requires Nondecreasing(auto) && n <= |auto| && log == auto[|auto| - n..]
    ensures Nondecreasing(log)
  {
    forall i, j | 0 <= i < j < |log| ensures log[i] <= log[j] {
      assert log[i] == auto[|auto| - n + i] && log[j] == auto[|auto| - n + j];
    }
  }

  /** Whether the budget is used up at `now`, read off all automatic restarts ever. */
  predicate Exhausted(policy: RestartPolicy, auto: seq<nat>, now: nat) {
    policy.maxRestarts <= if policy.windowMs == 0 then |auto| else CountAfter(auto, now - policy.windowMs)
  }

  /** A failure that the policy wants restarted: given up, or scheduled. */
  lemma FailureVerdict(s: Supervisor, now: nat, code: Option<int>, ranFor: Option<nat>, unit: real)
    requires s.policy.Wants(code)
    ensures var (s', kind) := s.AfterFailure(now, code, ranFor, unit);
            if |Prune(s.restartLog, s.WindowStart(now))| >= s.policy.maxRestarts then kind.GaveUp? && s'.state.Failed?
            else kind.Scheduled? && s'.state.Backoff? && s'.nextRestartAt == Some(kind.atMs)
                 && kind.delayMs == DelayMs(s.policy, if s.Healthy(ranFor) then 0 else s.consecutiveFailures, unit)
                 && kind.atMs == SatAdd(now, kind.delayMs, U64_MAX)
  {
    hide DelayMs, Prune;
  }

  lemma LogOfNew(policy: RestartPolicy, calls: seq<Call>, now: nat)
    requires Legal(NewSupervisor(policy), calls) && FixedBudget(calls) && LastTime(calls) <= now
    ensures var s := Replay(NewSupervisor(policy), calls);
            s.policy == policy &&
            (|Prune(s.restartLog, s.WindowStart(now))| >= policy.maxRestarts <==> Exhausted(policy, AutoTimes(calls), now))
  {
    hide Prune, CountAfter, Apply, Replay, Legal, AutoTimes, LastTime;
    var origin := NewSupervisor(policy);
    var n := BudgetInvHolds(origin, calls);
    AutoTimesInOrder(origin, calls);
    hide LogTail;
    LogCounts(Replay(origin, calls), Limit(origin), AutoTimes(calls), LastTime(calls), n, now);
  }

  /**
   Giving up, exactly: in any legal run of a new pane under a fixed policy, an exit that the policy wants
   restarted, with no stop or restart requested, ends in Failed iff `maxRestarts` automatic restarts of
   the whole history lie in the window that ends now (without a window: in all); otherwise a restart is
   scheduled. A budget that was used comes back as its restarts leave the window.
   */
  lemma GivesUpIff(policy: RestartPolicy, calls: seq<Call>, now: nat, code: Option<int>, signal: Option<int>, unit: real)
    requires Legal(NewSupervisor(policy), calls) && FixedBudget(calls) && LastTime(calls) <= now
    requires var s := Replay(NewSupervisor(policy), calls); policy.Wants(code) && !s.stopRequested && !s.restartRequested
    ensures var (s', kind) := Replay(NewSupervisor(policy), calls).OnExit(now, code, signal, unit);
            if Exhausted(policy, AutoTimes(calls), now) then kind.GaveUp? && s'.state.Failed? else kind.Scheduled? && s'.state.Backoff?
  {
    hide Prune, DelayMs, CountAfter, Apply, Replay, Legal, AutoTimes, LastTime, Exhausted;
    LogOfNew(policy, calls, now);
    var s := Replay(NewSupervisor(policy), calls);
    var t := s.(lastExit := Some(ExitRecord(code, signal, now)), startedAt := None, nextRestartAt := None);
    FailureVerdict(t, now, code, s.RanFor(now), unit);
  }

  /** The same for a spawn that failed. */
  lemma SpawnGivesUpIff(policy: RestartPolicy, calls: seq<Call>, now: nat, unit: real)
    requires Legal(NewSupervisor(policy), calls) && FixedBudget(calls) && LastTime(calls) <= now && !policy.mode.Never?
    ensures var (s', kind) := Replay(NewSupervisor(policy), calls).OnSpawnFailed(now, unit);
            if Exhausted(policy, AutoTimes(calls), now) then kind.GaveUp? && s'.state.Failed? else kind.Scheduled? && s'.state.Backoff?
  {
    hide Prune, DelayMs, CountAfter, Apply, Replay, Legal, AutoTimes, LastTime, Exhausted;
    LogOfNew(policy, calls, now);
    FailureVerdict(Replay(NewSupervisor(policy), calls).(startedAt := None, nextRestartAt := None), now, None, None, unit);
  }

  /**
   The backoff goes on from the failures so far unless the process ran for `healthyAfterMs` or longer
   (the bound included); the restart is due that delay after the exit, and the failure is counted.
   */
  lemma BackoffGoesOnUnlessHealthy(s: Supervisor, started: nat, now: nat, code: Option<int>, signal: Option<int>, unit: real)
    requires s.startedAt == Some(started) && !s.stopRequested && !s.restartRequested
    ensures var (s', kind) := s.OnExit(now, code, signal, unit);
            var failures := if s.policy.healthyAfterMs == 0 || started + s.policy.healthyAfterMs <= now then 0 else s.consecutiveFailures;
            kind.Scheduled? ==>
              && kind.delayMs == DelayMs(s.policy, failures, unit)
              && kind.atMs == Min(now + kind.delayMs, 0xFFFF_FFFF_FFFF_FFFF) && s'.nextRestartAt == Some(kind.atMs)
              && s'.consecutiveFailures == Min(failures + 1, 0xFFFF_FFFF)
  {
    hide DelayMs, Prune;
  }

  /** Which policies are refused. */
  lemma RefusedIff(p: RestartPolicy)
    ensures !p.Valid() <==> p.multiplier < 1.0 || p.jitter < 0.0 || p.jitter > 1.0 || p.maxDelayMs < p.initialDelayMs
  {
  }

  // ------------------------------------------------------------------ modes

  /** What each mode wants: never, after anything but a clean exit, after every exit; unless-stopped is always. */
  lemma ModesWant(p: RestartPolicy, code: Option<int>)
    ensures p.(mode := Never).Wants(code) == false
    ensures p.(mode := OnFailure).Wants(code) <==> code != Some(0)
    ensures p.(mode := Always).Wants(code)
    ensures p.(mode := UnlessStopped).Wants(code) == p.(mode := Always).Wants(code)
  {
  }

  /** A failed spawn is retried (or given up) in every mode but Never, whatever the last exit was. */
  lemma FailedSpawnCounts(s: Supervisor, now: nat, unit: real)
    ensures s.OnSpawnFailed(now, unit).1.NotRestarted? <==> s.policy.mode.Never?
    ensures s.OnSpawnFailed(now, unit).1.NotRestarted? ==> s.OnSpawnFailed(now, unit).0.state.Exited?
    ensures s.OnSpawnFailed(now, unit).0.lastExit == s.lastExit
  {
    hide DelayMs, Prune;
  }

  /** The policy of the latest change is the one in force, through resets, stops and daemon restarts. */
  function LatestPolicy(first: RestartPolicy, calls: seq<Call>): RestartPolicy {
    if calls == [] then first
    else if calls[|calls| - 1].PolicyCall? then calls[|calls| - 1].policy
    else LatestPolicy(first, calls[..|calls| - 1])
  }

  lemma {:induction false} LatestPolicyInForce(origin: Supervisor, calls: seq<Call>)
    ensures Replay(origin, calls).policy == LatestPolicy(origin.policy, calls)
  {
    hide Apply;
    if calls != [] {
      LatestPolicyInForce(origin, calls[..|calls| - 1]);
      PolicyStep(Replay(origin, calls[..|calls| - 1]), calls[|calls| - 1]);
    }
  }

  lemma PolicyStep(s: Supervisor, c: Call)
    ensures Apply(s, c).policy == if c.PolicyCall? then c.policy else s.policy
  {
    hide DelayMs, Prune;
  }

  // ------------------------------------------------------------------ resets

  /** The supervisor after a budget reset, a restart with reset, or an operator start. */
  predicate JustReset(s: Supervisor, s': Supervisor) {
    s' == s.ResetBudget() || s' == s.RequestRestart(true) || s' == s.ResetForStart()
  }

  /**
   A reset starts over: the next spawn that fails, and the next exit of a process started after it, is
   scheduled with the first delay whenever the policy allows any restart at all.
   */
  lemma ResetStartsOver(s: Supervisor, s': Supervisor, started: nat, now: nat, code: Option<int>, signal: Option<int>, unit: real)
    requires JustReset(s, s') && s.policy.maxRestarts > 0
    ensures var first := ExitKind.Scheduled(DelayMs(s.policy, 0, unit), SatAdd(now, DelayMs(s.policy, 0, unit), U64_MAX));
            && (!s.policy.mode.Never? ==> s'.OnSpawnFailed(now, unit).1 == first)
            && (!s.policy.mode.Never? ==> s'.BeginRestart(started, false).OnSpawnFailed(now, unit).1 == first)
            && (s.policy.Wants(code) ==>
                  s'.BeginRestart(started, false).OnStarted(started).OnExit(now, code, signal, unit).1 == first)
  {
    hide DelayMs, Prune;
    ResetIsFresh(s, s');
    hide JustReset;
    var begun := s'.BeginRestart(started, false);
    if !s.policy.mode.Never? {
      FreshSpawn(s', now, unit);
      FreshSpawn(begun, now, unit);
    }
    if s.policy.Wants(code) {
      FreshExit(begun.OnStarted(started), now, code, signal, unit);
    }
  }

  /** A budget reset takes a pane out of Failed and touches no other state, nor anything scheduled or asked for. */
  lemma BudgetResetLeavesFailed(s: Supervisor)
    ensures var r := s.ResetBudget();
            && !r.state.Failed? && (s.state.Failed? ==> r.state.Exited?) && (!s.state.Failed? ==> r.state == s.state)
            && r.(state := s.state, restartLog := s.restartLog, consecutiveFailures := s.consecutiveFailures) == s
  {
  }

  predicate StartsOver(s: Supervisor) {
    s.restartLog == [] && s.consecutiveFailures == 0
  }

  lemma ResetIsFresh(s: Supervisor, s': Supervisor)
    requires JustReset(s, s')
    ensures StartsOver(s') && s'.policy == s.policy
  {
    hide DelayMs, Prune;
  }

  lemma FreshSpawn(s: Supervisor, now: nat, unit: real)
    requires StartsOver(s) && s.policy.maxRestarts > 0 && !s.policy.mode.Never?
    ensures s.OnSpawnFailed(now, unit).1 == ExitKind.Scheduled(DelayMs(s.policy, 0, unit), SatAdd(now, DelayMs(s.policy, 0, unit), U64_MAX))
  {
    hide DelayMs, Prune;
    EmptyLog(s.WindowStart(now));
    FailureVerdict(s.(startedAt := None, nextRestartAt := None), now, None, None, unit);
  }

  lemma FreshExit(s: Supervisor, now: nat, code: Option<int>, signal: Option<int>, unit: real)
    requires StartsOver(s) && s.policy.maxRestarts > 0 && s.policy.Wants(code) && !s.stopRequested && !s.restartRequested
    ensures s.OnExit(now, code, signal, unit).1 ==
              ExitKind.Scheduled(DelayMs(s.policy, 0, unit), SatAdd(now, DelayMs(s.policy, 0, unit), U64_MAX))
  {
    hide DelayMs, Prune;
    EmptyLog(s.WindowStart(now));
    FailureVerdict(s.(lastExit := Some(ExitRecord(code, signal, now)), startedAt := None, nextRestartAt := None), now, code,
                   s.RanFor(now), unit);
  }

  lemma EmptyLog(start: nat)
    ensures Prune([], start) == []
  {
  }

  // ------------------------------------------------------------------ the delay

  lemma TimesIs(a: real, b: real)
    ensures Times(a, b) == a * b
  {
  }

  lemma TimesSwap(a: real, b: real, c: real)
    ensures Times(a, Times(b, c)) == Times(b, Times(a, c))
  {
    assert a * (b * c) == b * (a * c);
  }

  /** `x` is the lesser of `a` and `b`. */
  predicate IsLesser(x: real, a: real, b: real) {
    (x == a && a <= b) || (x == b && b <= a)
  }

  /**
   How the backoff grows: it is the initial delay at first, each further failure multiplies it by the
   multiplier up to the maximal delay, and from the 1024th on it stays as it is.
   */
  lemma BackoffGrows(p: RestartPolicy, n: nat)
    requires p.Valid()
    ensures BaseDelay(p, 0) == p.initialDelayMs as real
    ensures n < 1024 ==> IsLesser(BaseDelay(p, n + 1), p.multiplier * BaseDelay(p, n), p.maxDelayMs as real)
    ensures n >= 1024 ==> BaseDelay(p, n) == BaseDelay(p, 1024)
  {
    hide Times, Pow;
    FirstPower(p.multiplier);
    TimesUnits(p.initialDelayMs as real);
    if n < 1024 {
      var init, m, max, x := p.initialDelayMs as real, p.multiplier, p.maxDelayMs as real, Pow(p.multiplier, n);
      NextPower(m, n);
      TimesSwap(init, m, x);
      TimesIs(m, BaseDelay(p, n));
      BaseDelayMonotone(p, n, n + 1);
      var raw := Times(init, x);
      PowGrows(m, 0, n);
      TimesMonotone(max, 1.0, m);
      TimesUnits(max);
      TimesCommutes(max, m);
      TimesMonotone(raw, 1.0, m);
      TimesUnits(raw);
      TimesCommutes(raw, m);
      assert raw >= max ==> BaseDelay(p, n) == max;
      assert raw < max ==> BaseDelay(p, n) == raw;
    }
  }

  lemma FirstPower(b: real)
    ensures Pow(b, 0) == 1.0
  {
  }

  lemma NextPower(b: real, n: nat)
    ensures Pow(b, n + 1) == Times(b, Pow(b, n))
  {
    hide Times;
  }

  /** `r` is the whole number nearest to `x`; a half goes up. */
  predicate IsRounded(x: real, r: nat) {
    r as real - 0.5 <= x < r as real + 0.5
  }

  lemma RoundIsNearest(x: real)
    requires x >= 0.0
    ensures IsRounded(x, Round(x))
  {
  }

  lemma RoundedOnce(x: real, a: nat, b: nat)
    requires IsRounded(x, a) && IsRounded(x, b)
    ensures a == b
  {
    assert (a as real) - 1.0 < b as real < a as real + 1.0;
  }

  /** Without jitter the delay is the backoff, rounded. */
  lemma DelayWithoutJitter(p: RestartPolicy, n: nat, unit: real)
    requires p.Valid() && p.jitter == 0.0
    ensures IsRounded(BaseDelay(p, n), DelayMs(p, n, unit))
  {
    hide Times, BaseDelay, Round;
    BaseDelayMonotone(p, n, n);
    TimesUnits(2.0 * Clamp(unit, 0.0, 1.0) - 1.0);
    TimesUnits(BaseDelay(p, n));
    RoundIsNearest(BaseDelay(p, n));
    if p.initialDelayMs == 0 {
      ZeroBase(p, n);
    }
  }

  /** The samples 0 and 1 reach the ends of the band: the lower one, and the upper one as far as the cap allows. */
  lemma DelayReachesEnds(p: RestartPolicy, n: nat)
    requires p.Valid()
    ensures IsRounded(BaseDelay(p, n) * (1.0 - p.jitter), DelayMs(p, n, 0.0))
    ensures var high := BaseDelay(p, n) * (1.0 + p.jitter);
            IsRounded(if high <= p.maxDelayMs as real then high else p.maxDelayMs as real, DelayMs(p, n, 1.0))
  {
    hide Times, BaseDelay, Round, DelayMs;
    TimesIs(BaseDelay(p, n), 1.0 - p.jitter);
    TimesIs(BaseDelay(p, n), 1.0 + p.jitter);
    DelayAtZero(p, n);
    DelayAtOne(p, n);
  }

  lemma DelayAtZero(p: RestartPolicy, n: nat)
    requires p.Valid()
    ensures IsRounded(Times(BaseDelay(p, n), 1.0 - p.jitter), DelayMs(p, n, 0.0))
  {
    hide Times, BaseDelay, Round;
    var base, j := BaseDelay(p, n), p.jitter;
    BaseDelayMonotone(p, n, n);
    TimesUnits(j);
    TimesMonotone(base, 0.0, 1.0 - j);
    TimesMonotone(base, 1.0 - j, 1.0);
    TimesUnits(base);
    RoundIsNearest(Times(base, 1.0 - j));
    if p.initialDelayMs == 0 {
      ZeroBase(p, n);
      TimesUnits(1.0 - j);
    }
  }

  lemma DelayAtOne(p: RestartPolicy, n: nat)
    requires p.Valid()
    ensures var high := Times(BaseDelay(p, n), 1.0 + p.jitter);
            IsRounded(if high <= p.maxDelayMs as real then high else p.maxDelayMs as real, DelayMs(p, n, 1.0))
  {
    hide Times, BaseDelay, Round;
    var base, j, max := BaseDelay(p, n), p.jitter, p.maxDelayMs as real;
    BaseDelayMonotone(p, n, n);
    TimesUnits(j);
    TimesMonotone(base, 0.0, 1.0 + j);
    TimesUnits(base);
    RoundIsNearest(if Times(base, 1.0 + j) <= max then Times(base, 1.0 + j) else max);
    if p.initialDelayMs == 0 {
      ZeroBase(p, n);
      TimesUnits(1.0 + j);
    }
  }

  /** A sample outside [0, 1] counts as the nearer end. */
  lemma SampleIsClamped(p: RestartPolicy, n: nat, unit: real)
    ensures unit <= 0.0 ==> DelayMs(p, n, unit) == DelayMs(p, n, 0.0)
    ensures unit >= 1.0 ==> DelayMs(p, n, unit) == DelayMs(p, n, 1.0)
  {
    hide Times, BaseDelay, Round;
  }

  /** One second, doubling, at most thirty: 1, 2, 4, 8, 16, 30, 30 seconds. */
  lemma DoublingToThirtySeconds(p: RestartPolicy, unit: real)
    requires p.Valid() && p.initialDelayMs == 1_000 && p.multiplier == 2.0 && p.maxDelayMs == 30_000 && p.jitter == 0.0
    ensures DelayMs(p, 0, unit) == 1_000 && DelayMs(p, 1, unit) == 2_000 && DelayMs(p, 2, unit) == 4_000
    ensures DelayMs(p, 3, unit) == 8_000 && DelayMs(p, 4, unit) == 16_000 && DelayMs(p, 5, unit) == 30_000
    ensures DelayMs(p, 6, unit) == 30_000
  {
    hide BaseDelay, DelayMs;
    Seconds(p, 0, unit, 1_000);
    NextSeconds(p, 0, unit, 1_000, 2_000);
    NextSeconds(p, 1, unit, 2_000, 4_000);
    NextSeconds(p, 2, unit, 4_000, 8_000);
    NextSeconds(p, 3, unit, 8_000, 16_000);
    NextSeconds(p, 4, unit, 16_000, 30_000);
    NextSeconds(p, 5, unit, 30_000, 30_000);
  }

  lemma Seconds(p: RestartPolicy, n: nat, unit: real, d: nat)
    requires p.Valid() && p.jitter == 0.0 && (n == 0 ==> d == p.initialDelayMs) && (n > 0 ==> BaseDelay(p, n) == d as real)
    ensures BaseDelay(p, n) == d as real && DelayMs(p, n, unit) == d
  {
    hide BaseDelay, DelayMs;
    BackoffGrows(p, 0);
    DelayWithoutJitter(p, n, unit);
    RoundedOnce(d as real, d, DelayMs(p, n, unit));
  }

  lemma NextSeconds(p: RestartPolicy, n: nat, unit: real, d: nat, d': nat)
    requires p.Valid() && p.jitter == 0.0 && n < 1024 && BaseDelay(p, n) == d as real
    requires IsLesser(d' as real, p.multiplier * d as real, p.maxDelayMs as real)
    ensures BaseDelay(p, n + 1) == d' as real && DelayMs(p, n + 1, unit) == d'
  {
    hide BaseDelay, DelayMs;
    BackoffGrows(p, n);
    Seconds(p, n + 1, unit, d');
  }
}
