/**
 Whole runs of one supervisor. A run is the list of calls made on it, oldest first; `Reload` is a
 daemon restart (persist, then restore). The theorems are about the complete history of a run,
 which the supervisor itself forgets: it keeps only a pruned log and a counter.
 */
module RestartRuns {
  import opened Common
  import opened Restart

  datatype Call =
    | Started(now: nat)
    | Exit(now: nat, code: Option<int>, signal: Option<int>, unit: real)
    | SpawnFailed(now: nat, unit: real)
    | Begin(now: nat, automatic: bool)
    | ScheduleNow(now: nat)
    | StopCall
    | RestartCall(resetBackoff: bool)
    | StartReset
    | BudgetReset
    | PolicyCall(policy: RestartPolicy)
    | Reload
  {
    predicate Timed() {
      Started? || Exit? || SpawnFailed? || Begin? || ScheduleNow?
    }

    /** Neither the policy nor the budget is touched from outside. */
    predicate KeepsBudget() {
      !(RestartCall? && resetBackoff) && !StartReset? && !BudgetReset? && !PolicyCall?
    }
  }

  function Apply(s: Supervisor, c: Call): Supervisor {
    match c
    case Started(now) => s.OnStarted(now)
    case Exit(now, code, signal, unit) => s.OnExit(now, code, signal, unit).0
    case SpawnFailed(now, unit) => s.OnSpawnFailed(now, unit).0
    case Begin(now, automatic) => s.BeginRestart(now, automatic)
    case ScheduleNow(now) => s.ScheduleManualRestartNow(now)
    case StopCall => s.RequestStop()
    case RestartCall(reset) => s.RequestRestart(reset)
    case StartReset => s.ResetForStart()
    case BudgetReset => s.ResetBudget()
    case PolicyCall(p) => s.SetPolicy(p)
    case Reload => Restore(s.Persisted())
  }

  function Replay(origin: Supervisor, calls: seq<Call>): Supervisor {
    if calls == [] then origin else Apply(Replay(origin, calls[..|calls| - 1]), calls[|calls| - 1])
  }

  /** The clock reading of the last timed call; 0 when there was none. */
  function LastTime(calls: seq<Call>): nat {
    if calls == [] then 0
    else if calls[|calls| - 1].Timed() then calls[|calls| - 1].now
    else LastTime(calls[..|calls| - 1])
  }

  /**
   What the glue guarantees about a call: the clock never runs backwards and never reads 0, and a
   restart is charged to the budget only when a backoff is due.
   */
  predicate Admissible(s: Supervisor, last: nat, c: Call) {
    && (c.Timed() ==> 0 < c.now && last <= c.now)
    && (c.Begin? && c.automatic ==> s.state.Backoff? && s.Due(c.now))
  }

  predicate Legal(origin: Supervisor, calls: seq<Call>) {
    calls == [] ||
    (var prefix := calls[..|calls| - 1];
     Legal(origin, prefix) && Admissible(Replay(origin, prefix), LastTime(prefix), calls[|calls| - 1]))
  }

  /** Every call in `calls` leaves policy and budget alone. */
  predicate FixedBudget(calls: seq<Call>) {
    forall i :: 0 <= i < |calls| ==> calls[i].KeepsBudget()
  }

  lemma ReplaySnoc(origin: Supervisor, calls: seq<Call>, c: Call)
    ensures Replay(origin, calls + [c]) == Apply(Replay(origin, calls), c)
    ensures Legal(origin, calls + [c]) <==> Legal(origin, calls) && Admissible(Replay(origin, calls), LastTime(calls), c)
    ensures LastTime(calls + [c]) == if c.Timed() then c.now else LastTime(calls)
  {
    hide DelayMs;
    assert (calls + [c])[..|calls + [c]| - 1] == calls;
  }

  // ------------------------------------------------------------------ the object, call by call

  /** One call on the object; a daemon restart replaces it by one rebuilt from its persisted state. */
  method Perform(p: PaneSupervisor, c: Call) returns (q: PaneSupervisor)
    modifies p
    ensures q == p || fresh(q)
    ensures q.View() == Apply(old(p.View()), c)
  {
    hide DelayMs, Prune;
    if c.Reload? {
      q := new PaneSupervisor.FromPersisted(p.View().Persisted());
      return;
    }
    q := p;
    match c {
      case Started(now) => p.OnStarted(now);
      case Exit(now, code, signal, unit) => var _ := p.OnExit(now, code, signal, unit);
      case SpawnFailed(now, unit) => var _ := p.OnSpawnFailed(now, unit);
      case Begin(now, automatic) => p.BeginRestart(now, automatic);
      case ScheduleNow(now) => p.ScheduleManualRestartNow(now);
      case StopCall => var _ := p.RequestStop();
      case RestartCall(reset) => var _ := p.RequestRestart(reset);
      case StartReset => p.ResetForStart();
      case BudgetReset => p.ResetBudget();
      case PolicyCall(policy) => p.SetPolicy(policy);
      case Reload =>
    }
  }

  /** A run of calls on the object is the run the theorems below are about. */
  method PerformAll(p: PaneSupervisor, calls: seq<Call>) returns (q: PaneSupervisor)
    modifies p
    ensures q.View() == Replay(old(p.View()), calls)
  {
    hide Apply;
    q := p;
    for i := 0 to |calls|
      invariant q == p || fresh(q)
      invariant q.View() == Replay(old(p.View()), calls[..i])
    {
      assert calls[..i + 1][..i] == calls[..i];
      q := Perform(q, calls[i]);
    }
    assert calls[..|calls|] == calls;
  }

  // ------------------------------------------------------------------ sliding-window budget

  /** The times of every automatic restart of a run, oldest first, never pruned. */
  function AutoTimes(calls: seq<Call>): seq<nat> {
    if calls == [] then [] else AutoTimes(calls[..|calls| - 1]) + AutoTime(calls[|calls| - 1])
  }

  function AutoTime(c: Call): seq<nat> {
    if c.Begin? && c.automatic then [c.now] else []
  }

  /** How many times in `h` are later than `lo`. */
  function CountAfter(h: seq<nat>, lo: int): nat {
    if h == [] then 0
    else CountAfter(h[..|h| - 1], lo) + if h[|h| - 1] > lo then 1 else 0
  }

  lemma {:induction false} CountAfterConcat(a: seq<nat>, b: seq<nat>, lo: int)
    ensures CountAfter(a + b, lo) == CountAfter(a, lo) + CountAfter(b, lo)
  {
    if b == [] {
      assert a + b == a;
    } else {
      CountAfterConcat(a, b[..|b| - 1], lo);
      assert (a + b)[..|a + b| - 1] == a + b[..|b| - 1];
    }
  }

  lemma {:induction false} CountAfterBounds(h: seq<nat>, lo: int)
    ensures CountAfter(h, lo) <= |h|
    ensures (forall i :: 0 <= i < |h| ==> h[i] <= lo) ==> CountAfter(h, lo) == 0
  {
    if h != [] {
      CountAfterBounds(h[..|h| - 1], lo);
    }
  }

  /** An automatic restart is scheduled. */
  predicate AutoPending(s: Supervisor) {
    s.state.Backoff? && s.nextRestartAt.Some?
  }

  /** How many automatic restarts fit a window from now on: the budget, and one that is scheduled already is kept. */
  function Limit(s: Supervisor): nat {
    if AutoPending(s) then Max(s.policy.maxRestarts, 1) else s.policy.maxRestarts
  }

  /**
   How the log relates to the automatic restarts `auto` since some moment at which it had `had`
   entries: its last `n` entries are the last `n` of them, and the others have expired at time `last`.
   */
  ghost predicate LogTail(auto: seq<nat>, log: seq<nat>, n: nat, had: nat, window: nat, last: nat) {
    && n <= |auto| && n <= |log| <= n + had
    && log[|log| - n..] == auto[|auto| - n..]
    && (forall i :: 0 <= i < |auto| ==> 0 < auto[i] <= last)
    && (window == 0 ==> n == |auto|)
    && (forall i :: 0 <= i < |auto| - n ==> auto[i] + window <= last)
  }

  ghost predicate BudgetInv(s: Supervisor, policy: RestartPolicy, limit: nat, had: nat, auto: seq<nat>, last: nat, n: nat) {
    && s.policy == policy && policy.maxRestarts <= limit
    && LogTail(auto, s.restartLog, n, had, policy.windowMs, last)
    && n <= limit && (AutoPending(s) ==> n < limit)
  }

  lemma SuffixOfSuffix(all: seq<nat>, m: nat, n: nat)
    requires n <= m <= |all|
    ensures all[|all| - m..][m - n..] == all[|all| - n..]
  {
  }

  /** What is dropped from the front of the log is older than the window, or is none of `auto`. */
  lemma PrunedTail(auto: seq<nat>, log: seq<nat>, kept: seq<nat>, n: nat, had: nat, window: nat, last: nat, now: nat, start: nat)
    returns (n': nat)
    requires LogTail(auto, log, n, had, window, last) && last <= now
    requires |kept| <= |log| && kept == log[|log| - |kept|..] && forall i :: 0 <= i < |log| - |kept| ==> log[i] <= start
    requires (start > 0 ==> start + window <= now) && (window == 0 ==> start == 0)
    ensures LogTail(auto, kept, n', had, window, now) && n' <= n && n' <= |kept|
  {
    if n <= |kept| {
      n' := n;
      SuffixOfSuffix(log, |kept|, n);
    } else {
      n' := |kept|;
      SuffixOfSuffix(log, n, n');
      SuffixOfSuffix(auto, n, n');
      hide LogTail;
      forall i | 0 <= i < |auto| - n' ensures auto[i] + window <= now && (i >= |auto| - n ==> auto[i] <= start) {
        if i < |auto| - n {
          ExpiredEntry(auto, log, n, had, window, last, i);
        } else {
          LogEntry(auto, log, n, had, window, last, i - (|auto| - n));
        }
      }
      TailOfAll(auto, log, kept, n, had, window, last, now, start);
    }
  }

  lemma ExpiredEntry(auto: seq<nat>, log: seq<nat>, n: nat, had: nat, window: nat, last: nat, i: nat)
    requires LogTail(auto, log, n, had, window, last) && i < |auto| - n
    ensures auto[i] + window <= last
  {
  }

  lemma LogEntry(auto: seq<nat>, log: seq<nat>, n: nat, had: nat, window: nat, last: nat, j: nat)
    requires LogTail(auto, log, n, had, window, last) && j < n
    ensures n <= |auto| && n <= |log| && auto[|auto| - n + j] == log[|log| - n + j] && auto[|auto| - n + j] > 0
  {
    DroppedEntry(auto, log, n, j);
  }

  /** All that is left of the log are restarts in `auto`. */
  lemma TailOfAll(auto: seq<nat>, log: seq<nat>, kept: seq<nat>, n: nat, had: nat, window: nat, last: nat, now: nat, start: nat)
    requires LogTail(auto, log, n, had, window, last) && last <= now && |kept| < n && (window == 0 ==> start == 0)
    requires kept == auto[|auto| - |kept|..]
    requires forall i :: 0 <= i < |auto| - |kept| ==> auto[i] + window <= now && (i >= |auto| - n ==> auto[i] <= start)
    ensures LogTail(auto, kept, |kept|, had, window, now)
  {
    assert auto[|auto| - n] <= start;
  }

  lemma DroppedEntry(auto: seq<nat>, log: seq<nat>, n: nat, j: nat)
    requires n <= |auto| && n <= |log| && log[|log| - n..] == auto[|auto| - n..] && j < n
    ensures auto[|auto| - n + j] == log[|log| - n + j]
  {
    assert auto[|auto| - n..][j] == log[|log| - n..][j];
  }

  lemma PruneKeepsBudgetInv(s: Supervisor, policy: RestartPolicy, limit: nat, had: nat, auto: seq<nat>, last: nat, n: nat,
                            now: nat, s': Supervisor) returns (n': nat)
    requires BudgetInv(s, policy, limit, had, auto, last, n) && last <= now
    requires s'.policy == policy && s'.restartLog == Prune(s.restartLog, s.WindowStart(now))
    requires AutoPending(s') ==> |s'.restartLog| < policy.maxRestarts
    ensures BudgetInv(s', policy, limit, had, auto, now, n')
  {
    hide DelayMs, Prune;
    PruneIsSuffix(s.restartLog, s.WindowStart(now));
    hide LogTail;
    n' := PrunedTail(auto, s.restartLog, s'.restartLog, n, had, policy.windowMs, last, now, s.WindowStart(now));
  }

  /** A failure at `now` keeps the budget invariant, whichever way the policy decides. */
  lemma FailureKeepsBudget(s: Supervisor, policy: RestartPolicy, limit: nat, had: nat, auto: seq<nat>, last: nat, n: nat,
                           now: nat, code: Option<int>, ranFor: Option<nat>, unit: real) returns (n': nat)
    requires BudgetInv(s, policy, limit, had, auto, last, n) && last <= now
    ensures BudgetInv(s.AfterFailure(now, code, ranFor, unit).0, policy, limit, had, auto, now, n')
  {
    hide DelayMs, Prune;
    n' := n;
    if policy.Wants(code) {
      n' := PruneKeepsBudgetInv(s, policy, limit, had, auto, last, n, now, s.AfterFailure(now, code, ranFor, unit).0);
    }
  }

  lemma LaterTail(auto: seq<nat>, log: seq<nat>, n: nat, had: nat, window: nat, last: nat, later: nat)
    requires LogTail(auto, log, n, had, window, last) && last <= later
    ensures LogTail(auto, log, n, had, window, later)
  {
  }

  /** Calls other than failures and automatic restarts leave the log alone and schedule nothing. */
  lemma QuietCall(s: Supervisor, c: Call)
    requires c.KeepsBudget() && !c.Exit? && !c.SpawnFailed? && !(c.Begin? && c.automatic)
    ensures Apply(s, c).policy == s.policy && Apply(s, c).restartLog == s.restartLog
    ensures AutoPending(Apply(s, c)) ==> AutoPending(s)
  {
  }

  lemma BudgetStep(s: Supervisor, policy: RestartPolicy, limit: nat, had: nat, auto: seq<nat>, last: nat, n: nat, c: Call)
    returns (n': nat)
    requires BudgetInv(s, policy, limit, had, auto, last, n) && Admissible(s, last, c) && c.KeepsBudget()
    requires !(c.Begin? && c.automatic)
    ensures BudgetInv(Apply(s, c), policy, limit, had, auto, if c.Timed() then c.now else last, n')
  {
    hide DelayMs, Prune, LogTail;
    n' := n;
    if c.Exit? {
      n' := ExitKeepsBudget(s, policy, limit, had, auto, last, n, c.now, c.code, c.signal, c.unit);
    } else if c.SpawnFailed? {
      var t := s.(startedAt := None, nextRestartAt := None);
      n' := FailureKeepsBudget(t, policy, limit, had, auto, last, n, c.now, None, None, c.unit);
    } else {
      QuietCall(s, c);
      LaterTail(auto, s.restartLog, n, had, policy.windowMs, last, if c.Timed() then c.now else last);
    }
  }

  lemma ExitKeepsBudget(s: Supervisor, policy: RestartPolicy, limit: nat, had: nat, auto: seq<nat>, last: nat, n: nat,
                        now: nat, code: Option<int>, signal: Option<int>, unit: real) returns (n': nat)
    requires BudgetInv(s, policy, limit, had, auto, last, n) && last <= now
    ensures BudgetInv(s.OnExit(now, code, signal, unit).0, policy, limit, had, auto, now, n')
  {
    hide DelayMs, Prune, LogTail;
    n' := n;
    LaterTail(auto, s.restartLog, n, had, policy.windowMs, last, now);
    if !s.stopRequested && !s.restartRequested {
      var t := s.(lastExit := Some(ExitRecord(code, signal, now)), startedAt := None, nextRestartAt := None);
      n' := FailureKeepsBudget(t, policy, limit, had, auto, last, n, now, code, s.RanFor(now), unit);
    }
  }

  lemma BudgetCharge(s: Supervisor, policy: RestartPolicy, limit: nat, had: nat, auto: seq<nat>, last: nat, n: nat, now: nat)
    requires BudgetInv(s, policy, limit, had, auto, last, n) && Admissible(s, last, Begin(now, true))
    ensures BudgetInv(s.BeginRestart(now, true), policy, limit, had, auto + [now], now, n + 1)
  {
    hide DelayMs, Prune;
    var log := s.restartLog;
    SnocSuffix(log, now, n);
    SnocSuffix(auto, now, n);
  }

  lemma SnocSuffix(a: seq<nat>, x: nat, n: nat)
    requires n <= |a|
    ensures (a + [x])[|a + [x]| - (n + 1)..] == a[|a| - n..] + [x]
  {
  }

  lemma BudgetAdvance(s: Supervisor, policy: RestartPolicy, limit: nat, had: nat, auto: seq<nat>, last: nat, n: nat, c: Call)
    returns (n': nat)
    requires BudgetInv(s, policy, limit, had, auto, last, n) && Admissible(s, last, c) && c.KeepsBudget()
    ensures BudgetInv(Apply(s, c), policy, limit, had, auto + AutoTime(c), if c.Timed() then c.now else last, n')
  {
    hide DelayMs, Prune, BudgetInv;
    if c.Begin? && c.automatic {
      BudgetCharge(s, policy, limit, had, auto, last, n, c.now);
      n' := n + 1;
    } else {
      n' := BudgetStep(s, policy, limit, had, auto, last, n, c);
      assert auto + AutoTime(c) == auto;
    }
  }

  /** From any supervisor at all, along any legal run that leaves policy and budget alone. */
  lemma {:induction false} BudgetInvHolds(origin: Supervisor, calls: seq<Call>) returns (n: nat)
    requires Legal(origin, calls) && FixedBudget(calls)
    ensures BudgetInv(Replay(origin, calls), origin.policy, Limit(origin), |origin.restartLog|, AutoTimes(calls), LastTime(calls), n)
  {
    hide Apply, BudgetInv;
    if calls == [] {
      n := 0;
      BudgetStart(origin);
    } else {
      var prefix, c := calls[..|calls| - 1], calls[|calls| - 1];
      n := BudgetInvHolds(origin, prefix);
      n := BudgetAdvance(Replay(origin, prefix), origin.policy, Limit(origin), |origin.restartLog|, AutoTimes(prefix),
                         LastTime(prefix), n, c);
    }
  }

  lemma BudgetStart(origin: Supervisor)
    ensures BudgetInv(origin, origin.policy, Limit(origin), |origin.restartLog|, [], 0, 0)
  {
  }

  /** The window that ends with the latest automatic restart, when that is the latest event too. */
  lemma LatestWindowBudget(s: Supervisor, policy: RestartPolicy, limit: nat, had: nat, auto: seq<nat>, last: nat, n: nat)
    requires BudgetInv(s, policy, limit, had, auto, last, n)
    ensures CountAfter(auto, last - policy.windowMs) <= limit
  {
    hide CountAfter;
    var dropped, kept, lo := auto[..|auto| - n], auto[|auto| - n..], last - policy.windowMs;
    assert auto == dropped + kept;
    CountAfterConcat(dropped, kept, lo);
    CountAfterBounds(dropped, lo);
    CountAfterBounds(kept, lo);
  }

  /**
   Sliding-window budget from any moment on: whatever the supervisor is like at that moment, as long
   as nobody changes the policy or resets the budget afterwards, whenever the i-th automatic restart
   since then happens at time t, at most `maxRestarts` of those since then lie in (t - windowMs, t].
   Failed spawns and daemon restarts are included. A restart that is already scheduled at that moment
   is not taken back, so under a policy that allows none there can be that one.
   */
  lemma {:induction false} WindowBudgetFrom(origin: Supervisor, calls: seq<Call>, i: nat)
    requires Legal(origin, calls) && FixedBudget(calls) && i < |AutoTimes(calls)|
    ensures var auto := AutoTimes(calls);
            CountAfter(auto[..i + 1], auto[i] - origin.policy.windowMs) <= Limit(origin)
  {
    hide Apply, Replay, CountAfter, Limit;
    var prefix, before := calls[..|calls| - 1], AutoTimes(calls[..|calls| - 1]);
    if i < |before| {
      WindowBudgetFrom(origin, prefix, i);
      PrefixOfConcat(before, AutoTime(calls[|calls| - 1]), i + 1);
    } else {
      WindowBudgetAtEnd(origin, calls);
      assert AutoTimes(calls)[..i + 1] == AutoTimes(calls);
    }
  }

  lemma PrefixOfConcat(a: seq<nat>, b: seq<nat>, n: nat)
    requires n <= |a|
    ensures (a + b)[..n] == a[..n]
  {
  }

  /** The window ending with the last call, when that call is an automatic restart. */
  lemma WindowBudgetAtEnd(origin: Supervisor, calls: seq<Call>)
    requires Legal(origin, calls) && FixedBudget(calls) && calls != [] && AutoTime(calls[|calls| - 1]) != []
    ensures var auto := AutoTimes(calls);
            auto != [] && CountAfter(auto, auto[|auto| - 1] - origin.policy.windowMs) <= Limit(origin)
  {
    hide *;
    var n := BudgetInvHolds(origin, calls);
    LastAutoTime(calls);
    LatestWindowBudget(Replay(origin, calls), origin.policy, Limit(origin), |origin.restartLog|, AutoTimes(calls), LastTime(calls), n);
  }

  lemma LastAutoTime(calls: seq<Call>)
    requires calls != [] && AutoTime(calls[|calls| - 1]) != []
    ensures var auto := AutoTimes(calls); auto != [] && auto[|auto| - 1] == LastTime(calls)
  {
  }

  /** Without a window the budget is for life, from any moment on. */
  lemma LifetimeBudgetFrom(origin: Supervisor, calls: seq<Call>)
    requires Legal(origin, calls) && FixedBudget(calls) && origin.policy.windowMs == 0
    ensures |AutoTimes(calls)| <= Limit(origin)
  {
    hide Replay, Legal, AutoTimes, LastTime, Limit;
    var _ := BudgetInvHolds(origin, calls);
  }

  /**
   Sliding-window budget over the whole history of a new pane under a fixed policy: whenever the i-th
   automatic restart happens at time t, at most `maxRestarts` of all of them lie in (t - windowMs, t].
   */
  lemma SlidingWindowBudget(policy: RestartPolicy, calls: seq<Call>, i: nat)
    requires Legal(NewSupervisor(policy), calls) && FixedBudget(calls)
    requires i < |AutoTimes(calls)|
    ensures var auto := AutoTimes(calls);
            CountAfter(auto[..i + 1], auto[i] - policy.windowMs) <= policy.maxRestarts
  {
    hide Legal, AutoTimes, CountAfter;
    WindowBudgetFrom(NewSupervisor(policy), calls, i);
  }

  /** Without a window the budget is for life: `maxRestarts` automatic restarts in all. */
  lemma LifetimeBudget(policy: RestartPolicy, calls: seq<Call>)
    requires Legal(NewSupervisor(policy), calls) && FixedBudget(calls) && policy.windowMs == 0
    ensures |AutoTimes(calls)| <= policy.maxRestarts
  {
    hide Legal, AutoTimes;
    LifetimeBudgetFrom(NewSupervisor(policy), calls);
  }

  // ------------------------------------------------------------------ since the last reset or policy change

  lemma {:induction false} ReplayConcat(origin: Supervisor, a: seq<Call>, b: seq<Call>)
    ensures Replay(origin, a + b) == Replay(Replay(origin, a), b)
  {
    hide Apply;
    if b == [] {
      assert a + b == a;
    } else {
      ReplayConcat(origin, a, b[..|b| - 1]);
      assert (a + b)[..|a + b| - 1] == a + b[..|b| - 1];
    }
  }

  lemma {:induction false} LastTimeConcat(a: seq<Call>, b: seq<Call>)
    ensures LastTime(b) == 0 || LastTime(b) == LastTime(a + b)
  {
    if b != [] {
      LastTimeConcat(a, b[..|b| - 1]);
      assert (a + b)[..|a + b| - 1] == a + b[..|b| - 1];
    }
  }

  /** The rest of a legal run is a legal run from where it starts. */
  lemma {:induction false} LegalSince(origin: Supervisor, a: seq<Call>, b: seq<Call>)
    requires Legal(origin, a + b)
    ensures Legal(Replay(origin, a), b)
  {
    hide Apply, Replay;
    if b != [] {
      var prefix := b[..|b| - 1];
      assert (a + b)[..|a + b| - 1] == a + prefix;
      LegalSince(origin, a, prefix);
      ReplayConcat(origin, a, prefix);
      LastTimeConcat(a, prefix);
    }
  }

  /**
   The budget since any moment `k` of a run - the last operator start, restart with reset, budget reset
   or policy change, say - under the policy of that moment, as long as none of these follows.
   */
  lemma BudgetSince(origin: Supervisor, calls: seq<Call>, k: nat, i: nat)
    requires Legal(origin, calls) && k <= |calls| && FixedBudget(calls[k..])
    ensures var s, auto := Replay(origin, calls[..k]), AutoTimes(calls[k..]);
            && (i < |auto| ==> CountAfter(auto[..i + 1], auto[i] - s.policy.windowMs) <= Limit(s))
            && (s.policy.windowMs == 0 ==> |auto| <= Limit(s))
  {
    hide Legal, Replay, AutoTimes, CountAfter, FixedBudget, Limit;
    assert calls[..k] + calls[k..] == calls;
    LegalSince(origin, calls[..k], calls[k..]);
    var s := Replay(origin, calls[..k]);
    if i < |AutoTimes(calls[k..])| {
      WindowBudgetFrom(s, calls[k..], i);
    }
    if s.policy.windowMs == 0 {
      LifetimeBudgetFrom(s, calls[k..]);
    }
  }

  /** The one restart over the limit happens: scheduled, then a policy that allows none, and it still begins. */
  lemma ScheduledSurvivesZeroBudget(policy: RestartPolicy) returns (calls: seq<Call>, k: nat)
    requires policy.mode.Always? && policy.maxRestarts > 0
    ensures Legal(NewSupervisor(policy), calls) && k <= |calls| && FixedBudget(calls[k..])
    ensures var s := Replay(NewSupervisor(policy), calls[..k]);
            s.policy.maxRestarts == 0 && AutoPending(s) && |AutoTimes(calls[k..])| == 1
  {
    hide Replay, Legal, LastTime, LatestCause, DelayMs, Prune;
    var origin := NewSupervisor(policy);
    var s1 := origin.OnStarted(1);
    var s2 := s1.OnExit(2, Some(0), None, 0.5).0;
    CleanExitSchedules(s1, 2, 0.5);
    var none := policy.(maxRestarts := 0);
    var s3, at := s2.SetPolicy(none), s2.nextRestartAt.value;
    StartOfRun(origin);
    var c1 := ExtendRun(origin, origin, [], Started(1));
    var c2 := ExtendRun(origin, s1, c1, Exit(2, Some(0), None, 0.5));
    var c3 := ExtendUntimed(origin, s2, c2, PolicyCall(none));
    calls := ExtendRun(origin, s3, c3, Begin(at, true));
    k := |c3|;
    OneBegin(c3, calls, at);
  }

  lemma OneBegin(before: seq<Call>, calls: seq<Call>, at: nat)
    requires calls == before + [Begin(at, true)]
    ensures calls[..|before|] == before && calls[|before|..] == [Begin(at, true)]
    ensures FixedBudget(calls[|before|..]) && |AutoTimes(calls[|before|..])| == 1
  {
    assert calls[|before|..] == [Begin(at, true)];
    assert [Begin(at, true)][..0] == [];
    assert AutoTimes([]) == [];
  }

  lemma ExtendUntimed(origin: Supervisor, s: Supervisor, calls: seq<Call>, c: Call) returns (longer: seq<Call>)
    requires Legal(origin, calls) && Replay(origin, calls) == s && Admissible(s, LastTime(calls), c) && !c.Timed()
    ensures longer == calls + [c]
    ensures Legal(origin, longer) && Replay(origin, longer) == Apply(s, c) && LastTime(longer) == LastTime(calls)
  {
    hide Apply, Admissible;
    longer := calls + [c];
    assert longer[..|longer| - 1] == calls;
  }

  // ------------------------------------------------------------------ backoff delays

  lemma TimesMonotone(a: real, x: real, y: real)
    requires a >= 0.0 && x <= y
    ensures Times(a, x) <= Times(a, y)
  {
  }

  lemma TimesUnits(a: real)
    ensures Times(a, 1.0) == a && Times(0.0, a) == 0.0 && Times(a, 0.0) == 0.0 && Times(a, -1.0) == -a
  {
  }

  lemma TimesCommutes(a: real, b: real)
    ensures Times(a, b) == Times(b, a)
  {
  }

  /** Pow(b, n) grows with n when b >= 1, starting from 1. */
  lemma {:induction false} PowGrows(b: real, m: nat, n: nat)
    requires b >= 1.0 && m <= n
    ensures 1.0 <= Pow(b, m) <= Pow(b, n)
  {
    hide Times;
    if n > 0 {
      PowGrows(b, if m < n then m else m - 1, n - 1);
      TimesMonotone(Pow(b, n - 1), 1.0, b);
      TimesUnits(Pow(b, n - 1));
      TimesCommutes(Pow(b, n - 1), b);
    }
  }

  lemma BaseDelayMonotone(p: RestartPolicy, m: nat, n: nat)
    requires p.Valid() && m <= n
    ensures p.initialDelayMs as real <= BaseDelay(p, m) <= BaseDelay(p, n) <= p.maxDelayMs as real
  {
    hide Times, Pow;
    var x, y := Pow(p.multiplier, Min(m, 1024)), Pow(p.multiplier, Min(n, 1024));
    PowGrows(p.multiplier, Min(m, 1024), Min(n, 1024));
    TimesMonotone(p.initialDelayMs as real, 1.0, x);
    TimesMonotone(p.initialDelayMs as real, x, y);
    TimesUnits(p.initialDelayMs as real);
  }

  /** The ends of the documented jitter band, before the cap at `maxDelayMs`. */
  function BandLow(p: RestartPolicy, failures: nat): real {
    Times(BaseDelay(p, failures), 1.0 - p.jitter)
  }

  function BandHigh(p: RestartPolicy, failures: nat): real {
    Times(BaseDelay(p, failures), 1.0 + p.jitter)
  }

  /**
   Every delay lies within rounding of [base * (1 - jitter), min(base * (1 + jitter), maxDelayMs)],
   never exceeds maxDelayMs, and its base lies between the initial and the maximal delay.
   */
  lemma DelayInBand(p: RestartPolicy, failures: nat, unit: real)
    requires p.Valid()
    ensures var d := DelayMs(p, failures, unit);
            && BandLow(p, failures) - 0.5 <= d as real
            && d as real <= RealMin(BandHigh(p, failures), p.maxDelayMs as real) + 0.5
            && d <= p.maxDelayMs
    ensures p.initialDelayMs as real <= BaseDelay(p, failures) <= p.maxDelayMs as real
  {
    hide Times, BaseDelay;
    var base := BaseDelay(p, failures);
    BaseDelayMonotone(p, failures, failures);
    JitterBand(p.jitter, unit);
    TimesMonotone(base, 1.0 - p.jitter, JitterFactor(p.jitter, unit));
    TimesMonotone(base, JitterFactor(p.jitter, unit), 1.0 + p.jitter);
    TimesMonotone(base, 0.0, 1.0 - p.jitter);
    TimesMonotone(base, 1.0 - p.jitter, 1.0);
    TimesUnits(base);
    if p.initialDelayMs == 0 {
      assert base == 0.0 by { ZeroBase(p, failures); }
      TimesUnits(1.0 - p.jitter);
      TimesUnits(1.0 + p.jitter);
    }
  }

  lemma ZeroBase(p: RestartPolicy, failures: nat)
    requires p.initialDelayMs == 0
    ensures BaseDelay(p, failures) == 0.0
  {
    hide Times;
    TimesUnits(Pow(p.multiplier, Min(failures, 1024)));
  }

  lemma JitterBand(jitter: real, unit: real)
    requires 0.0 <= jitter <= 1.0
    ensures 1.0 - jitter <= JitterFactor(jitter, unit) <= 1.0 + jitter
  {
    hide Times;
    var u := 2.0 * Clamp(unit, 0.0, 1.0) - 1.0;
    TimesMonotone(jitter, -1.0, u);
    TimesMonotone(jitter, u, 1.0);
    TimesUnits(jitter);
  }

  /** Without jitter more failures never mean a shorter delay, whatever the samples are. */
  lemma DelayMonotone(p: RestartPolicy, m: nat, n: nat, u: real, v: real)
    requires p.Valid() && p.jitter == 0.0 && m <= n
    ensures DelayMs(p, m, u) <= DelayMs(p, n, v)
  {
    hide Times, BaseDelay;
    BaseDelayMonotone(p, m, n);
    TimesUnits(2.0 * Clamp(u, 0.0, 1.0) - 1.0);
    TimesUnits(2.0 * Clamp(v, 0.0, 1.0) - 1.0);
    TimesUnits(BaseDelay(p, m));
    TimesUnits(BaseDelay(p, n));
  }

  /** One scheduled backoff: the failure count it was computed from, the jitter sample, the delay and
      the time of the failure. */
  datatype Schedule = Schedule(failures: nat, unit: real, delayMs: nat, failedAt: nat)

  function ScheduleOf(s: Supervisor, c: Call): seq<Schedule> {
    match c
    case Exit(now, code, signal, unit) =>
      var (s', kind) := s.OnExit(now, code, signal, unit);
      if kind.Scheduled?
      then [Schedule(if s.Healthy(s.RanFor(now)) then 0 else s.consecutiveFailures, unit, kind.delayMs, now)]
      else []
    case SpawnFailed(now, unit) =>
      var (s', kind) := s.OnSpawnFailed(now, unit);
      if kind.Scheduled? then [Schedule(s.consecutiveFailures, unit, kind.delayMs, now)] else []
    case _ => []
  }

  /** Every backoff a run schedules, oldest first. */
  function Schedules(origin: Supervisor, calls: seq<Call>): seq<Schedule> {
    if calls == [] then []
    else
      var prefix := calls[..|calls| - 1];
      Schedules(origin, prefix) + ScheduleOf(Replay(origin, prefix), calls[|calls| - 1])
  }

  /** No reset, no policy change and no run long enough to count as healthy. */
  predicate KeepsBackoff(s: Supervisor, c: Call) {
    c.KeepsBudget() && !(c.Exit? && s.Healthy(s.RanFor(c.now)))
  }

  predicate NeverHealthy(origin: Supervisor, calls: seq<Call>) {
    calls == [] ||
    (var prefix := calls[..|calls| - 1];
     NeverHealthy(origin, prefix) && KeepsBackoff(Replay(origin, prefix), calls[|calls| - 1]))
  }

  ghost predicate FailuresInv(s: Supervisor, policy: RestartPolicy, h: seq<Schedule>) {
    && s.policy == policy
    && s.consecutiveFailures == Min(|h|, U32_MAX)
    && forall i :: 0 <= i < |h| ==> h[i].failures == Min(i, U32_MAX) && h[i].delayMs == DelayMs(policy, h[i].failures, h[i].unit)
  }

  lemma FailureKeepsCount(s: Supervisor, policy: RestartPolicy, h: seq<Schedule>, now: nat,
                          code: Option<int>, ranFor: Option<nat>, unit: real)
    requires FailuresInv(s, policy, h) && !s.Healthy(ranFor)
    ensures var (s', kind) := s.AfterFailure(now, code, ranFor, unit);
            FailuresInv(s', policy,
                        h + if kind.Scheduled? then [Schedule(s.consecutiveFailures, unit, kind.delayMs, now)] else [])
  {
    hide DelayMs;
  }

  lemma FailuresStep(s: Supervisor, policy: RestartPolicy, h: seq<Schedule>, c: Call)
    requires FailuresInv(s, policy, h) && KeepsBackoff(s, c)
    ensures FailuresInv(Apply(s, c), policy, h + ScheduleOf(s, c))
  {
    hide DelayMs;
    assert h + [] == h;
    match c {
      case Exit(now, code, signal, unit) =>
        var t := s.(lastExit := Some(ExitRecord(code, signal, now)), startedAt := None, nextRestartAt := None);
        FailureKeepsCount(t, policy, h, now, code, s.RanFor(now), unit);
      case SpawnFailed(now, unit) =>
        FailureKeepsCount(s.(startedAt := None, nextRestartAt := None), policy, h, now, None, None, unit);
      case _ =>
    }
  }

  lemma {:induction false} FailuresInvHolds(policy: RestartPolicy, calls: seq<Call>)
    requires NeverHealthy(NewSupervisor(policy), calls)
    ensures FailuresInv(Replay(NewSupervisor(policy), calls), policy, Schedules(NewSupervisor(policy), calls))
  {
    hide DelayMs;
    if calls != [] {
      var prefix := calls[..|calls| - 1];
      FailuresInvHolds(policy, prefix);
      FailuresStep(Replay(NewSupervisor(policy), prefix), policy, Schedules(NewSupervisor(policy), prefix), calls[|calls| - 1]);
    }
  }

  /**
   Backoff over runs: with no healthy run, no reset and a fixed policy, the i-th scheduled delay is
   the policy's delay after i failures; so without jitter the delays of the run never decrease.
   */
  lemma DelaysNeverDecrease(policy: RestartPolicy, calls: seq<Call>)
    requires policy.Valid() && NeverHealthy(NewSupervisor(policy), calls)
    ensures var h := Schedules(NewSupervisor(policy), calls);
            && (forall i :: 0 <= i < |h| ==> h[i].delayMs == DelayMs(policy, Min(i, U32_MAX), h[i].unit))
            && (policy.jitter == 0.0 ==> forall i, j :: 0 <= i <= j < |h| ==> h[i].delayMs <= h[j].delayMs)
  {
    hide DelayMs;
    FailuresInvHolds(policy, calls);
    var h := Schedules(NewSupervisor(policy), calls);
    if policy.jitter == 0.0 {
      forall i, j | 0 <= i <= j < |h| ensures h[i].delayMs <= h[j].delayMs {
        DelayMonotone(policy, h[i].failures, h[j].failures, h[i].unit, h[j].unit);
      }
    }
  }

  /** A run that lasted long enough puts the backoff back to its first delay. */
  lemma HealthyRunResetsBackoff(s: Supervisor, now: nat, code: Option<int>, signal: Option<int>, unit: real)
    requires s.Healthy(s.RanFor(now)) && s.OnExit(now, code, signal, unit).1.Scheduled?
    ensures var (s', kind) := s.OnExit(now, code, signal, unit);
            kind.delayMs == DelayMs(s.policy, 0, unit) && s'.consecutiveFailures == 1
  {
    hide DelayMs;
  }

  /** In Backoff an armed deadline is the one computed by the latest schedule. */
  ghost predicate DeadlineOf(s: Supervisor, h: seq<Schedule>) {
    s.state.Backoff? && s.nextRestartAt.Some? ==>
      && h != []
      && s.nextRestartAt == Some(SatAdd(h[|h| - 1].failedAt, h[|h| - 1].delayMs, U64_MAX))
  }

  lemma DeadlineStep(s: Supervisor, h: seq<Schedule>, c: Call)
    requires DeadlineOf(s, h)
    ensures DeadlineOf(Apply(s, c), h + ScheduleOf(s, c))
  {
    hide DelayMs;
    if ScheduleOf(s, c) == [] {
      assert h + ScheduleOf(s, c) == h;
    }
  }

  lemma {:induction false} BackoffRemembersSchedule(origin: Supervisor, calls: seq<Call>)
    requires !origin.state.Backoff?
    ensures DeadlineOf(Replay(origin, calls), Schedules(origin, calls))
  {
    hide DelayMs;
    if calls != [] {
      var prefix := calls[..|calls| - 1];
      BackoffRemembersSchedule(origin, prefix);
      DeadlineStep(Replay(origin, prefix), Schedules(origin, prefix), calls[|calls| - 1]);
    }
  }

  lemma {:induction false} LegalPrefix(origin: Supervisor, calls: seq<Call>, k: nat)
    requires Legal(origin, calls) && k < |calls|
    ensures Legal(origin, calls[..k])
    ensures Admissible(Replay(origin, calls[..k]), LastTime(calls[..k]), calls[k])
  {
    hide DelayMs;
    if k < |calls| - 1 {
      LegalPrefix(origin, calls[..|calls| - 1], k);
      assert calls[..|calls| - 1][..k] == calls[..k];
    }
  }

  /**
   In any legal run, with any mix of stops, resets and policy changes, an automatic restart never
   begins before the time of the failure that scheduled it plus the delay chosen then.
   */
  lemma NoRestartBeforeItsDelay(origin: Supervisor, calls: seq<Call>, k: nat)
    requires Legal(origin, calls) && !origin.state.Backoff?
    requires k < |calls| && calls[k].Begin? && calls[k].automatic
    ensures var h := Schedules(origin, calls[..k]);
            h != [] && calls[k].now >= SatAdd(h[|h| - 1].failedAt, h[|h| - 1].delayMs, U64_MAX)
  {
    hide DelayMs;
    LegalPrefix(origin, calls, k);
    BackoffRemembersSchedule(origin, calls[..k]);
  }

  // ------------------------------------------------------------------ persist and restore

  /** Persist, restore, persist: policy, counters, log and last exit survive; a second round changes nothing. */
  lemma RestoreAfterPersist(s: Supervisor)
    ensures var r := Restore(s.Persisted());
            && r.Persisted() == s.Persisted().(state := RestoredState(s.state))
            && Restore(r.Persisted()) == r
            && !r.RestartPending() && r.startedAt.None? && r.nextRestartAt.None?
            && (r.Persisted() == s.Persisted() <==> s.state.Exited? || s.state.Stopped? || s.state.Failed?)
  {
    hide DelayMs;
  }

  /** Calls that are neither an operator start or restart nor the consequence of a process. */
  predicate LeavesDead(c: Call) {
    c.PolicyCall? || c.BudgetReset? || c.StopCall? || c.Reload?
  }

  /** A restored supervisor never becomes due by policy changes, budget resets, stops or more reloads. */
  lemma {:induction false} RestoredNeverDue(p: PersistedRestartState, calls: seq<Call>, now: nat)
    requires forall i :: 0 <= i < |calls| ==> LeavesDead(calls[i])
    ensures var s := Replay(Restore(p), calls);
            && !s.Due(now)
            && !s.RestartPending() && s.nextRestartAt.None? && s.startedAt.None?
            && !s.stopRequested && !s.restartRequested && !s.state.Live?
  {
    hide DelayMs;
    if calls != [] {
      RestoredNeverDue(p, calls[..|calls| - 1], now);
    }
  }

  // ------------------------------------------------------------------ what a run remembers

  function Begins(calls: seq<Call>): nat {
    if calls == [] then 0 else Begins(calls[..|calls| - 1]) + if calls[|calls| - 1].Begin? then 1 else 0
  }

  /** The latest exit of a run, whatever happened since. */
  function LatestExit(calls: seq<Call>): Option<ExitRecord> {
    if calls == [] then None
    else
      match calls[|calls| - 1]
      case Exit(now, code, signal, _) => Some(ExitRecord(code, signal, now))
      case _ => LatestExit(calls[..|calls| - 1])
  }

  /**
   Through every run - resets, policy changes, stops, daemon restarts - the restart counter is the
   number of restarts ever begun, and the last exit is the latest one.
   */
  lemma {:induction false} CountersTellHistory(policy: RestartPolicy, calls: seq<Call>)
    ensures var s := Replay(NewSupervisor(policy), calls);
            s.restartCount == Min(Begins(calls), U32_MAX) && s.lastExit == LatestExit(calls)
  {
    hide Apply;
    if calls != [] {
      CountersTellHistory(policy, calls[..|calls| - 1]);
      CountersStep(Replay(NewSupervisor(policy), calls[..|calls| - 1]), calls[|calls| - 1]);
    }
  }

  lemma CountersStep(s: Supervisor, c: Call)
    ensures Apply(s, c).restartCount == if c.Begin? then SatAdd(s.restartCount, 1, U32_MAX) else s.restartCount
    ensures Apply(s, c).lastExit == if c.Exit? then Some(ExitRecord(c.code, c.signal, c.now)) else s.lastExit
  {
    hide DelayMs, Prune;
  }

  // ------------------------------------------------------------------ policy changes and a pending restart

  /** The exit code the latest failure was judged by; a failed spawn has none. */
  function LatestCause(calls: seq<Call>): Option<int> {
    if calls == [] then None
    else
      match calls[|calls| - 1]
      case Exit(_, code, _, _) => code
      case SpawnFailed(_, _) => None
      case _ => LatestCause(calls[..|calls| - 1])
  }

  /** The latest failure was a process that exited, not one that could not be spawned. */
  predicate CausedByExit(calls: seq<Call>) {
    calls != [] && (calls[|calls| - 1].Exit? || (!calls[|calls| - 1].SpawnFailed? && CausedByExit(calls[..|calls| - 1])))
  }

  lemma {:induction false} CauseIsLatestExit(calls: seq<Call>)
    ensures if CausedByExit(calls) then LatestExit(calls).Some? && LatestCause(calls) == LatestExit(calls).value.code
            else LatestCause(calls).None?
  {
    if calls != [] {
      CauseIsLatestExit(calls[..|calls| - 1]);
    }
  }

  /**
   `set_policy` promises to cancel a pending backoff exactly when the new policy would not have
   scheduled it. It looks at the last exit, though, and a backoff can also come from a failed spawn:
   the promise is kept iff it is not the case that the pending backoff comes from a failed spawn,
   the last exit before it was clean, and the new mode is on-failure.
   */
  lemma PolicyChangeKeepsPromiseIff(policy: RestartPolicy, calls: seq<Call>, p: RestartPolicy)
    requires Replay(NewSupervisor(policy), calls).state.Backoff?
    ensures var s := Replay(NewSupervisor(policy), calls);
            (s.SetPolicy(p).state.Backoff? <==> p.Wants(LatestCause(calls)))
            <==> !(p.mode.OnFailure? && !CausedByExit(calls) && s.LastCode() == Some(0))
  {
    hide Replay, LatestExit, LatestCause, CausedByExit;
    CountersTellHistory(policy, calls);
    CauseIsLatestExit(calls);
  }

  /** The failing case happens: a clean exit under `always`, then a spawn that fails, then a change to on-failure. */
  lemma PolicyChangeCanBreakPromise(policy: RestartPolicy) returns (calls: seq<Call>)
    requires policy.mode.Always? && policy.maxRestarts >= 2 && policy.windowMs == 0
    ensures Legal(NewSupervisor(policy), calls)
    ensures var s, p := Replay(NewSupervisor(policy), calls), policy.(mode := OnFailure);
            s.state.Backoff? && p.Wants(LatestCause(calls)) && s.SetPolicy(p).state.Exited?
  {
    hide Replay, Legal, LastTime, LatestCause, DelayMs, Prune;
    var origin := NewSupervisor(policy);
    var s1 := origin.OnStarted(1);
    var s2 := s1.OnExit(2, Some(0), None, 0.5).0;
    CleanExitSchedules(s1, 2, 0.5);
    var at := s2.nextRestartAt.value;
    FailedSpawnSchedules(s2.BeginRestart(at, true), at, 0.5);
    calls := [];
    StartOfRun(origin);
    calls := ExtendRun(origin, origin, calls, Started(1));
    calls := ExtendRun(origin, s1, calls, Exit(2, Some(0), None, 0.5));
    calls := ExtendRun(origin, s2, calls, Begin(at, true));
    calls := ExtendRun(origin, s2.BeginRestart(at, true), calls, SpawnFailed(at, 0.5));
  }

  lemma CleanExitSchedules(s: Supervisor, now: nat, unit: real)
    requires s.policy.mode.Always? && s.policy.maxRestarts > 0 && s.restartLog == [] && !s.stopRequested && !s.restartRequested
    requires now <= U64_MAX
    ensures var s' := s.OnExit(now, Some(0), None, unit).0;
            && s'.state.Backoff? && s'.nextRestartAt.Some? && s'.nextRestartAt.value >= now && s'.Due(s'.nextRestartAt.value)
            && s'.LastCode() == Some(0) && s'.policy == s.policy && s'.restartLog == []
  {
    hide DelayMs;
  }

  lemma FailedSpawnSchedules(s: Supervisor, now: nat, unit: real)
    requires s.policy.mode.Always? && s.policy.maxRestarts > |s.restartLog|
    ensures var s' := s.OnSpawnFailed(now, unit).0; s'.state.Backoff? && s'.LastCode() == s.LastCode()
  {
    hide DelayMs;
    PruneIsSuffix(s.restartLog, s.WindowStart(now));
  }

  lemma StartOfRun(origin: Supervisor)
    ensures Legal(origin, []) && Replay(origin, []) == origin && LastTime([]) == 0
  {
  }

  /** A legal run with one more admissible call. */
  lemma ExtendRun(origin: Supervisor, s: Supervisor, calls: seq<Call>, c: Call) returns (longer: seq<Call>)
    requires Legal(origin, calls) && Replay(origin, calls) == s && Admissible(s, LastTime(calls), c) && c.Timed()
    ensures longer == calls + [c]
    ensures Legal(origin, longer) && Replay(origin, longer) == Apply(s, c) && LastTime(longer) == c.now
    ensures c.SpawnFailed? ==> LatestCause(longer).None?
  {
    hide Apply, Admissible;
    longer := calls + [c];
    assert longer[..|longer| - 1] == calls;
  }
}
