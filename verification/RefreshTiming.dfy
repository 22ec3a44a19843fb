/** When attempts may start: cadence, serial attempts, pause, retry floor, bounded debounce. */
module RefreshTiming {
  import opened Backoff
  import opened Basics
  import opened RefreshModel
  import opened RefreshSafety
  import opened RefreshRepair

  // ---- cadence -------------------------------------------------------------------------

  predicate HasDraw(l: Label) {
    l.Start? || l.SetCovered? || l.SetLive? || l.Invalidate? || l.Finish? || l.Timer?
  }

  /** The clock plus what the jitter returned for the healthy interval if both streams are healthy,
      and for the fallback interval otherwise. */
  function Cadence(streams: Streams, l: Label): int
    requires HasDraw(l)
  {
    l.now + Max(if Healthy(streams.topology) && Healthy(streams.delivery) then l.draw.healthy else l.draw.fallback, 0)
  }

  predicate Arms(after: State, l: Label) {
    HasDraw(l) && after.nextPeriodicAt == Cadence(after.streams, l)
  }

  /** The labels that schedule the periodic refresh anew: a start, a change to a stream that may
      change the mode, a success, and the periodic refresh itself. */
  predicate Rearms(m: Machine, l: Label) {
    match l
    case Start(_, _) => !m.s.started && !m.s.stopped
    case SetCovered(x, covered, _, _) => !m.s.stopped && m.s.streams.At(x).covered != covered
    case SetLive(x, live, full, _, _) => !m.s.stopped && (m.s.streams.At(x).live != live || full)
    case Invalidate(_, _, _, _) => !m.s.stopped
    case Finish(outcome, _, _, _) => m.work.Some? && outcome.Success?
    case Timer(now, _) => NEVER < m.s.nextPeriodicAt <= now
    case _ => false
  }

  /** A step that schedules the periodic refresh does so for the mode it leaves behind; any other
      keeps both. */
  lemma CadenceStep(cfg: Config, m: Machine, l: Label)
    requires m.s.nextPeriodicAt >= NEVER
    ensures var after := Step(cfg, m, l).s;
            after.nextPeriodicAt >= NEVER &&
            if Rearms(m, l) then Arms(after, l)
            else after.nextPeriodicAt == m.s.nextPeriodicAt && after.streams.AllHealthy() == m.s.streams.AllHealthy()
  {
    hide EnqueueAt, Defer, Settle, Top, Merge, PeriodicAt;
    if HasDraw(l) {
      DrawnCadence(Step(cfg, m, l).s.streams, l);
    }
    match l
    case Start(_, _) =>
    case Stop =>
    case Notify(_, _) =>
    case SetPaused(_, _) =>
    case SetCovered(_, _, _, _) =>
    case SetLive(_, _, _, _, _) =>
    case Invalidate(_, _, _, _) =>
    case Take(_) =>
    case Finish(_, _, _, _) =>
    case Timer(_, _) =>
    case Exit =>
    case Elsewhere =>
  }

  lemma DrawnCadence(streams: Streams, l: Label)
    requires HasDraw(l)
    ensures PeriodicAt(streams, l.now, l.draw) == Cadence(streams, l)
  {
  }

  /** Label `k` was the last to schedule the periodic refresh, and the health mode has not changed
      since. */
  ghost predicate ArmedBy(cfg: Config, ls: seq<Label>, n: nat, k: nat)
    requires n <= |ls|
  {
    var s := After(cfg, ls, n).s;
    && k < n && HasDraw(ls[k]) && Rearms(After(cfg, ls, k), ls[k])
    && s.nextPeriodicAt == Cadence(s.streams, ls[k])
    && (forall i :: k < i < n ==> !Rearms(After(cfg, ls, i), ls[i]))
    && forall i :: k < i <= n ==>
         && After(cfg, ls, i).s.nextPeriodicAt == s.nextPeriodicAt
         && After(cfg, ls, i).s.streams.AllHealthy() == s.streams.AllHealthy()
  }

  lemma ArmedKept(cfg: Config, ls: seq<Label>, n: nat, k: nat)
    requires 0 < n <= |ls| && ArmedBy(cfg, ls, n - 1, k) && !Rearms(After(cfg, ls, n - 1), ls[n - 1])
    requires After(cfg, ls, n).s.nextPeriodicAt == After(cfg, ls, n - 1).s.nextPeriodicAt
    requires After(cfg, ls, n).s.streams.AllHealthy() == After(cfg, ls, n - 1).s.streams.AllHealthy()
    ensures ArmedBy(cfg, ls, n, k)
  {
    hide Step, After, Rearms, Healthy;
  }

  /** The periodic deadline was always last computed with the interval of the current mode. */
  lemma {:induction false} CadenceMatchesMode(cfg: Config, ls: seq<Label>, n: nat) returns (k: nat)
    requires n <= |ls| && After(cfg, ls, n).s.nextPeriodicAt != NEVER
    ensures ArmedBy(cfg, ls, n, k)
  {
    hide Step, Rearms, Healthy, Streams.AllHealthy;
    var m := After(cfg, ls, n - 1);
    NeverIsEarliest(cfg, ls, n - 1);
    CadenceStep(cfg, m, ls[n - 1]);
    if Rearms(m, ls[n - 1]) {
      k := n - 1;
    } else {
      k := CadenceMatchesMode(cfg, ls, n - 1);
      ArmedKept(cfg, ls, n, k);
    }
  }

  lemma {:induction false} NeverIsEarliest(cfg: Config, ls: seq<Label>, n: nat)
    requires n <= |ls|
    ensures After(cfg, ls, n).s.nextPeriodicAt >= NEVER
  {
    hide Step;
    if n > 0 {
      NeverIsEarliest(cfg, ls, n - 1);
      CadenceStep(cfg, After(cfg, ls, n - 1), ls[n - 1]);
    }
  }

  /** The worker has left its loop within the first `n` labels. */
  ghost predicate Exited(cfg: Config, ls: seq<Label>, n: nat)
    requires n <= |ls|
  {
    exists k :: 0 <= k < n && ls[k].Exit? && After(cfg, ls, k).work.None?
  }

  /** From the start on a periodic refresh is always scheduled, and the coordinator runs until its
      worker has left its loop, after which it stays stopped. */
  lemma {:induction false} StartedIsScheduled(cfg: Config, ls: seq<Label>, n: nat)
    requires n <= |ls|
    ensures var s := After(cfg, ls, n).s;
            && (s.started ==> s.nextPeriodicAt != NEVER)
            && (s.running <==> s.started && !Exited(cfg, ls, n))
            && (Exited(cfg, ls, n) ==> s.stopped)
  {
    hide Step;
    if n > 0 {
      StartedIsScheduled(cfg, ls, n - 1);
      ScheduleStep(cfg, After(cfg, ls, n - 1), ls[n - 1]);
    }
  }

  /** A coordinator that was stopped, or whose worker left, stays stopped, and no later call changes
      anything. */
  lemma {:induction false} StoppedIsFinal(cfg: Config, ls: seq<Label>, k: nat, n: nat)
    requires k < n <= |ls| && (ls[k].Stop? || (ls[k].Exit? && After(cfg, ls, k).work.None?))
    ensures After(cfg, ls, n).s.stopped
    ensures forall l :: IsCall(l) ==> Step(cfg, After(cfg, ls, n), l) == After(cfg, ls, n)
  {
    var m := After(cfg, ls, n - 1);
    ScheduleStep(cfg, m, ls[n - 1]);
    if k < n - 1 {
      StoppedIsFinal(cfg, ls, k, n - 1);
    }
  }

  lemma ScheduleStep(cfg: Config, m: Machine, l: Label)
    ensures var after := Step(cfg, m, l).s;
            && (m.s.nextPeriodicAt != NEVER ==> after.nextPeriodicAt != NEVER)
            && (m.s.started ==> after.started) && (m.s.stopped ==> after.stopped)
            && (after.started != m.s.started ==> after.running && !m.s.stopped && after.nextPeriodicAt != NEVER)
            && (if l.Exit? && m.work.None? then !after.running && after.stopped
                else after.running == (m.s.running || after.started != m.s.started))
  {
    hide EnqueueAt, Defer, Settle, Top, Merge;
    match l
    case Start(_, _) =>
    case Stop =>
    case Notify(_, _) =>
    case SetPaused(_, _) =>
    case SetCovered(_, _, _, _) =>
    case SetLive(_, _, _, _, _) =>
    case Invalidate(_, _, _, _) =>
    case Take(_) =>
    case Finish(_, _, _, _) =>
    case Timer(_, _) =>
    case Exit =>
    case Elsewhere =>
  }

  // ---- serial attempts -----------------------------------------------------------------

  /** Label `t` starts a refresh attempt. */
  ghost predicate Attempts(cfg: Config, ls: seq<Label>, t: nat) {
    t < |ls| && ls[t].Take? && Ready(After(cfg, ls, t).s, ls[t].now)
  }

  /** Label `j` ends one. */
  ghost predicate Ends(cfg: Config, ls: seq<Label>, j: nat) {
    j < |ls| && ls[j].Finish? && After(cfg, ls, j).work.Some?
  }

  lemma {:induction false} StaysInFlight(cfg: Config, ls: seq<Label>, t: nat, n: nat)
    requires Attempts(cfg, ls, t) && t < n <= |ls|
    requires forall j :: t < j < n ==> !Ends(cfg, ls, j)
    ensures After(cfg, ls, n).work.Some?
  {
    hide Step, Ready;
    InvAlways(cfg, ls, n - 1);
    WorkChanges(cfg, After(cfg, ls, n - 1), ls[n - 1]);
    if n > t + 1 {
      StaysInFlight(cfg, ls, t, n - 1);
      assert !Ends(cfg, ls, n - 1);
    } else {
      TakeStarts(cfg, After(cfg, ls, t), ls[t]);
    }
  }

  lemma TakeStarts(cfg: Config, m: Machine, l: Label)
    requires l.Take? && Ready(m.s, l.now)
    ensures Step(cfg, m, l).work.Some?
  {
  }

  /** Between any two attempts the first one ends: attempts never overlap. */
  lemma AttemptsAreSerial(cfg: Config, ls: seq<Label>, t: nat, u: nat)
    requires t < u && Attempts(cfg, ls, t) && Attempts(cfg, ls, u)
    ensures exists j :: t < j < u && Ends(cfg, ls, j)
  {
    hide Step;
    if forall j :: t < j < u ==> !Ends(cfg, ls, j) {
      StaysInFlight(cfg, ls, t, u);
      InvAlways(cfg, ls, u);
      assert false;
    }
  }

  lemma PauseChanges(cfg: Config, m: Machine, l: Label)
    ensures Step(cfg, m, l).s.paused != m.s.paused ==> l.SetPaused? && Step(cfg, m, l).s.paused == l.paused
  {
  }

  /** After a pause no attempt starts until someone unpauses. */
  lemma {:induction false} NoAttemptWhilePaused(cfg: Config, ls: seq<Label>, p: nat, n: nat)
    requires p < n <= |ls| && ls[p].SetPaused? && ls[p].paused && !After(cfg, ls, p).s.stopped
    requires forall k :: p < k < n ==> !(ls[k].SetPaused? && !ls[k].paused)
    ensures After(cfg, ls, n).s.paused && !Attempts(cfg, ls, n)
  {
    if n > p + 1 {
      hide Step;
      NoAttemptWhilePaused(cfg, ls, p, n - 1);
      PauseChanges(cfg, After(cfg, ls, n - 1), ls[n - 1]);
    }
  }

  // ---- retry floor ---------------------------------------------------------------------

  /** How many attempts in a row have failed, counted on the run alone. */
  ghost function FailuresInARow(cfg: Config, ls: seq<Label>, n: nat): nat
    requires n <= |ls|
  {
    if n == 0 then 0
    else if !Ends(cfg, ls, n - 1) then FailuresInARow(cfg, ls, n - 1)
    else if ls[n - 1].outcome.Success? then 0
    else FailuresInARow(cfg, ls, n - 1) + 1
  }

  predicate FailsAt(m: Machine, l: Label) {
    l.Finish? && m.work.Some? && !l.outcome.Success?
  }

  /** The wait after the n-th failure in a row: the n-th backoff delay, the server's Retry-After and
      what the jitter returned, whichever is longest. */
  function Wait(cfg: Config, n: nat, l: Label): int
    requires l.Finish?
  {
    var backoff := Delay(cfg.retryBackoff, cfg.maxRetryBackoff, n);
    Max(l.retryDraw, if l.outcome.RateLimited? then Max(backoff, l.outcome.retryAfter) else backoff)
  }

  lemma RetryStep(cfg: Config, m: Machine, l: Label)
    ensures var after := Step(cfg, m, l).s;
            && (FailsAt(m, l) ==>
                  && after.consecutiveFailures == m.s.consecutiveFailures + 1
                  && after.retryNotBefore == l.now + Wait(cfg, m.s.consecutiveFailures + 1, l))
            && (!(l.Finish? && m.work.Some?) ==>
                  && after.consecutiveFailures == m.s.consecutiveFailures
                  && after.retryNotBefore == m.s.retryNotBefore)
            && (l.Finish? && m.work.Some? && l.outcome.Success? ==>
                  after.consecutiveFailures == 0 && after.retryNotBefore == NEVER)
  {
    hide EnqueueAt, Defer, Settle, Top, Merge, PeriodicAt, Repair;
  }

  lemma {:induction false} FailuresAreCounted(cfg: Config, ls: seq<Label>, n: nat)
    requires n <= |ls|
    ensures After(cfg, ls, n).s.consecutiveFailures == FailuresInARow(cfg, ls, n)
  {
    hide Step;
    if n > 0 {
      FailuresAreCounted(cfg, ls, n - 1);
      RetryStep(cfg, After(cfg, ls, n - 1), ls[n - 1]);
    }
  }

  lemma {:induction false} RetryIsKept(cfg: Config, ls: seq<Label>, j: nat, n: nat)
    requires j < n <= |ls| && Ends(cfg, ls, j)
    requires forall k :: j < k < n ==> !Attempts(cfg, ls, k)
    ensures After(cfg, ls, n).work.None?
    ensures After(cfg, ls, n).s.retryNotBefore == After(cfg, ls, j + 1).s.retryNotBefore
  {
    hide Step, Ready, Inv;
    InvAlways(cfg, ls, n - 1);
    var m := After(cfg, ls, n - 1);
    WorkChanges(cfg, m, ls[n - 1]);
    if n > j + 1 {
      RetryIsKept(cfg, ls, j, n - 1);
      RetryStep(cfg, m, ls[n - 1]);
      assert !Attempts(cfg, ls, n - 1);
    } else {
      FinishEnds(cfg, m, ls[j]);
    }
  }

  lemma FinishEnds(cfg: Config, m: Machine, l: Label)
    requires l.Finish? && m.work.Some?
    ensures Step(cfg, m, l).work.None?
  {
  }

  /** After the n-th failure in a row, the next attempt starts no earlier than the n-th backoff
      delay and no earlier than the server's Retry-After, whatever the jitter functions return. */
  lemma RetryFloor(cfg: Config, ls: seq<Label>, j: nat, t: nat)
    requires j < t && Ends(cfg, ls, j) && !ls[j].outcome.Success? && Attempts(cfg, ls, t)
    requires forall k :: j < k < t ==> !Attempts(cfg, ls, k)
    ensures ls[t].now >= ls[j].now + Delay(cfg.retryBackoff, cfg.maxRetryBackoff, FailuresInARow(cfg, ls, j + 1))
    ensures ls[j].outcome.RateLimited? ==> ls[t].now >= ls[j].now + ls[j].outcome.retryAfter
  {
    hide Step;
    RetryIsKept(cfg, ls, j, t);
    FailuresAreCounted(cfg, ls, j);
    RetryStep(cfg, After(cfg, ls, j), ls[j]);
  }

  /** And no later than that: the wait is exactly the longest of backoff, Retry-After and jitter. */
  lemma RetryIsExact(cfg: Config, ls: seq<Label>, j: nat, n: nat)
    requires j < n <= |ls| && Ends(cfg, ls, j) && !ls[j].outcome.Success?
    requires forall k :: j < k < n ==> !Attempts(cfg, ls, k)
    ensures After(cfg, ls, n).s.retryNotBefore == ls[j].now + Wait(cfg, FailuresInARow(cfg, ls, j + 1), ls[j])
  {
    hide Step;
    RetryIsKept(cfg, ls, j, n);
    FailuresAreCounted(cfg, ls, j);
    RetryStep(cfg, After(cfg, ls, j), ls[j]);
  }

  /** Without a failure since the last success, nothing is held back for a retry. */
  lemma {:induction false} SuccessClearsRetry(cfg: Config, ls: seq<Label>, n: nat)
    requires n <= |ls| && FailuresInARow(cfg, ls, n) == 0
    ensures After(cfg, ls, n).s.retryNotBefore == NEVER
  {
    hide Step;
    if n > 0 {
      if !Ends(cfg, ls, n - 1) {
        SuccessClearsRetry(cfg, ls, n - 1);
      }
      RetryStep(cfg, After(cfg, ls, n - 1), ls[n - 1]);
    }
  }

  /** A batch carries everything pending when it was taken, the number of the attempt and its time. */
  lemma BatchIsLabelled(cfg: Config, ls: seq<Label>, n: nat, i: nat)
    requires n <= |ls| && TakenAt(cfg, ls, n, i)
    ensures var work := After(cfg, ls, n).work.value;
            && work.items == After(cfg, ls, i).s.pending && work.startedAt == ls[i].now
            && work.attempt == FailuresInARow(cfg, ls, i) + 1
  {
    hide Step;
    FailuresAreCounted(cfg, ls, i);
  }

  // ---- bounded debounce ----------------------------------------------------------------

  /** The clock reading a section uses, if it uses one. */
  function Clock(l: Label): int {
    match l
    case Stop => NEVER
    case Exit => NEVER
    case Elsewhere => NEVER
    case _ => l.now
  }

  predicate IsEvent(l: Label) {
    l.Notify? || l.SetPaused? || l.Invalidate?
  }

  /** `notBefore` is never later than the cap of the window, or the newest clock reading. */
  predicate Capped(cfg: Config, d: Debounce, newest: int) {
    d == OPEN || (d.startedAt != NEVER && d.notBefore <= Max(d.startedAt + cfg.maxDebounce, newest))
  }

  lemma DebounceStep(cfg: Config, m: Machine, l: Label, newest: int)
    requires ValidConfig(cfg) && Capped(cfg, m.s.debounce, newest) && Clock(l) <= newest
    ensures var after := Step(cfg, m, l).s.debounce;
            && Capped(cfg, after, newest)
            && (after == OPEN || after.startedAt == m.s.debounce.startedAt
                || (IsEvent(l) && m.s.debounce == OPEN && after.startedAt == l.now))
  {
    hide EnqueueAt, Top, Merge, PeriodicAt, Repair, Reported;
    match l
    case Start(_, _) =>
    case Stop =>
    case Notify(_, _) =>
    case SetPaused(_, _) =>
    case SetCovered(_, _, _, _) =>
    case SetLive(_, _, _, _, _) =>
    case Invalidate(_, _, _, _) =>
    case Take(_) =>
    case Finish(_, _, _, _) =>
    case Timer(_, _) =>
    case Exit =>
    case Elsewhere =>
  }

  /** Label `k` is the first deferred event of the window that is open after `n` labels. */
  ghost predicate WindowOpenedBy(cfg: Config, ls: seq<Label>, n: nat, k: nat)
    requires n <= |ls|
  {
    && k < n && IsEvent(ls[k]) && After(cfg, ls, k).s.debounce == OPEN
    && forall i :: k < i <= n ==>
         After(cfg, ls, i).s.debounce != OPEN && After(cfg, ls, i).s.debounce.startedAt == ls[k].now
  }

  lemma {:induction false} WindowOf(cfg: Config, ls: seq<Label>, n: nat, newest: int) returns (k: nat)
    requires ValidConfig(cfg) && n <= |ls|
    requires forall i :: 0 <= i < n ==> Clock(ls[i]) <= newest
    ensures Capped(cfg, After(cfg, ls, n).s.debounce, newest)
    ensures After(cfg, ls, n).s.debounce != OPEN ==> WindowOpenedBy(cfg, ls, n, k)
  {
    hide Step;
    k := 0;
    if n > 0 {
      k := WindowOf(cfg, ls, n - 1, newest);
      DebounceStep(cfg, After(cfg, ls, n - 1), ls[n - 1], newest);
      if After(cfg, ls, n - 1).s.debounce == OPEN {
        k := n - 1;
      }
    }
  }

  /** However often events arrive: once the clock reaches the first deferred event plus
      maxDebounce, only a pause, a refresh in flight or a retry delay can hold an attempt back. */
  lemma DebounceIsBounded(cfg: Config, ls: seq<Label>, n: nat, now: Instant) returns (k: nat)
    requires ValidConfig(cfg) && n <= |ls| && After(cfg, ls, n).s.debounce != OPEN
    requires forall i :: 0 <= i < n ==> Clock(ls[i]) <= now
    ensures WindowOpenedBy(cfg, ls, n, k) && After(cfg, ls, n).s.pending != map[]
    ensures var s := After(cfg, ls, n).s;
            ls[k].now + cfg.maxDebounce <= now ==>
              (Ready(s, now) <==> !s.paused && !s.inFlight && s.retryNotBefore <= now)
  {
    hide Step;
    InvAlways(cfg, ls, n);
    k := WindowOf(cfg, ls, n, now);
  }

  // ---- the quiet window ------------------------------------------------------------------

  /** `l` defers pending work: an event that queues something. */
  predicate Defers(s: State, l: Label) {
    !s.stopped &&
    match l
    case Notify(_, _) => true
    case SetPaused(paused, _) => s.paused && !paused
    case Invalidate(x, _, _, _) => s.streams.At(x).covered && s.streams.At(x).live
    case _ => false
  }

  lemma DeferSets(cfg: Config, m: Machine, l: Label)
    requires ValidConfig(cfg) && cfg.debounce > 0 && Defers(m.s, l)
    ensures var after := Step(cfg, m, l).s.debounce;
            && after.startedAt == (if m.s.debounce.startedAt == NEVER then l.now else m.s.debounce.startedAt)
            && after.notBefore == Max(Min(l.now + cfg.debounce, after.startedAt + cfg.maxDebounce), l.now)
  {
    hide EnqueueAt, PeriodicAt;
    EnqueuedIsThere(m.s.pending, if l.Notify? then l.reason else if l.Invalidate? && l.reason != Unnamed then l.reason
                    else if l.Invalidate? then ReasonFor(l.x) else Manual, m.s.sequence + 1);
  }

  lemma EnqueuedIsThere(pending: Queue, r: Reason, q: nat)
    ensures EnqueueAt(pending, r, q) != map[]
  {
    assert Normal(r) in EnqueueAt(pending, r, q);
  }

  lemma DebounceKept(cfg: Config, m: Machine, l: Label)
    requires !Defers(m.s, l) && !(l.Take? && Ready(m.s, l.now)) && Step(cfg, m, l).s.pending != map[]
    ensures Step(cfg, m, l).s.debounce == m.s.debounce
  {
    hide EnqueueAt, Top, Merge, PeriodicAt, Repair, Reported, Defer;
  }

  lemma {:induction false} WindowStays(cfg: Config, ls: seq<Label>, k: nat, t: nat)
    requires k < t <= |ls| && forall i :: k < i < t ==> !Defers(After(cfg, ls, i).s, ls[i]) && !Attempts(cfg, ls, i)
    requires forall i :: k < i <= t ==> After(cfg, ls, i).s.pending != map[]
    ensures After(cfg, ls, t).s.debounce == After(cfg, ls, k + 1).s.debounce
  {
    hide Step, Ready, Defers;
    if k + 1 < t {
      WindowStays(cfg, ls, k, t - 1);
      assert !Attempts(cfg, ls, t - 1);
      assert After(cfg, ls, t).s.pending != map[];
      DebounceKept(cfg, After(cfg, ls, t - 1), ls[t - 1]);
    }
  }

  lemma {:induction false} NewestClock(ls: seq<Label>, n: nat) returns (newest: int)
    requires n <= |ls|
    ensures forall i :: 0 <= i < n ==> Clock(ls[i]) <= newest
  {
    newest := NEVER;
    if n > 0 {
      newest := NewestClock(ls, n - 1);
      newest := Max(newest, Clock(ls[n - 1]));
    }
  }

  /** While work stays pending, no attempt starts before the quiet time after the last event is over,
      or the first event of the window is `maxDebounce` old. */
  lemma QuietIsKept(cfg: Config, ls: seq<Label>, k: nat, t: nat) returns (w: nat)
    requires ValidConfig(cfg) && cfg.debounce > 0 && k < t && Attempts(cfg, ls, t) && Defers(After(cfg, ls, k).s, ls[k])
    requires forall i :: k < i < t ==> !Defers(After(cfg, ls, i).s, ls[i]) && !Attempts(cfg, ls, i)
    requires forall i :: k < i <= t ==> After(cfg, ls, i).s.pending != map[]
    ensures WindowOpenedBy(cfg, ls, k + 1, w)
    ensures ls[t].now >= Min(ls[k].now + cfg.debounce, ls[w].now + cfg.maxDebounce)
  {
    hide Step, Defers;
    DeferSets(cfg, After(cfg, ls, k), ls[k]);
    WindowStays(cfg, ls, k, t);
    var newest := NewestClock(ls, k + 1);
    w := WindowOf(cfg, ls, k + 1, newest);
    DeferredHasClock(After(cfg, ls, k).s, ls[k]);
  }

  lemma DeferredHasClock(s: State, l: Label)
    requires Defers(s, l)
    ensures l.Notify? || l.SetPaused? || l.Invalidate?
  {
  }
}
