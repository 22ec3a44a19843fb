/** The coordinator object: mutable fields, updated section by section as in the source,
    each section proved to be one step of the state machine in RefreshModel. */
module RefreshCoordinator {
  import opened Options
  import opened Backoff
  import opened RefreshModel
  import opened RefreshWake

  const SECOND := 1_000_000_000

  function OrDefault(given: int, default_: int): int {
    if given == 0 then default_ else given
  }

  /** Defaults for zero durations, and the checks of the constructor: nothing may be negative, the
      retry cap covers the first retry, and the debounce cap, if there is one, the debounce. */
  method NewConfig(given: Config) returns (cfg: Option<Config>)
    ensures cfg.Some? ==> ValidConfig(cfg.value)
    ensures cfg.Some? ==>
              && cfg.value.fallbackInterval == OrDefault(given.fallbackInterval, 30 * SECOND)
              && cfg.value.healthyInterval == OrDefault(given.healthyInterval, 300 * SECOND)
              && cfg.value.retryBackoff == OrDefault(given.retryBackoff, SECOND)
              && cfg.value.maxRetryBackoff == OrDefault(given.maxRetryBackoff, 30 * SECOND)
              && cfg.value.debounce == given.debounce
              && cfg.value.maxDebounce == OrDefault(given.maxDebounce, given.debounce)
    ensures cfg.Some? <==>
              && given.fallbackInterval >= 0 && given.healthyInterval >= 0
              && given.retryBackoff >= 0 && given.maxRetryBackoff >= 0 && given.debounce >= 0 && given.maxDebounce >= 0
              && OrDefault(given.retryBackoff, SECOND) <= OrDefault(given.maxRetryBackoff, 30 * SECOND)
              && (given.maxDebounce > 0 ==> given.debounce <= given.maxDebounce)
    ensures ValidConfig(given) ==> cfg == Some(given)
  {
    var fallback := if given.fallbackInterval == 0 then 30 * SECOND else given.fallbackInterval;
    var healthy := if given.healthyInterval == 0 then 300 * SECOND else given.healthyInterval;
    var backoff := if given.retryBackoff == 0 then SECOND else given.retryBackoff;
    var maxBackoff := if given.maxRetryBackoff == 0 then 30 * SECOND else given.maxRetryBackoff;
    var maxDebounce := given.maxDebounce;
    if given.debounce > 0 && maxDebounce == 0 {
      maxDebounce := given.debounce;
    }
    if fallback < 0 || healthy < 0 || backoff < 0 || maxBackoff < 0 || given.debounce < 0 || maxDebounce < 0 {
      return None;
    }
    if maxBackoff < backoff {
      return None;
    }
    if given.debounce > 0 && maxDebounce < given.debounce {
      return None;
    }
    return Some(Config(fallback, healthy, backoff, maxBackoff, given.debounce, maxDebounce));
  }

  class Coordinator {
    const cfg: Config
    var pending: Queue
    var sequence: nat
    var streams: Streams
    var started: bool
    var stopped: bool
    var running: bool
    var paused: bool
    var inFlight: bool
    var consecutiveFailures: nat
    var retryNotBefore: int
    var debounce: Debounce
    var nextPeriodicAt: int

    ghost function View(): State
      reads this
    {
      State(pending, sequence, streams, started, stopped, running, paused, inFlight,
            consecutiveFailures, retryNotBefore, debounce, nextPeriodicAt)
    }

    constructor (cfg: Config)
      requires ValidConfig(cfg)
      ensures this.cfg == cfg && View() == INITIAL
    {
      this.cfg := cfg;
      pending, sequence := map[], 0;
      streams := Streams(UNKNOWN_STREAM, UNKNOWN_STREAM);
      started, stopped, running, paused, inFlight := false, false, false, false, false;
      consecutiveFailures, retryNotBefore, debounce, nextPeriodicAt := 0, NEVER, OPEN, NEVER;
    }

    method Start(now: Instant, draw: Draw) returns (signals: bool)
      modifies this
      ensures View() == StartStep(old(View()), now, draw)
      ensures signals == Owes(old(View()), Label.Start(now, draw))
    {
      if started || stopped {
        return false;
      }
      started := true;
      running := true;
      Enqueue(Startup);
      ResetPeriodic(now, draw);
      return true;
    }

    method Notify(reason: Reason, now: Instant) returns (signals: bool)
      modifies this
      ensures View() == NotifyStep(cfg, old(View()), reason, now)
      ensures signals == Owes(old(View()), Label.Notify(reason, now))
    {
      var why := if reason == Unnamed then Manual else reason;
      if stopped {
        return false;
      }
      Enqueue(why);
      DeferPending(now);
      return true;
    }

    method SetPaused(paused: bool, now: Instant) returns (signals: bool)
      modifies this
      ensures View() == PauseStep(cfg, old(View()), paused, now)
      ensures signals == Owes(old(View()), Label.SetPaused(paused, now))
    {
      hide PeriodicAt, Defer, Settle, RefreshModel.EnqueueAt, Streams.At, Streams.Put, ReasonFor;
      if stopped {
        return false;
      }
      var wasPaused := this.paused;
      this.paused := paused;
      if wasPaused && !paused {
        Enqueue(Manual);
        DeferPending(now);
      }
      return wasPaused != paused;
    }

    method SetStreamCovered(x: Stream, covered: bool, now: Instant, draw: Draw) returns (signals: bool)
      modifies this
      ensures View() == CoverStep(old(View()), x, covered, now, draw)
      ensures signals == Owes(old(View()), SetCovered(x, covered, now, draw))
    {
      hide PeriodicAt, Defer, Settle, RefreshModel.EnqueueAt, Streams.At, Streams.Put, ReasonFor;
      if stopped {
        return false;
      }
      var state := streams.At(x);
      if state.covered == covered {
        return false;
      }
      state := state.(covered := covered);
      if !covered {
        state := state.(live := false, repaired := false, repairSequence := 0);
        DropReason(x);
      } else {
        sequence := sequence + 1;
        state := state.(repaired := false, repairSequence := sequence);
        if state.live {
          EnqueueAt(ReasonFor(x), state.repairSequence);
        }
      }
      streams := streams.Put(x, state);
      ResetPeriodic(now, draw);
      return true;
    }

    method SetStreamLive(x: Stream, live: bool, full: bool, now: Instant, draw: Draw) returns (signals: bool)
      modifies this
      ensures View() == LiveStep(old(View()), x, live, full, now, draw)
      ensures signals == Owes(old(View()), SetLive(x, live, full, now, draw))
    {
      hide PeriodicAt, Defer, Settle, RefreshModel.EnqueueAt, Streams.At, Streams.Put, ReasonFor;
      if stopped {
        return false;
      }
      var state := streams.At(x);
      var wasLive := state.live;
      var changed := wasLive != live;
      state := state.(live := live);
      if full {
        sequence := sequence + 1;
        state := state.(repaired := false, repairSequence := sequence);
        changed := true;
        if !live {
          DropReason(x);
        }
      }
      if live && state.covered && !state.repaired {
        state := CrossBarrier(x, state, wasLive);
      }
      streams := streams.Put(x, state);
      if changed {
        ResetPeriodic(now, draw);
      }
      return true;
    }

    method InvalidateStream(x: Stream, reason: Reason, now: Instant, draw: Draw) returns (signals: bool)
      modifies this
      ensures View() == InvalidateStep(cfg, old(View()), x, reason, now, draw)
      ensures signals == Owes(old(View()), Invalidate(x, reason, now, draw))
    {
      hide PeriodicAt, Defer, Settle, RefreshModel.EnqueueAt, Streams.At, Streams.Put, ReasonFor;
      var why := if reason == Unnamed then ReasonFor(x) else reason;
      if stopped {
        return false;
      }
      var state := streams.At(x);
      sequence := sequence + 1;
      state := state.(repaired := false, repairSequence := sequence);
      streams := streams.Put(x, state);
      if state.covered && state.live {
        EnqueueAt(why, state.repairSequence);
        DeferPending(now);
      }
      ResetPeriodic(now, draw);
      return true;
    }

    /** takeWorkLocked: one batch of everything pending, or nothing when an attempt may not start. */
    method TakeWork(now: Instant) returns (work: Option<Work>)
      modifies this
      ensures work.Some? <==> Ready(old(View()), now)
      ensures work.None? ==> View() == old(View())
      ensures work.Some? ==> View() == TakeStep(old(View())) && work.value == RefreshModel.TakeWork(old(View()), now)
    {
      if paused || inFlight || pending == map[] || retryNotBefore > now || debounce.notBefore > now {
        return None;
      }
      var items := pending;
      pending := map[];
      debounce := OPEN;
      inFlight := true;
      var top := Largest(items);
      return Some(Work(items, top, consecutiveFailures + 1, now));
    }

    /** finishWork: a failure returns the batch to the queue and schedules the retry; a success
        repairs every stream whose revision the batch reaches. */
    method FinishWork(work: Work, outcome: Outcome, now: Instant, draw: Draw, retryDraw: int)
      requires ValidConfig(cfg) && Unnamed !in work.items
      modifies this
      ensures !outcome.Success? ==> View() == FailStep(cfg, old(View()), work, outcome, now, retryDraw)
      ensures outcome.Success? ==> View() == SucceedStep(old(View()), work, now, draw)
    {
      hide Merge, PeriodicAt, Delay;
      inFlight := false;
      if !outcome.Success? {
        ReturnBatch(work.items);
        consecutiveFailures := consecutiveFailures + 1;
        var minimum := ExponentialBackoff(cfg.retryBackoff, cfg.maxRetryBackoff, consecutiveFailures);
        if outcome.RateLimited? && outcome.retryAfter > minimum {
          minimum := outcome.retryAfter;
        }
        var delay := retryDraw;
        if delay < minimum {
          delay := minimum;
        }
        retryNotBefore := now + delay;
        return;
      }
      consecutiveFailures := 0;
      retryNotBefore := NEVER;
      streams := Streams(RepairOne(streams.topology, work.sequence), RepairOne(streams.delivery, work.sequence));
      ResetPeriodic(now, draw);
    }

    method HandleTimer(now: Instant, draw: Draw)
      modifies this
      ensures View() == TimerStep(old(View()), now, draw)
    {
      if nextPeriodicAt != NEVER && now >= nextPeriodicAt {
        Enqueue(Periodic);
        ResetPeriodic(now, draw);
      }
    }

    /** nextDeadlineLocked: when the worker must look again. */
    method NextDeadline(now: Instant) returns (deadline: int)
      ensures deadline == RefreshModel.NextDeadline(cfg, View(), now)
    {
      deadline := nextPeriodicAt;
      if deadline == NEVER {
        deadline := now + CurrentInterval(cfg, streams);
      }
      if !paused && pending != map[] {
        var attemptAt: int := now;
        if retryNotBefore > attemptAt {
          attemptAt := retryNotBefore;
        }
        if debounce.notBefore > attemptAt {
          attemptAt := debounce.notBefore;
        }
        if attemptAt < deadline {
          deadline := attemptAt;
        }
      }
    }

    method Enqueue(reason: Reason)
      modifies `sequence, `pending
      ensures sequence == old(sequence) + 1
      ensures pending == RefreshModel.EnqueueAt(old(pending), reason, sequence)
    {
      sequence := sequence + 1;
      EnqueueAt(reason, sequence);
    }

    method EnqueueAt(reason: Reason, at: nat)
      modifies `pending
      ensures pending == RefreshModel.EnqueueAt(old(pending), reason, at)
    {
      var why := if reason == Unnamed then Manual else reason;
      if why !in pending || at > pending[why] {
        pending := pending[why := at];
      }
    }

    /** Queues the rebuild of a live, covered, unrepaired stream, under a new revision when the
        stream has just come live. */
    method CrossBarrier(x: Stream, state: StreamState, wasLive: bool) returns (after: StreamState)
      modifies `sequence, `pending
      ensures if !wasLive || state.repairSequence == 0
              then sequence == old(sequence) + 1 && after == state.(repairSequence := sequence)
              else sequence == old(sequence) && after == state
      ensures pending == RefreshModel.EnqueueAt(old(pending), ReasonFor(x), after.repairSequence)
    {
      after := state;
      if !wasLive || state.repairSequence == 0 {
        sequence := sequence + 1;
        after := state.(repairSequence := sequence);
      }
      EnqueueAt(ReasonFor(x), after.repairSequence);
    }

    method DropReason(x: Stream)
      modifies `pending, `debounce
      ensures pending == old(pending) - {ReasonFor(x)} && debounce == Settle(old(debounce), pending)
    {
      pending := pending - {ReasonFor(x)};
      if pending == map[] {
        debounce := OPEN;
      }
    }

    /** Puts a failed batch back, keeping whichever sequence number is newer. */
    method ReturnBatch(items: Queue)
      requires Unnamed !in items
      modifies `pending
      ensures pending == Merge(old(pending), items)
    {
      var left := items.Keys;
      while left != {}
        invariant left <= items.Keys
        invariant pending == Merge(old(pending), items - left)
        decreases left
      {
        var reason :| reason in left;
        EnqueueAt(reason, items[reason]);
        MergeOneMore(old(pending), items, left, reason);
        left := left - {reason};
      }
      assert items - {} == items;
    }

    method DeferPending(now: Instant)
      modifies `debounce
      ensures debounce == Defer(cfg, old(debounce), pending, now)
    {
      if cfg.debounce <= 0 || pending == map[] {
        return;
      }
      var startedAt := debounce.startedAt;
      if startedAt == NEVER {
        startedAt := now;
      }
      var deadline := now + cfg.debounce;
      if cfg.maxDebounce > 0 {
        var maximum := startedAt + cfg.maxDebounce;
        if deadline > maximum {
          deadline := maximum;
        }
      }
      if deadline < now {
        deadline := now;
      }
      debounce := Debounce(startedAt, deadline);
    }

    method ResetPeriodic(now: Instant, draw: Draw)
      modifies `nextPeriodicAt
      ensures nextPeriodicAt == PeriodicAt(streams, now, draw)
    {
      var interval := Drawn(streams, draw);
      if interval < 0 {
        interval := 0;
      }
      nextPeriodicAt := now + interval;
    }
  }

  lemma TopIsUnique(items: Queue, a: nat, b: nat)
    requires IsTop(items, a) && IsTop(items, b)
    ensures a == b
  {
  }

  method Largest(items: Queue) returns (top: nat)
    ensures top == Top(items)
  {
    top := 0;
    var left := items.Keys;
    while left != {}
      invariant left <= items.Keys
      invariant forall r :: r in items && r !in left ==> items[r] <= top
      invariant top == 0 || exists r :: r in items && items[r] == top
      decreases left
    {
      var r :| r in left;
      if items[r] > top {
        top := items[r];
      }
      left := left - {r};
    }
    if items != map[] {
      var r :| r in items;
      assert items[r] <= top;
      assert top == 0 ==> items[r] == top;
    }
    TopIsUnique(items, top, Top(items));
  }

  lemma MergeOneMore(pending: Queue, items: Queue, left: set<Reason>, reason: Reason)
    requires reason in left && left <= items.Keys
    ensures var before := Merge(pending, items - left);
            Merge(pending, items - (left - {reason})) ==
              if reason !in before || items[reason] > before[reason] then before[reason := items[reason]] else before
  {
  }
}
