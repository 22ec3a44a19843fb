/** The worker loop and its one-slot wake token. A caller's section and the signal it owes
    are separate steps, as are the worker's check under the lock and its sleep, so a run
    interleaves mutate, signal, check and sleep in every possible way. */
module RefreshWake {
  import opened Options
  import opened Basics
  import opened RefreshModel
  import opened RefreshSafety
  import opened RefreshRepair

  datatype Worker = Absent | Deciding | Sleeping(deadline: int, checkedAt: Instant) | Refreshing | Gone

  /** `owed` counts callers between their unlock and their signal. */
  datatype System = System(m: Machine, wake: bool, owed: nat, worker: Worker)

  const BOOT := System(Machine(INITIAL, None), false, 0, Absent)

  datatype Event =
    | Mutate(l: Label)
    | Signal
    | Check(now: Instant)
    | Done(outcome: Outcome, now: Instant, draw: Draw, retryDraw: int)
    | Woken
    | Fire(now: Instant, draw: Draw)
    | Quit

  /** The caller will signal after this section. */
  predicate Owes(s: State, l: Label) {
    !s.stopped &&
    match l
    case Start(_, _) => !s.started
    case SetPaused(paused, _) => s.paused != paused
    case SetCovered(x, covered, _, _) => s.streams.At(x).covered != covered
    case _ => true
  }

  predicate Enabled(y: System, e: Event) {
    match e
    case Mutate(l) => IsCall(l)
    case Signal => y.owed > 0
    case Check(_) => y.worker.Deciding?
    case Done(_, _, _, _) => y.worker.Refreshing?
    case Woken => y.worker.Sleeping? && y.wake
    case Fire(now, _) => y.worker.Sleeping? && y.worker.deadline <= now
    case Quit => y.worker.Deciding? || y.worker.Sleeping?
  }

  /** One event; an event that is not enabled leaves the system as it is. */
  ghost function Next(cfg: Config, y: System, e: Event): System {
    if !Enabled(y, e) then y else
    match e
    case Mutate(l) =>
      System(Step(cfg, y.m, l), y.wake, if Owes(y.m.s, l) then y.owed + 1 else y.owed,
             if l.Start? && Owes(y.m.s, l) then Deciding else y.worker)
    case Signal => y.(wake := true, owed := y.owed - 1)
    case Check(now) =>
      if Ready(y.m.s, now) then y.(m := Step(cfg, y.m, Take(now)), worker := Refreshing)
      else y.(worker := Sleeping(NextDeadline(cfg, y.m.s, now), now))
    case Done(outcome, now, draw, retryDraw) =>
      y.(m := Step(cfg, y.m, Finish(outcome, now, draw, retryDraw)), worker := Deciding)
    case Woken => y.(wake := false, worker := Deciding)
    case Fire(now, draw) => y.(m := Step(cfg, y.m, Timer(now, draw)), worker := Deciding)
    case Quit => y.(m := Step(cfg, y.m, Exit), worker := Gone)
  }

  /** The system after the first `n` events. */
  ghost function Reached(cfg: Config, es: seq<Event>, n: nat): System
    requires n <= |es|
  {
    if n == 0 then BOOT else Next(cfg, Reached(cfg, es, n - 1), es[n - 1])
  }

  /** A sleep that nobody is about to end was computed from the present state. */
  ghost predicate SleepInv(cfg: Config, y: System) {
    y.worker.Sleeping? ==>
      || y.wake || y.owed > 0
      || (y.worker.deadline == NextDeadline(cfg, y.m.s, y.worker.checkedAt) && !Ready(y.m.s, y.worker.checkedAt))
  }

  ghost predicate SystemInv(cfg: Config, y: System) {
    && Inv(y.m)
    && (y.worker.Refreshing? <==> y.m.work.Some?)
    && (y.worker.Absent? <==> !y.m.s.started)
    && SleepInv(cfg, y)
  }

  /** A call that owes no signal changes nothing. */
  lemma SilentCallsDoNothing(cfg: Config, m: Machine, l: Label)
    requires IsCall(l) && !Owes(m.s, l)
    ensures Step(cfg, m, l) == m
  {
  }

  lemma CallsKeepWork(cfg: Config, m: Machine, l: Label)
    requires IsCall(l)
    ensures Step(cfg, m, l).work == m.work
    ensures Step(cfg, m, l).s.started == (m.s.started || (l.Start? && Owes(m.s, l)))
  {
    hide EnqueueAt, Defer, Settle, PeriodicAt, Reported;
  }

  lemma MutateKeeps(cfg: Config, y: System, l: Label)
    requires SystemInv(cfg, y) && IsCall(l)
    ensures SystemInv(cfg, Next(cfg, y, Mutate(l)))
  {
    hide Step, Inv, NextDeadline, Ready;
    InvStep(cfg, y.m, l);
    CallsKeepWork(cfg, y.m, l);
    if !Owes(y.m.s, l) {
      SilentCallsDoNothing(cfg, y.m, l);
    }
  }

  lemma WorkerKeeps(cfg: Config, y: System, e: Event)
    requires SystemInv(cfg, y) && Enabled(y, e) && !e.Mutate?
    ensures SystemInv(cfg, Next(cfg, y, e))
  {
    hide Inv, NextDeadline, EnqueueAt, PeriodicAt, Merge, Repair;
    match e
    case Check(now) => InvStep(cfg, y.m, Take(now));
    case Done(outcome, now, draw, retryDraw) => InvStep(cfg, y.m, Finish(outcome, now, draw, retryDraw));
    case Fire(now, draw) => InvStep(cfg, y.m, Timer(now, draw));
    case Quit => InvStep(cfg, y.m, Exit);
    case _ =>
  }

  lemma {:induction false} SystemInvAlways(cfg: Config, es: seq<Event>, n: nat)
    requires n <= |es|
    ensures SystemInv(cfg, Reached(cfg, es, n))
  {
    hide Step, Inv, SleepInv, Next, Enabled;
    if n == 0 {
      BootIsSafe(cfg);
    } else {
      SystemInvAlways(cfg, es, n - 1);
      NextKeeps(cfg, Reached(cfg, es, n - 1), es[n - 1]);
    }
  }

  lemma NextKeeps(cfg: Config, y: System, e: Event)
    requires SystemInv(cfg, y)
    ensures SystemInv(cfg, Next(cfg, y, e))
  {
    if !Enabled(y, e) {
    } else if e.Mutate? {
      MutateKeeps(cfg, y, e.l);
    } else {
      WorkerKeeps(cfg, y, e);
    }
  }

  lemma BootIsSafe(cfg: Config)
    ensures SystemInv(cfg, BOOT)
  {
  }

  /** The earliest time at which the pending work of `s` may run. */
  function EarliestAttempt(s: State): int {
    Max(s.retryNotBefore, s.debounce.notBefore)
  }

  /** The worker never spins: with nothing to take and no periodic refresh due, its next deadline lies
      ahead. Without any schedule it is one interval of the current mode away. */
  lemma DeadlineLiesAhead(cfg: Config, s: State, now: Instant)
    requires ValidConfig(cfg) && !s.inFlight && !Ready(s, now)
    requires s.nextPeriodicAt == NEVER || s.nextPeriodicAt > now
    ensures NextDeadline(cfg, s, now) > now
    ensures s.nextPeriodicAt == NEVER && (s.paused || s.pending == map[]) ==>
              NextDeadline(cfg, s, now) == now + (if Healthy(s.streams.topology) && Healthy(s.streams.delivery)
                                                  then cfg.healthyInterval else cfg.fallbackInterval)
  {
  }

  /** Whenever the worker sleeps, either a wake token is set, a caller still owes its signal,
      or it will be up in time for the pending work and for the periodic refresh. */
  lemma NoLostWakeUp(cfg: Config, es: seq<Event>, n: nat)
    requires n <= |es|
    ensures var y := Reached(cfg, es, n);
            y.worker.Sleeping? ==>
              || y.wake || y.owed > 0
              || (&& (!y.m.s.paused && y.m.s.pending != map[] ==> y.worker.deadline <= EarliestAttempt(y.m.s))
                  && (y.m.s.nextPeriodicAt != NEVER ==> y.worker.deadline <= y.m.s.nextPeriodicAt))
  {
    hide Step, Next, Reached, Enabled;
    SystemInvAlways(cfg, es, n);
    var y := Reached(cfg, es, n);
    if y.worker.Sleeping? && !y.wake && y.owed == 0 {
      SleepIsShort(cfg, y.m, y.worker.checkedAt);
    }
  }

  lemma SleepIsShort(cfg: Config, m: Machine, checkedAt: Instant)
    requires !Ready(m.s, checkedAt) && !m.s.inFlight
    ensures !m.s.paused && m.s.pending != map[] ==> NextDeadline(cfg, m.s, checkedAt) <= EarliestAttempt(m.s)
    ensures m.s.nextPeriodicAt != NEVER ==> NextDeadline(cfg, m.s, checkedAt) <= m.s.nextPeriodicAt
  {
  }

  /** Due work is picked up: with no signal outstanding, the sleeping worker can always take a
      step, and the check that follows puts every pending reason in flight. */
  lemma DueWorkIsPickedUp(cfg: Config, es: seq<Event>, n: nat, now: Instant, draw: Draw)
    requires n <= |es|
    requires var y := Reached(cfg, es, n);
             && y.worker.Sleeping? && y.owed == 0
             && !y.m.s.paused && y.m.s.pending != map[] && EarliestAttempt(y.m.s) <= now
    ensures var y := Reached(cfg, es, n);
            var e := if y.wake then Woken else Fire(now, draw);
            Enabled(y, e) &&
            var z := Next(cfg, Next(cfg, y, e), Check(now));
               && z.worker.Refreshing? && z.m.work.Some?
               && forall r :: r in y.m.s.pending ==> Queued(z.m.work.value.items, r, y.m.s.pending[r])
  {
    hide Step, Reached, Next;
    NoLostWakeUp(cfg, es, n);
    SystemInvAlways(cfg, es, n);
    var y := Reached(cfg, es, n);
    if y.wake {
      WakePicksUp(cfg, y, now);
    } else {
      FirePicksUp(cfg, y, now, draw);
    }
  }

  lemma WakePicksUp(cfg: Config, y: System, now: Instant)
    requires y.worker.Sleeping? && y.wake && Ready(y.m.s, now)
    ensures var z := Next(cfg, Next(cfg, y, Woken), Check(now));
            z.worker.Refreshing? && z.m.work.Some? && z.m.work.value.items == y.m.s.pending
  {
  }

  lemma FirePicksUp(cfg: Config, y: System, now: Instant, draw: Draw)
    requires y.worker.Sleeping? && y.worker.deadline <= now && Ready(y.m.s, now)
    ensures var z := Next(cfg, Next(cfg, y, Fire(now, draw)), Check(now));
            && z.worker.Refreshing? && z.m.work.Some?
            && forall r :: r in y.m.s.pending ==> Queued(z.m.work.value.items, r, y.m.s.pending[r])
  {
    hide PeriodicAt, Top;
    var s := TimerStep(y.m.s, now, draw);
    assert Step(cfg, y.m, Timer(now, draw)) == y.m.(s := s);
    forall r | r in y.m.s.pending
      ensures Queued(s.pending, r, y.m.s.pending[r])
    {
      EnqueueHolds(y.m.s.pending, Periodic, y.m.s.sequence + 1, r, y.m.s.pending[r]);
    }
    var q: Reason :| q in y.m.s.pending;
    assert Queued(s.pending, q, y.m.s.pending[q]);
    assert Ready(s, now);
  }
}
