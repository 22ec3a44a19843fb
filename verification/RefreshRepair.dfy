/** Repair soundness and no lost invalidation, over every run of the coordinator. */
module RefreshRepair {
  import opened Options
  import opened RefreshModel
  import opened RefreshSafety

  /** `l` makes stream `x` stale, or moves it into scope while it is stale: an invalidation,
      a report that needs a full refresh, a coverage change, or going live unrepaired. */
  predicate Unsettles(s: State, l: Label, x: Stream) {
    var state := s.streams.At(x);
    !s.stopped &&
    match l
    case Invalidate(y, _, _, _) => y == x
    case SetLive(y, live, full, _, _) => y == x && (full || (live && !state.live && !state.repaired))
    case SetCovered(y, covered, _, _) => y == x && state.covered != covered
    case _ => false
  }

  // ---- one step ------------------------------------------------------------------------

  /** An unsettled stream is unrepaired, and out of reach of every batch taken before. */
  lemma UnsettledIsFresh(cfg: Config, m: Machine, l: Label, x: Stream)
    requires Inv(m) && Unsettles(m.s, l, x)
    ensures var state := Step(cfg, m, l).s.streams.At(x);
            !state.repaired && (state.covered ==> state.repairSequence > m.s.sequence)
  {
    hide Step, PeriodicAt, EnqueueAt, Defer, Settle;
    StreamWrites(cfg, m, l);
  }

  /** Any other step leaves a covered stream's revision alone. */
  lemma SettledIsKept(cfg: Config, m: Machine, l: Label, x: Stream)
    requires Inv(m) && !Unsettles(m.s, l, x)
    ensures var before, after := m.s.streams.At(x), Step(cfg, m, l).s.streams.At(x);
            && after.covered == before.covered
            && (after.covered ==> after.repairSequence == before.repairSequence)
            && (before.repaired ==> after.repaired)
  {
    hide Step, PeriodicAt, EnqueueAt, Defer, Settle;
    StreamWrites(cfg, m, l);
  }

  lemma OnlySuccessRepairs(cfg: Config, m: Machine, l: Label, x: Stream)
    requires !m.s.streams.At(x).repaired && Step(cfg, m, l).s.streams.At(x).repaired
    ensures l.Finish? && l.outcome.Success? && m.work.Some?
    ensures var state := m.s.streams.At(x);
            state.covered && state.live && state.repairSequence <= m.work.value.sequence
  {
    hide Step, PeriodicAt, EnqueueAt, Defer, Settle;
    StreamWrites(cfg, m, l);
  }

  // ---- the take step behind a batch ----------------------------------------------------

  /** The batch in flight after `n` labels was taken by label `i` and has been in flight since. */
  ghost predicate TakenAt(cfg: Config, ls: seq<Label>, n: nat, i: nat)
    requires n <= |ls|
  {
    && i < n && ls[i].Take?
    && Ready(After(cfg, ls, i).s, ls[i].now)
    && (forall k :: i < k <= n ==>
          After(cfg, ls, k).work == Some(TakeWork(After(cfg, ls, i).s, ls[i].now)))
  }

  /** Only a take step puts a batch in flight, and only a finish ends it. */
  lemma WorkChanges(cfg: Config, m: Machine, l: Label)
    requires Inv(m)
    ensures var after := Step(cfg, m, l).work;
            || after == m.work
            || (l.Take? && Ready(m.s, l.now) && after == Some(TakeWork(m.s, l.now)))
            || (l.Finish? && m.work.Some? && after.None?)
  {
  }

  lemma {:induction false} TakeOf(cfg: Config, ls: seq<Label>, n: nat) returns (i: nat)
    requires n <= |ls| && After(cfg, ls, n).work.Some?
    ensures TakenAt(cfg, ls, n, i)
  {
    hide Step;
    var m := After(cfg, ls, n - 1);
    InvAlways(cfg, ls, n - 1);
    WorkChanges(cfg, m, ls[n - 1]);
    if After(cfg, ls, n).work == m.work {
      i := TakeOf(cfg, ls, n - 1);
    } else {
      i := n - 1;
    }
  }

  /** A batch that reaches a covered stream's revision was taken after everything that
      unsettled the stream. */
  lemma {:induction false} BatchReachesOnlySettled(cfg: Config, ls: seq<Label>, n: nat, i: nat, x: Stream)
    requires n <= |ls| && TakenAt(cfg, ls, n, i)
    requires var m := After(cfg, ls, n);
             m.s.streams.At(x).covered && m.s.streams.At(x).repairSequence <= m.work.value.sequence
    ensures forall k :: i <= k < n ==> !Unsettles(After(cfg, ls, k).s, ls[k], x)
  {
    hide Step;
    if n > i + 1 {
      var m := After(cfg, ls, n - 1);
      InvAlways(cfg, ls, n - 1);
      assert After(cfg, ls, n).work == m.work;
      if Unsettles(m.s, ls[n - 1], x) {
        UnsettledIsFresh(cfg, m, ls[n - 1], x);
        assert false;
      }
      SettledIsKept(cfg, m, ls[n - 1], x);
      BatchReachesOnlySettled(cfg, ls, n - 1, i, x);
    }
  }

  // ---- repair soundness ----------------------------------------------------------------

  /** Label `i` took a batch while stream `x` was live, label `j` finished it successfully, and
      nothing has unsettled the stream from the take until now, after `n` labels. */
  ghost predicate RepairedBy(cfg: Config, ls: seq<Label>, n: nat, x: Stream, i: nat, j: nat)
    requires n <= |ls|
  {
    && i < j < n
    && TakenAt(cfg, ls, j, i)
    && After(cfg, ls, i).s.streams.At(x).live
    && ls[j].Finish? && ls[j].outcome.Success?
    && forall k :: i <= k < n ==> !Unsettles(After(cfg, ls, k).s, ls[k], x)
  }

  /** An unrepaired stream comes up only by a step that unsettles it. */
  lemma ComingUpUnsettles(cfg: Config, m: Machine, l: Label, x: Stream)
    requires !m.s.streams.At(x).live && !m.s.streams.At(x).repaired && Step(cfg, m, l).s.streams.At(x).live
    ensures Unsettles(m.s, l, x)
  {
    hide Step, PeriodicAt, EnqueueAt, Defer, Settle;
    StreamWrites(cfg, m, l);
  }

  /** Where nothing unsettles a stream that is live and unrepaired, it was so before. */
  lemma {:induction false} LiveSince(cfg: Config, ls: seq<Label>, i: nat, n: nat, x: Stream)
    requires i <= n <= |ls| && forall k :: i <= k < n ==> !Unsettles(After(cfg, ls, k).s, ls[k], x)
    requires After(cfg, ls, n).s.streams.At(x).live && !After(cfg, ls, n).s.streams.At(x).repaired
    ensures After(cfg, ls, i).s.streams.At(x).live
  {
    hide Step, Unsettles;
    if i < n {
      InvAlways(cfg, ls, n - 1);
      SettledIsKept(cfg, After(cfg, ls, n - 1), ls[n - 1], x);
      if !After(cfg, ls, n - 1).s.streams.At(x).live {
        ComingUpUnsettles(cfg, After(cfg, ls, n - 1), ls[n - 1], x);
      }
      LiveSince(cfg, ls, i, n - 1, x);
    }
  }

  /** In every interleaving, a stream shown as repaired has had a successful refresh whose
      take step came after everything that unsettled it. */
  lemma {:induction false} RepairSoundness(cfg: Config, ls: seq<Label>, n: nat, x: Stream) returns (i: nat, j: nat)
    requires n <= |ls| && After(cfg, ls, n).s.streams.At(x).repaired
    ensures RepairedBy(cfg, ls, n, x, i, j)
  {
    hide Step, Inv, Unsettles, Ready, TakeWork;
    var m := After(cfg, ls, n - 1);
    InvAlways(cfg, ls, n - 1);
    if Unsettles(m.s, ls[n - 1], x) {
      UnsettledIsFresh(cfg, m, ls[n - 1], x);
      assert false;
    }
    if m.s.streams.At(x).repaired {
      i, j := RepairSoundness(cfg, ls, n - 1, x);
    } else {
      OnlySuccessRepairs(cfg, m, ls[n - 1], x);
      i := TakeOf(cfg, ls, n - 1);
      j := n - 1;
      BatchReachesOnlySettled(cfg, ls, n - 1, i, x);
      LiveSince(cfg, ls, i, n - 1, x);
    }
  }

  /** A refresh already in flight when a stream is unsettled never repairs it. */
  lemma InFlightNeverCounts(cfg: Config, ls: seq<Label>, n: nat, x: Stream, u: nat)
    requires n <= |ls| && u < n && Unsettles(After(cfg, ls, u).s, ls[u], x)
    requires After(cfg, ls, n).s.streams.At(x).repaired
    ensures exists i, j :: u < i < j < n && RepairedBy(cfg, ls, n, x, i, j)
  {
    hide Step;
    var i, j := RepairSoundness(cfg, ls, n, x);
  }

  // ---- no lost invalidation ------------------------------------------------------------

  /** Reason `r` is queued or in flight at revision `q` or later. */
  predicate Held(m: Machine, r: Reason, q: nat) {
    Queued(m.s.pending, r, q) || (m.work.Some? && Queued(m.work.value.items, r, q))
  }

  /** Callers invalidate a stream with that stream's own reason, as the watcher does. */
  predicate OwnReason(l: Label) {
    l.Invalidate? ==> l.reason == Unnamed || l.reason == ReasonFor(l.x)
  }

  predicate Stale(state: StreamState) {
    state.covered && state.live && !state.repaired
  }

  predicate StaleIsHeld(m: Machine, x: Stream) {
    Stale(m.s.streams.At(x)) ==> Held(m, ReasonFor(x), m.s.streams.At(x).repairSequence)
  }

  /** `l` drops the queued reason of a stream that leaves scope. */
  predicate Drops(s: State, l: Label, r: Reason) {
    && !s.stopped
    && ((l.SetCovered? && !l.covered && s.streams.At(l.x).covered && r == ReasonFor(l.x))
        || (l.SetLive? && !l.live && l.full && r == ReasonFor(l.x)))
  }

  /** `l` is the success of a batch that carries `r` at revision `q` or later. */
  predicate Serves(m: Machine, l: Label, r: Reason, q: nat) {
    && l.Finish? && l.outcome.Success?
    && m.work.Some? && Queued(m.work.value.items, r, q)
  }

  predicate Queued(pending: Queue, r: Reason, q: nat) {
    r in pending && pending[r] >= q
  }

  lemma EnqueueHolds(pending: Queue, other: Reason, sequence: nat, r: Reason, q: nat)
    requires Queued(pending, r, q)
    ensures Queued(EnqueueAt(pending, other, sequence), r, q)
  {
  }

  lemma CoverHolds(m: Machine, l: Label, r: Reason, q: nat)
    requires l.SetCovered? && Queued(m.s.pending, r, q) && !Drops(m.s, l, r)
    ensures Queued(CoverStep(m.s, l.x, l.covered, l.now, l.draw).pending, r, q)
  {
  }

  lemma LiveHolds(m: Machine, l: Label, r: Reason, q: nat)
    requires l.SetLive? && Queued(m.s.pending, r, q) && !Drops(m.s, l, r)
    ensures Queued(LiveStep(m.s, l.x, l.live, l.full, l.now, l.draw).pending, r, q)
  {
  }

  lemma QueuedUntilTaken(cfg: Config, m: Machine, l: Label, r: Reason, q: nat)
    requires Queued(m.s.pending, r, q) && !Drops(m.s, l, r) && !l.Take?
    ensures Queued(Step(cfg, m, l).s.pending, r, q)
  {
    hide PeriodicAt, Defer, EnqueueAt, LiveStep, CoverStep;
    var s := m.s;
    match l
    case Start(_, _) => EnqueueHolds(s.pending, Startup, s.sequence + 1, r, q);
    case Stop =>
    case Notify(reason, _) => EnqueueHolds(s.pending, reason, s.sequence + 1, r, q);
    case SetPaused(_, _) => EnqueueHolds(s.pending, Manual, s.sequence + 1, r, q);
    case SetCovered(_, _, _, _) => CoverHolds(m, l, r, q);
    case SetLive(_, _, _, _, _) => LiveHolds(m, l, r, q);
    case Invalidate(x, reason, _, _) =>
      EnqueueHolds(s.pending, if reason == Unnamed then ReasonFor(x) else reason, s.sequence + 1, r, q);
    case Finish(_, _, _, _) =>
    case Timer(_, _) => EnqueueHolds(s.pending, Periodic, s.sequence + 1, r, q);
    case Exit =>
    case Elsewhere =>
  }

  lemma FinishReturns(cfg: Config, m: Machine, l: Label, r: Reason, q: nat)
    requires m.work.Some? && Queued(m.work.value.items, r, q) && l.Finish?
    ensures Queued(Step(cfg, m, l).s.pending, r, q) || Serves(m, l, r, q)
  {
  }

  lemma HeldUntilServed(cfg: Config, m: Machine, l: Label, r: Reason, q: nat)
    requires Inv(m) && Held(m, r, q) && !Drops(m.s, l, r)
    ensures Held(Step(cfg, m, l), r, q) || Serves(m, l, r, q)
  {
    if l.Take? {
    } else if Queued(m.s.pending, r, q) {
      hide Step;
      QueuedUntilTaken(cfg, m, l, r, q);
    } else {
      hide Step;
      WorkChanges(cfg, m, l);
      if l.Finish? {
        FinishReturns(cfg, m, l, r, q);
      }
    }
  }

  lemma UnsettledIsHeld(cfg: Config, m: Machine, l: Label, x: Stream)
    requires Inv(m) && OwnReason(l) && Unsettles(m.s, l, x)
    requires Stale(Step(cfg, m, l).s.streams.At(x))
    ensures Held(Step(cfg, m, l), ReasonFor(x), Step(cfg, m, l).s.streams.At(x).repairSequence)
  {
    hide Step, PeriodicAt, Defer, Settle;
    StreamWrites(cfg, m, l);
  }

  lemma OnlyReportsGoLive(cfg: Config, m: Machine, l: Label, x: Stream)
    requires Inv(m) && !Unsettles(m.s, l, x) && Stale(Step(cfg, m, l).s.streams.At(x))
    ensures Stale(m.s.streams.At(x))
  {
    hide Step, PeriodicAt, Defer, Settle, EnqueueAt;
    StreamWrites(cfg, m, l);
  }

  lemma StaleIsHeldStep(cfg: Config, m: Machine, l: Label, x: Stream)
    requires Inv(m) && OwnReason(l) && StaleIsHeld(m, x)
    ensures StaleIsHeld(Step(cfg, m, l), x)
  {
    var after := Step(cfg, m, l);
    hide Step;
    if Stale(after.s.streams.At(x)) && Unsettles(m.s, l, x) {
      UnsettledIsHeld(cfg, m, l, x);
    } else if Stale(after.s.streams.At(x)) {
      OnlyReportsGoLive(cfg, m, l, x);
      SettledIsKept(cfg, m, l, x);
      assert Stale(m.s.streams.At(x));
      HeldUntilServed(cfg, m, l, ReasonFor(x), m.s.streams.At(x).repairSequence);
      StreamWrites(cfg, m, l);
    }
  }

  /** Invalidating a stream that is in scope under a reason that is not its own leaves it without
      its own rebuild: the caller's choice of reason decides, and nothing else. */
  lemma OwnReasonIsNeeded(cfg: Config, m: Machine, l: Label)
    requires Inv(m) && l.Invalidate? && !m.s.stopped
    requires m.s.streams.At(l.x).covered && m.s.streams.At(l.x).live
    ensures StaleIsHeld(Step(cfg, m, l), l.x) <==> OwnReason(l)
  {
    hide PeriodicAt, Defer;
    var after := Step(cfg, m, l);
    assert after.s.streams.At(l.x).repairSequence == m.s.sequence + 1;
    assert m.work.Some? ==> forall r :: r in m.work.value.items ==> m.work.value.items[r] <= m.s.sequence;
  }

  /** Every covered, live, unrepaired stream has its own rebuild queued or in flight. */
  lemma {:induction false} NoLostInvalidation(cfg: Config, ls: seq<Label>, n: nat, x: Stream)
    requires n <= |ls| && forall k :: 0 <= k < n ==> OwnReason(ls[k])
    ensures StaleIsHeld(After(cfg, ls, n), x)
  {
    hide Step;
    if n > 0 {
      InvAlways(cfg, ls, n - 1);
      NoLostInvalidation(cfg, ls, n - 1, x);
      StaleIsHeldStep(cfg, After(cfg, ls, n - 1), ls[n - 1], x);
    }
  }

  /** `l` asks for work under reason `r`: the first start, a due periodic deadline, the end of a
      pause, or a notification. */
  predicate Asks(s: State, l: Label, r: Reason) {
    match l
    case Start(_, _) => !s.started && !s.stopped && r == Startup
    case Timer(now, _) => NEVER != s.nextPeriodicAt <= now && r == Periodic
    case SetPaused(paused, _) => !s.stopped && s.paused && !paused && r == Manual
    case Notify(reason, _) => !s.stopped && r == Normal(reason)
    case _ => false
  }

  lemma AskedIsHeld(cfg: Config, m: Machine, l: Label, r: Reason)
    requires Inv(m) && Asks(m.s, l, r)
    ensures Held(Step(cfg, m, l), r, m.s.sequence + 1)
  {
    hide Defer, PeriodicAt;
  }

  /** A timer before its deadline, and a second start, change nothing. */
  lemma UnaskedDoesNothing(cfg: Config, m: Machine, l: Label)
    requires (l.Timer? || l.Start?) && forall r :: !Asks(m.s, l, r)
    ensures Step(cfg, m, l) == m
  {
    assert !Asks(m.s, l, Periodic) && !Asks(m.s, l, Startup);
  }

  /** Label `j` is the success of a batch that carries `r` and was taken by label `t`. */
  ghost predicate ServedBy(cfg: Config, ls: seq<Label>, r: Reason, t: nat, j: nat) {
    && t < j < |ls|
    && TakenAt(cfg, ls, j, t)
    && Serves(After(cfg, ls, j), ls[j], r, 0)
  }

  /** Work asked for under a non-stream reason stays queued or in flight until a batch that was
      taken afterwards, and carries that reason, succeeds. */
  lemma {:induction false} NoLostWork(cfg: Config, ls: seq<Label>, i: nat, n: nat, r: Reason)
    requires i < n <= |ls| && Asks(After(cfg, ls, i).s, ls[i], r) && !IsStreamReason(r)
    ensures || Held(After(cfg, ls, n), r, After(cfg, ls, i).s.sequence + 1)
            || exists t: nat, j: nat :: i < t && j < n && ServedBy(cfg, ls, r, t, j)
  {
    hide Step, Asks;
    InvAlways(cfg, ls, i);
    var q := After(cfg, ls, i).s.sequence + 1;
    if n == i + 1 {
      AskedIsHeld(cfg, After(cfg, ls, i), ls[i], r);
    } else {
      NoLostWork(cfg, ls, i, n - 1, r);
      var m := After(cfg, ls, n - 1);
      InvAlways(cfg, ls, n - 1);
      if Held(m, r, q) {
        HeldUntilServed(cfg, m, ls[n - 1], r, q);
        if Serves(m, ls[n - 1], r, q) {
          var t := TakeOf(cfg, ls, n - 1);
          TakenAfter(cfg, ls, n - 1, t, i);
          AskIsNoTake(After(cfg, ls, i).s, ls[i], r);
          assert ServedBy(cfg, ls, r, t, n - 1);
        }
      }
    }
  }

  lemma AskIsNoTake(s: State, l: Label, r: Reason)
    requires Asks(s, l, r)
    ensures !l.Take?
  {
  }

  /** In particular a notification. */
  lemma NoLostNotification(cfg: Config, ls: seq<Label>, i: nat, n: nat)
    requires i < n <= |ls|
    requires ls[i].Notify? && !After(cfg, ls, i).s.stopped && !IsStreamReason(ls[i].reason)
    ensures var r := Normal(ls[i].reason);
            || Held(After(cfg, ls, n), r, After(cfg, ls, i).s.sequence + 1)
            || exists t: nat, j: nat :: i < t && j < n && ServedBy(cfg, ls, r, t, j)
  {
    hide Step;
    NoLostWork(cfg, ls, i, n, Normal(ls[i].reason));
  }

  /** A stream that leaves scope, or loses its place, takes its queued rebuild with it and leaves all
      other work alone. */
  lemma DropsOnlyOwn(cfg: Config, m: Machine, l: Label, r: Reason)
    requires Drops(m.s, l, r)
    ensures Step(cfg, m, l).s.pending == m.s.pending - {r}
  {
    hide PeriodicAt, Settle;
  }

  /** A batch whose sequence exceeds the coordinator's sequence at `i` was taken after `i`. */
  lemma TakenAfter(cfg: Config, ls: seq<Label>, n: nat, t: nat, i: nat)
    requires i < n <= |ls| && TakenAt(cfg, ls, n, t)
    requires After(cfg, ls, i).s.sequence < After(cfg, ls, n).work.value.sequence
    ensures i <= t
  {
    hide Step;
    if t < i {
      InvAlways(cfg, ls, i);
    }
  }
}
