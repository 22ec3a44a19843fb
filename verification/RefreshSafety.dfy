/** The inductive invariant that every coordinator section keeps. */
module RefreshSafety {
  import opened Basics
  import opened Options
  import opened RefreshModel

  predicate StreamInv(s: State, x: Stream) {
    var state := s.streams.At(x);
    && state.repairSequence <= s.sequence
    && (state.covered ==> state.repairSequence > 0)
    && (state.repaired ==> state.covered)
  }

  ghost predicate BatchInv(s: State, work: Option<Work>) {
    && (s.inFlight <==> work.Some?)
    && (work.Some? ==>
          && work.value.items != map[] && Unnamed !in work.value.items
          && IsTop(work.value.items, work.value.sequence)
          && work.value.sequence <= s.sequence)
  }

  predicate QueueInv(s: State) {
    && Unnamed !in s.pending
    && (forall r :: r in s.pending ==> s.pending[r] <= s.sequence)
    // A quiet window is open only while work is pending.
    && (s.debounce != OPEN ==> s.pending != map[])
  }

  ghost predicate Inv(m: Machine) {
    && StreamInv(m.s, Topology) && StreamInv(m.s, Delivery)
    && BatchInv(m.s, m.work)
    && QueueInv(m.s)
  }

  /** The only sections that write the stream table. */
  predicate WritesStreams(m: Machine, l: Label) {
    l.SetCovered? || l.SetLive? || l.Invalidate? || (l.Finish? && l.outcome.Success? && m.work.Some?)
  }

  lemma StreamWrites(cfg: Config, m: Machine, l: Label)
    ensures var after := Step(cfg, m, l);
            && (l.SetCovered? ==> after == m.(s := CoverStep(m.s, l.x, l.covered, l.now, l.draw)))
            && (l.SetLive? ==> after == m.(s := LiveStep(m.s, l.x, l.live, l.full, l.now, l.draw)))
            && (l.Invalidate? ==> after == m.(s := InvalidateStep(cfg, m.s, l.x, l.reason, l.now, l.draw)))
            && (l.Finish? && l.outcome.Success? && m.work.Some? ==>
                  after == Machine(SucceedStep(m.s, m.work.value, l.now, l.draw), None))
            && (!WritesStreams(m, l) ==> after.s.streams == m.s.streams && after.s.sequence >= m.s.sequence)
  {
    hide CoverStep, LiveStep, InvalidateStep, SucceedStep, PeriodicAt, EnqueueAt, Defer, Top, Merge;
    match l
    case Start(_, _) =>
    case Stop =>
    case Notify(_, _) =>
    case SetPaused(_, _) =>
    case Take(_) =>
    case Finish(_, _, _, _) =>
    case Timer(_, _) =>
    case Exit =>
    case _ =>
  }

  /** Queuing keeps the larger sequence of a reason and leaves the others alone. */
  lemma EnqueueIsLargest(pending: Queue, reason: Reason, q: nat, r: Reason)
    ensures var after := EnqueueAt(pending, reason, q);
            && (r in after <==> r in pending || r == Normal(reason))
            && (r in after ==> after[r] == if r != Normal(reason) then pending[r]
                                           else if r in pending then Max(pending[r], q) else q)
  {
  }

  /** A batch that is returned keeps the larger sequence of each reason. */
  lemma MergeIsLargest(pending: Queue, items: Queue, r: Reason)
    ensures var after := Merge(pending, items);
            && (r in after <==> r in pending || r in items)
            && (r in after ==> after[r] == if r !in items then pending[r]
                                           else if r !in pending then items[r] else Max(pending[r], items[r]))
  {
  }

  /** What a queue bounded by `before` becomes stays bounded by `after`. */
  lemma EnqueueIsBounded(pending: Queue, reason: Reason, q: nat, before: nat, after: nat)
    requires before <= after && q <= after
    requires Unnamed !in pending && forall r :: r in pending ==> pending[r] <= before
    ensures EnqueueAt(pending, reason, q) != map[] && Unnamed !in EnqueueAt(pending, reason, q)
    ensures forall r :: r in EnqueueAt(pending, reason, q) ==> EnqueueAt(pending, reason, q)[r] <= after
  {
    assert Normal(reason) in EnqueueAt(pending, reason, q);
  }

  function Normal(r: Reason): Reason {
    if r == Unnamed then Manual else r
  }

  lemma QueueInvStep(cfg: Config, m: Machine, l: Label)
    requires Inv(m)
    ensures QueueInv(Step(cfg, m, l).s)
  {
    hide PeriodicAt, EnqueueAt, CoverStep, LiveStep, InvalidateStep, SucceedStep, FailStep;
    var s := m.s;
    match l
    case Start(_, _) => EnqueueIsBounded(s.pending, Startup, s.sequence + 1, s.sequence, s.sequence + 1);
    case Stop =>
    case Notify(reason, _) => EnqueueIsBounded(s.pending, reason, s.sequence + 1, s.sequence, s.sequence + 1);
    case SetPaused(_, _) => EnqueueIsBounded(s.pending, Manual, s.sequence + 1, s.sequence, s.sequence + 1);
    case SetCovered(_, _, _, _) => CoverKeepsQueue(m, l);
    case SetLive(_, _, _, _, _) => LiveKeepsQueue(m, l);
    case Invalidate(_, _, _, _) => InvalidateKeepsQueue(cfg, m, l);
    case Take(_) =>
    case Finish(_, _, _, _) =>
      if m.work.Some? {
        FinishKeepsQueue(cfg, m, l);
      }
    case Timer(_, _) => EnqueueIsBounded(s.pending, Periodic, s.sequence + 1, s.sequence, s.sequence + 1);
    case Exit =>
    case Elsewhere =>
  }

  lemma CoverKeepsQueue(m: Machine, l: Label)
    requires Inv(m) && l.SetCovered?
    ensures QueueInv(CoverStep(m.s, l.x, l.covered, l.now, l.draw))
  {
    hide PeriodicAt, EnqueueAt;
    EnqueueIsBounded(m.s.pending, ReasonFor(l.x), m.s.sequence + 1, m.s.sequence, m.s.sequence + 1);
  }

  lemma InvalidateKeepsQueue(cfg: Config, m: Machine, l: Label)
    requires Inv(m) && l.Invalidate?
    ensures QueueInv(InvalidateStep(cfg, m.s, l.x, l.reason, l.now, l.draw))
  {
    hide PeriodicAt, EnqueueAt;
    EnqueueIsBounded(m.s.pending, if l.reason == Unnamed then ReasonFor(l.x) else l.reason,
                     m.s.sequence + 1, m.s.sequence, m.s.sequence + 1);
  }

  lemma FinishKeepsQueue(cfg: Config, m: Machine, l: Label)
    requires Inv(m) && l.Finish? && m.work.Some?
    ensures QueueInv(SucceedStep(m.s, m.work.value, l.now, l.draw))
    ensures QueueInv(FailStep(cfg, m.s, m.work.value, l.outcome, l.now, l.retryDraw))
  {
    hide PeriodicAt;
    var r :| r in m.work.value.items;
    assert r in Merge(m.s.pending, m.work.value.items);
  }

  lemma LiveKeepsQueue(m: Machine, l: Label)
    requires Inv(m) && l.SetLive?
    ensures QueueInv(LiveStep(m.s, l.x, l.live, l.full, l.now, l.draw))
  {
    hide PeriodicAt, EnqueueAt;
    var after := LiveStep(m.s, l.x, l.live, l.full, l.now, l.draw);
    if !m.s.stopped {
      EnqueueIsBounded(m.s.pending, ReasonFor(l.x), after.streams.At(l.x).repairSequence, m.s.sequence, after.sequence);
    }
  }

  lemma BatchInvStep(cfg: Config, m: Machine, l: Label)
    requires Inv(m)
    ensures BatchInv(Step(cfg, m, l).s, Step(cfg, m, l).work)
  {
    hide PeriodicAt, EnqueueAt, Defer, Settle;
    match l
    case Start(_, _) =>
    case Stop =>
    case Notify(_, _) =>
    case SetPaused(_, _) =>
    case SetCovered(_, _, _, _) =>
    case SetLive(_, _, _, _, _) =>
    case Invalidate(_, _, _, _) =>
    case Take(_) =>
    case Finish(_, _, _, _) =>
    case Timer(_, _) =>
    case Exit =>
    case Elsewhere =>
  }

  lemma StreamInvStep(cfg: Config, m: Machine, l: Label, x: Stream)
    requires Inv(m)
    ensures StreamInv(Step(cfg, m, l).s, x)
  {
    hide Step, PeriodicAt, EnqueueAt, Defer, Settle;
    StreamWrites(cfg, m, l);
  }

  lemma InvStep(cfg: Config, m: Machine, l: Label)
    requires Inv(m)
    ensures Inv(Step(cfg, m, l))
  {
    hide Step;
    QueueInvStep(cfg, m, l);
    BatchInvStep(cfg, m, l);
    StreamInvStep(cfg, m, l, Topology);
    StreamInvStep(cfg, m, l, Delivery);
  }

  lemma {:induction false} InvAlways(cfg: Config, ls: seq<Label>, n: nat)
    requires n <= |ls|
    ensures Inv(After(cfg, ls, n))
  {
    hide Step;
    if n > 0 {
      InvAlways(cfg, ls, n - 1);
      InvStep(cfg, After(cfg, ls, n - 1), ls[n - 1]);
    }
  }
}
