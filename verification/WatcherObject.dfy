/** The watcher object: stream flags and the attached coordinator, updated in place. */
module WatcherObject {
  import opened RefreshModel
  import opened RefreshCoordinator
  import opened Watcher

  /** A lifecycle report from a subscription. */
  datatype Lifecycle = Established(full: bool) | ProgressGap | Retrying | Terminal | Unknown

  datatype MessageKind = Changed | CaughtUp | Failed | Unrecognised

  class SubscriptionWatcher {
    var streams: Table
    var configured: bool
    var coordinator: Coordinator?

    ghost predicate Mirror()
      reads this, coordinator
    {
      configured && coordinator != null && !coordinator.stopped ==> Shown(coordinator.View()) == streams
    }

    constructor ()
      ensures streams == Table(DOWN, DOWN) && !configured && coordinator == null
    {
      streams, configured, coordinator := Table(DOWN, DOWN), false, null;
    }

    /** Attaches a coordinator in any state, replaying the current flags into it. */
    method SetRefreshCoordinator(next: Coordinator?, now: Instant, draw: Draw)
      modifies this, next
      ensures coordinator == next && streams == old(streams) && configured == old(configured)
      ensures Mirror()
      ensures next != null && configured && !old(next.stopped) ==>
                forall x: Stream :: streams.At(x).live ==>
                  && !next.streams.At(x).repaired
                  && next.streams.At(x).repairSequence > old(next.sequence)
      ensures next != null && !configured ==> next.View() == old(next.View())
    {
      hide CoverStep, LiveStep, Shown;
      if next != null && configured {
        ReplayAllShows(next.View(), streams, now, draw);
        var _ := next.SetStreamCovered(Topology, streams.topology.covered, now, draw);
        var _ := next.SetStreamCovered(Delivery, streams.delivery.covered, now, draw);
        var _ := next.SetStreamLive(Topology, streams.topology.live, streams.topology.live, now, draw);
        var _ := next.SetStreamLive(Delivery, streams.delivery.live, streams.delivery.live, now, draw);
      }
      coordinator := next;
    }

    method SetStreamLive(x: Stream, live: bool, full: bool, now: Instant, draw: Draw)
      requires Mirror()
      modifies this, coordinator
      ensures Mirror() && coordinator == old(coordinator) && configured == old(configured)
      ensures streams == old(streams).Put(x, old(streams).At(x).(live := live))
      ensures coordinator != null ==> coordinator.View() == LiveStep(old(coordinator.View()), x, live, full, now, draw)
    {
      hide LiveStep;
      streams := streams.Put(x, streams.At(x).(live := live));
      if coordinator != null {
        LiveShows(coordinator.View(), x, live, full, now, draw);
        var _ := coordinator.SetStreamLive(x, live, full, now, draw);
      }
    }

    method InitializeStreamCoverage(topologyCovered: bool, now: Instant, draw: Draw)
      modifies this, coordinator
      ensures configured && coordinator == old(coordinator)
      ensures streams == Table(Flags(topologyCovered, false), Flags(true, false))
      ensures Mirror()
    {
      configured := true;
      streams := Table(Flags(topologyCovered, false), Flags(true, false));
      if coordinator == null {
        return;
      }
      ResetCoverage(topologyCovered, true, now, draw);
    }

    method ClearStreamCoverage(now: Instant, draw: Draw)
      modifies this, coordinator
      ensures !configured && coordinator == old(coordinator)
      ensures streams == Table(DOWN, DOWN)
      ensures coordinator != null && !coordinator.stopped ==> Shown(coordinator.View()) == streams
    {
      configured := false;
      streams := Table(DOWN, DOWN);
      if coordinator == null {
        return;
      }
      ResetCoverage(false, false, now, draw);
    }

    /** Takes both streams down and sets their coverage. */
    method ResetCoverage(topology: bool, delivery: bool, now: Instant, draw: Draw)
      requires coordinator != null
      modifies coordinator
      ensures coordinator.stopped == old(coordinator.stopped)
      ensures !coordinator.stopped ==>
                Shown(coordinator.View()) == Table(Flags(topology, false), Flags(delivery, false))
    {
      hide CoverStep, LiveStep;
      ghost var s0 := coordinator.View();
      var _ := coordinator.SetStreamLive(Topology, false, false, now, draw);
      ghost var s1 := coordinator.View();
      var _ := coordinator.SetStreamLive(Delivery, false, false, now, draw);
      ghost var s2 := coordinator.View();
      LiveShows(s0, Topology, false, false, now, draw);
      LiveShows(s1, Delivery, false, false, now, draw);
      var _ := coordinator.SetStreamCovered(Topology, topology, now, draw);
      ghost var s3 := coordinator.View();
      var _ := coordinator.SetStreamCovered(Delivery, delivery, now, draw);
      CoverShows(s2, Topology, topology, now, draw);
      CoverShows(s3, Delivery, delivery, now, draw);
    }

    /** handleSubscriptionLifecycle. */
    method HandleLifecycle(x: Stream, event: Lifecycle, now: Instant, draw: Draw)
      requires Mirror()
      modifies this, coordinator
      ensures Mirror() && coordinator == old(coordinator) && configured == old(configured)
      ensures event.Unknown? ==> streams == old(streams)
      ensures !event.Unknown? ==>
                streams == old(streams).Put(x, old(streams).At(x).(live := event.Established?))
      ensures coordinator != null ==>
                var before := old(coordinator.View());
                coordinator.View() ==
                  match event
                  case Established(full) => LiveStep(before, x, true, full, now, draw)
                  case ProgressGap => LiveStep(before, x, false, true, now, draw)
                  case Retrying => LiveStep(before, x, false, false, now, draw)
                  case Terminal =>
                    NotifyStep(coordinator.cfg, LiveStep(before, x, false, false, now, draw), ReasonFor(x), now)
                  case Unknown => before
    {
      hide LiveStep, NotifyStep;
      match event
      case Established(full) => SetStreamLive(x, true, full, now, draw);
      case ProgressGap => SetStreamLive(x, false, true, now, draw);
      case Retrying => SetStreamLive(x, false, false, now, draw);
      case Terminal =>
        SetStreamLive(x, false, false, now, draw);
        if coordinator != null {
          NotifyShows(coordinator.cfg, coordinator.View(), ReasonFor(x), now);
          var _ := coordinator.Notify(ReasonFor(x), now);
        }
      case Unknown =>
    }

    /** handleSubscriptionMessage: a change invalidates the stream under its own reason. */
    method HandleMessage(x: Stream, kind: MessageKind, now: Instant, draw: Draw)
      requires Mirror()
      modifies coordinator
      ensures Mirror()
      ensures coordinator != null ==>
                var before := old(coordinator.View());
                coordinator.View() ==
                  if kind.Changed? then InvalidateStep(coordinator.cfg, before, x, ReasonFor(x), now, draw) else before
    {
      hide InvalidateStep;
      if kind.Changed? && coordinator != null {
        InvalidateShows(coordinator.cfg, coordinator.View(), x, ReasonFor(x), now, draw);
        var _ := coordinator.InvalidateStream(x, ReasonFor(x), now, draw);
      }
    }
  }

  lemma CoverCounts(s: State, x: Stream, covered: bool, now: Instant, draw: Draw)
    ensures s.sequence <= CoverStep(s, x, covered, now, draw).sequence
  {
    hide PeriodicAt, Settle, EnqueueAt;
  }

  /** A full report outdates the stream beyond every earlier revision, and no other. */
  lemma LiveCounts(s: State, x: Stream, live: bool, full: bool, now: Instant, draw: Draw)
    ensures var after := LiveStep(s, x, live, full, now, draw);
            && s.sequence <= after.sequence
            && (!s.stopped && full ==> !after.streams.At(x).repaired && after.streams.At(x).repairSequence > s.sequence)
            && forall y :: y != x ==> after.streams.At(y) == s.streams.At(y)
  {
    hide PeriodicAt, Settle, EnqueueAt;
  }

  /** The four calls of a replay. */
  function ReplayAll(s: State, w: Table, now: Instant, draw: Draw): State {
    var covered := CoverStep(CoverStep(s, Topology, w.topology.covered, now, draw),
                             Delivery, w.delivery.covered, now, draw);
    LiveStep(LiveStep(covered, Topology, w.topology.live, w.topology.live, now, draw),
             Delivery, w.delivery.live, w.delivery.live, now, draw)
  }

  lemma ReplayAllShows(s: State, w: Table, now: Instant, draw: Draw)
    ensures var after := ReplayAll(s, w, now, draw);
            && after.stopped == s.stopped
            && (!s.stopped ==>
                  && Shown(after) == w
                  && forall x: Stream :: w.At(x).live ==>
                       !after.streams.At(x).repaired && after.streams.At(x).repairSequence > s.sequence)
  {
    hide CoverStep, LiveStep;
    var s1 := CoverStep(s, Topology, w.topology.covered, now, draw);
    var s2 := CoverStep(s1, Delivery, w.delivery.covered, now, draw);
    var s3 := LiveStep(s2, Topology, w.topology.live, w.topology.live, now, draw);
    CoverShows(s, Topology, w.topology.covered, now, draw);
    CoverShows(s1, Delivery, w.delivery.covered, now, draw);
    LiveShows(s2, Topology, w.topology.live, w.topology.live, now, draw);
    LiveShows(s3, Delivery, w.delivery.live, w.delivery.live, now, draw);
    CoverCounts(s, Topology, w.topology.covered, now, draw);
    CoverCounts(s1, Delivery, w.delivery.covered, now, draw);
    LiveCounts(s2, Topology, w.topology.live, w.topology.live, now, draw);
    LiveCounts(s3, Delivery, w.delivery.live, w.delivery.live, now, draw);
  }

  lemma NotifyShows(cfg: Config, s: State, reason: Reason, now: Instant)
    ensures Shown(NotifyStep(cfg, s, reason, now)) == Shown(s)
    ensures NotifyStep(cfg, s, reason, now).stopped == s.stopped
  {
  }
}
