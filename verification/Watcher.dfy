/** The subscription watcher: its own table of stream flags, mirrored into whichever refresh
    coordinator is attached, while that coordinator's worker and other callers keep running. */
module Watcher {
  import opened Options
  import opened RefreshModel
  import opened RefreshSafety
  import opened RefreshRepair

  datatype Flags = Flags(covered: bool, live: bool)

  datatype Table = Table(topology: Flags, delivery: Flags) {
    function At(x: Stream): Flags {
      match x case Topology => topology case Delivery => delivery
    }

    function Put(x: Stream, f: Flags): Table {
      match x case Topology => this.(topology := f) case Delivery => this.(delivery := f)
    }
  }

  const DOWN := Flags(false, false)

  /** The flags as a coordinator shows them. */
  function Shown(s: State): Table {
    Table(Flags(s.streams.topology.covered, s.streams.topology.live),
          Flags(s.streams.delivery.covered, s.streams.delivery.live))
  }

  /** A coordinator call that the watcher still has to make while it holds its lock. */
  datatype Call = Cover(x: Stream, covered: bool) | Live(x: Stream, live: bool, full: bool)

  function Flagged(t: Table, c: Call): Table {
    match c
    case Cover(x, covered) => if t.At(x).covered == covered then t else t.Put(x, Flags(covered, covered && t.At(x).live))
    case Live(x, live, _) => t.Put(x, t.At(x).(live := live))
  }

  function Fold(t: Table, calls: seq<Call>): Table
    decreases |calls|
  {
    if calls == [] then t else Fold(Flagged(t, calls[0]), calls[1..])
  }

  function LabelOf(c: Call, now: Instant, draw: Draw): Label {
    match c
    case Cover(x, covered) => SetCovered(x, covered, now, draw)
    case Live(x, live, full) => SetLive(x, live, full, now, draw)
  }

  // ---- the operations, each run under the watcher's lock -------------------------------

  datatype Op =
    | Replace(next: Machine)                     // SetRefreshCoordinator
    | Detach                                     // SetRefreshCoordinator(nil)
    | Configure(topologyCovered: bool)           // initializeStreamCoverage
    | Unconfigure                                // clearStreamCoverage
    | Report(x: Stream, live: bool, full: bool)  // setStreamLive

  datatype WatcherState = WatcherState(
    streams: Table, configured: bool,
    coordinator: Option<Machine>,
    todo: seq<Call>)    // calls left before the lock is released

  const IDLE := WatcherState(Table(DOWN, DOWN), false, None, [])

  function Replay(t: Table): seq<Call> {
    [Cover(Topology, t.topology.covered), Cover(Delivery, t.delivery.covered),
     Live(Topology, t.topology.live, t.topology.live), Live(Delivery, t.delivery.live, t.delivery.live)]
  }

  function Begin(w: WatcherState, op: Op): WatcherState {
    match op
    case Replace(next) => w.(coordinator := Some(next), todo := if w.configured then Replay(w.streams) else [])
    case Detach => w.(coordinator := None)
    case Configure(topologyCovered) =>
      w.(configured := true, streams := Table(Flags(topologyCovered, false), Flags(true, false)),
         todo := if w.coordinator.None? then []
                 else [Live(Topology, false, false), Live(Delivery, false, false),
                       Cover(Topology, topologyCovered), Cover(Delivery, true)])
    case Unconfigure =>
      w.(configured := false, streams := Table(DOWN, DOWN),
         todo := if w.coordinator.None? then []
                 else [Live(Topology, false, false), Live(Delivery, false, false),
                       Cover(Topology, false), Cover(Delivery, false)])
    case Report(x, live, full) =>
      w.(streams := w.streams.Put(x, w.streams.At(x).(live := live)),
         todo := if w.coordinator.None? then [] else [Live(x, live, full)])
  }

  datatype Event =
    | Begins(op: Op)                          // takes the lock
    | Calls(now: Instant, draw: Draw)         // makes the next call
    | Meanwhile(l: Label)                     // a coordinator section run by anyone else

  /** Streams are reported by the watcher alone; message handlers, which invalidate under the
      shared lock, run when no operation holds it. */
  predicate Foreign(w: WatcherState, l: Label) {
    !l.SetCovered? && !l.SetLive? && (l.Invalidate? ==> w.todo == [])
  }

  ghost function Next(cfg: Config, w: WatcherState, e: Event): WatcherState {
    match e
    case Begins(op) => if w.todo == [] then Begin(w, op) else w
    case Calls(now, draw) =>
      if w.todo == [] || w.coordinator.None? then w
      else w.(coordinator := Some(Step(cfg, w.coordinator.value, LabelOf(w.todo[0], now, draw))), todo := w.todo[1..])
    case Meanwhile(l) =>
      if w.coordinator.Some? && Foreign(w, l) then w.(coordinator := Some(Step(cfg, w.coordinator.value, l))) else w
  }

  ghost function Reached(cfg: Config, es: seq<Event>, n: nat): WatcherState
    requires n <= |es|
  {
    if n == 0 then IDLE else Next(cfg, Reached(cfg, es, n - 1), es[n - 1])
  }

  // ---- the mirror ----------------------------------------------------------------------

  /** Once the calls still due are made, the coordinator shows the watcher's flags. */
  predicate Mirrors(w: WatcherState) {
    w.configured && w.coordinator.Some? && !w.coordinator.value.s.stopped ==>
      Fold(Shown(w.coordinator.value.s), w.todo) == w.streams
  }

  lemma CoverShows(s: State, x: Stream, covered: bool, now: Instant, draw: Draw)
    ensures var after := CoverStep(s, x, covered, now, draw);
            after.stopped == s.stopped && (!s.stopped ==> Shown(after) == Flagged(Shown(s), Cover(x, covered)))
  {
    hide PeriodicAt, Settle, EnqueueAt;
  }

  lemma LiveShows(s: State, x: Stream, live: bool, full: bool, now: Instant, draw: Draw)
    ensures var after := LiveStep(s, x, live, full, now, draw);
            after.stopped == s.stopped && (!s.stopped ==> Shown(after) == Flagged(Shown(s), Live(x, live, full)))
  {
    hide PeriodicAt, Settle, EnqueueAt;
  }

  lemma CallShows(cfg: Config, m: Machine, c: Call, now: Instant, draw: Draw)
    ensures var after := Step(cfg, m, LabelOf(c, now, draw)).s;
            after.stopped == m.s.stopped && (!m.s.stopped ==> Shown(after) == Flagged(Shown(m.s), c))
  {
    hide Step, CoverStep, LiveStep, Shown, Flagged;
    StreamWrites(cfg, m, LabelOf(c, now, draw));
    match c
    case Cover(x, covered) => CoverShows(m.s, x, covered, now, draw);
    case Live(x, live, full) => LiveShows(m.s, x, live, full, now, draw);
  }

  lemma InvalidateShows(cfg: Config, s: State, x: Stream, reason: Reason, now: Instant, draw: Draw)
    ensures Shown(InvalidateStep(cfg, s, x, reason, now, draw)) == Shown(s)
    ensures InvalidateStep(cfg, s, x, reason, now, draw).stopped == s.stopped
  {
    hide PeriodicAt, EnqueueAt, Defer;
  }

  lemma SuccessShows(s: State, work: Work, now: Instant, draw: Draw)
    ensures Shown(SucceedStep(s, work, now, draw)) == Shown(s)
    ensures SucceedStep(s, work, now, draw).stopped == s.stopped
  {
    hide PeriodicAt;
  }

  lemma ForeignShows(cfg: Config, m: Machine, l: Label)
    requires !l.SetCovered? && !l.SetLive?
    ensures Shown(Step(cfg, m, l).s) == Shown(m.s)
    ensures m.s.stopped ==> Step(cfg, m, l).s.stopped
  {
    hide PeriodicAt, Settle, EnqueueAt, Defer, Merge, Top, MinimumDelay, TakeWork, Ready;
    hide CoverStep, LiveStep, InvalidateStep, SucceedStep;
    match l
    case Start(_, _) =>
    case Notify(_, _) =>
    case SetPaused(_, _) =>
    case Invalidate(x, reason, now, draw) => InvalidateShows(cfg, m.s, x, reason, now, draw);
    case Take(_) =>
    case Finish(_, now, draw, _) =>
      if m.work.Some? {
        SuccessShows(m.s, m.work.value, now, draw);
      }
    case Timer(_, _) =>
    case _ =>
  }

  lemma FoldHead(t: Table, calls: seq<Call>)
    requires calls != []
    ensures Fold(t, calls) == Fold(Flagged(t, calls[0]), calls[1..])
  {
  }

  lemma FoldFour(t: Table, calls: seq<Call>)
    requires |calls| == 4
    ensures Fold(t, calls) == Flagged(Flagged(Flagged(Flagged(t, calls[0]), calls[1]), calls[2]), calls[3])
  {
    hide Flagged;
    var t1 := Flagged(t, calls[0]);
    var t2 := Flagged(t1, calls[1]);
    var t3 := Flagged(t2, calls[2]);
    FoldHead(t, calls);
    FoldHead(t1, calls[1..]);
    FoldHead(t2, calls[1..][1..]);
    FoldHead(t3, calls[1..][1..][1..]);
    assert calls[1..][1..][1..][1..] == [];
  }

  /** A replacement coordinator in any prior state ends up with the watcher's flags. */
  lemma ReplayShows(t: Table, w: Table)
    ensures Fold(t, Replay(w)) == w
  {
    hide Fold;
    FoldFour(t, Replay(w));
  }

  lemma ConfigureShows(t: Table, topology: bool)
    ensures Fold(t, [Live(Topology, false, false), Live(Delivery, false, false), Cover(Topology, topology), Cover(Delivery, true)])
         == Table(Flags(topology, false), Flags(true, false))
  {
    hide Fold;
    FoldFour(t, [Live(Topology, false, false), Live(Delivery, false, false), Cover(Topology, topology), Cover(Delivery, true)]);
  }

  lemma BeginMirrors(w: WatcherState, op: Op)
    requires Mirrors(w) && w.todo == []
    ensures Mirrors(Begin(w, op))
  {
    var after := Begin(w, op);
    if after.coordinator.Some? {
      var shown := Shown(after.coordinator.value.s);
      match op
      case Replace(_) => ReplayShows(shown, w.streams);
      case Configure(topology) => ConfigureShows(shown, topology);
      case Report(x, live, full) => FoldHead(shown, [Live(x, live, full)]);
      case _ =>
    }
  }

  lemma NextMirrors(cfg: Config, w: WatcherState, e: Event)
    requires Mirrors(w)
    ensures Mirrors(Next(cfg, w, e))
  {
    hide Step, Fold, Flagged, Shown, Begin;
    match e
    case Begins(op) =>
      if w.todo == [] {
        BeginMirrors(w, op);
      }
    case Calls(now, draw) =>
      if w.todo != [] && w.coordinator.Some? {
        CallShows(cfg, w.coordinator.value, w.todo[0], now, draw);
        FoldHead(Shown(w.coordinator.value.s), w.todo);
      }
    case Meanwhile(l) =>
      if w.coordinator.Some? && Foreign(w, l) {
        ForeignShows(cfg, w.coordinator.value, l);
      }
  }

  /** Whenever no operation holds the watcher's lock, streams are configured and the attached
      coordinator is not stopped, that coordinator shows exactly the watcher's flags. */
  lemma {:induction false} WatcherMirror(cfg: Config, es: seq<Event>, n: nat)
    requires n <= |es|
    ensures Mirrors(Reached(cfg, es, n))
    ensures var w := Reached(cfg, es, n);
            w.configured && w.coordinator.Some? && !w.coordinator.value.s.stopped && w.todo == [] ==>
              Shown(w.coordinator.value.s) == w.streams
  {
    hide Step, Flagged, Shown, Begin, Next;
    if n > 0 {
      WatcherMirror(cfg, es, n - 1);
      NextMirrors(cfg, Reached(cfg, es, n - 1), es[n - 1]);
    }
  }

  /** A detached watcher stays detached until a coordinator is set again. */
  lemma {:induction false} DetachLasts(cfg: Config, es: seq<Event>, k: nat, n: nat)
    requires k < n <= |es| && es[k] == Begins(Detach) && Reached(cfg, es, k).todo == []
    requires forall i :: k < i < n ==> !(es[i].Begins? && es[i].op.Replace?)
    ensures Reached(cfg, es, n).coordinator == None && Reached(cfg, es, n).todo == []
  {
    hide Step;
    if k < n - 1 {
      DetachLasts(cfg, es, k, n - 1);
    }
  }

  // ---- what a replacement coordinator must repair --------------------------------------

  /** The replayed report forces a live stream through a repair: from then on the new
      coordinator shows it as repaired only after a refresh taken after the replay succeeded. */
  lemma ReplayForcesRepair(cfg: Config, ls: seq<Label>, u: nat, n: nat, x: Stream, w: Table, now: Instant, draw: Draw)
    requires u < n <= |ls| && w.At(x).live
    requires ls[u] == LabelOf(Replay(w)[if x == Topology then 2 else 3], now, draw)
    requires !After(cfg, ls, u).s.stopped && After(cfg, ls, n).s.streams.At(x).repaired
    ensures exists i, j :: u < i < j < n && RepairedBy(cfg, ls, n, x, i, j)
  {
    hide Step;
    InFlightNeverCounts(cfg, ls, n, x, u);
  }

  /** The replay as one uninterrupted sequence of calls. */
  function Replayed(s: State, x: Stream, w: Flags, now: Instant, draw: Draw): State {
    LiveStep(CoverStep(s, x, w.covered, now, draw), x, w.live, w.live, now, draw)
  }

  lemma LiveTrust(s: State, x: Stream, live: bool, now: Instant, draw: Draw)
    requires !s.stopped
    ensures LiveStep(s, x, live, live, now, draw).streams.At(x).repaired <==> s.streams.At(x).repaired && !live
  {
    hide PeriodicAt, Settle, EnqueueAt;
  }

  /** A stream that is down when the coordinator is replaced keeps the replacement's own idea of
      whether it is repaired: the replay clears that idea exactly when the stream is live or its
      coverage changes. A new coordinator has never repaired anything, so there it is moot. */
  lemma ReplacementTrust(s: State, x: Stream, w: Flags, now: Instant, draw: Draw)
    requires !s.stopped
    ensures Replayed(s, x, w, now, draw).streams.At(x).repaired <==>
              s.streams.At(x).repaired && !w.live && s.streams.At(x).covered == w.covered
  {
    hide PeriodicAt, Settle, EnqueueAt, LiveStep;
    var covered := CoverStep(s, x, w.covered, now, draw);
    LiveTrust(covered, x, w.live, now, draw);
  }

  /** A covered stream that comes back without needing a full refresh is healthy at once if and
      only if it was still shown as repaired. */
  lemma ResumeTrusts(cfg: Config, m: Machine, x: Stream, now: Instant, draw: Draw)
    requires !m.s.stopped && m.s.streams.At(x).covered
    ensures Healthy(Step(cfg, m, SetLive(x, true, false, now, draw)).s.streams.At(x)) <==> m.s.streams.At(x).repaired
  {
    hide Step, PeriodicAt, Settle, EnqueueAt;
    StreamWrites(cfg, m, SetLive(x, true, false, now, draw));
  }

  /** The life of a coordinator that has repaired the topology stream. */
  function PastRun(now: Instant, draw: Draw): seq<Label> {
    [SetCovered(Topology, true, now, draw), SetLive(Topology, true, true, now, draw), Take(now), Finish(Success, now, draw, 0)]
  }

  /** The replay of a topology stream that is down, and the report that it has resumed. */
  function ReplayAndResume(now: Instant, draw: Draw): seq<Label> {
    [SetCovered(Topology, true, now, draw), SetCovered(Delivery, true, now, draw),
     SetLive(Topology, false, false, now, draw), SetLive(Delivery, false, false, now, draw),
     SetLive(Topology, true, false, now, draw)]
  }

  lemma PastRunRepairs(cfg: Config, ls: seq<Label>, now: Instant, draw: Draw)
    requires |ls| >= 4 && ls[..4] == PastRun(now, draw)
    ensures var m := After(cfg, ls, 4);
            m.s.streams.topology == StreamState(true, true, true, 3) && !m.s.stopped
  {
    assert ls[0] == ls[..4][0] && ls[1] == ls[..4][1] && ls[2] == ls[..4][2] && ls[3] == ls[..4][3];
    assert After(cfg, ls, 0) == Machine(INITIAL, None);
    var m1, m2, m3 := After(cfg, ls, 1), After(cfg, ls, 2), After(cfg, ls, 3);
    assert m1.s.streams.topology == StreamState(true, false, false, 1) && m1.s.sequence == 1;
    assert m2.s.streams.topology == StreamState(true, true, false, 3) && m2.s.pending == map[TopologyChange := 3];
    assert m2.s.debounce == OPEN && m2.s.retryNotBefore == NEVER && Ready(m2.s, now);
    assert m3.work == Some(TakeWork(m2.s, now));
    assert IsTop(m2.s.pending, Top(m2.s.pending));
    assert m3.work.value.sequence == 3 by { assert TopologyChange in m2.s.pending; }
  }

  /** A coordinator in that state, attached while the stream is down, shows it as healthy as soon as
      it resumes: in this run no refresh is taken after the replay. */
  lemma StaleReplacementSkipsRepair(cfg: Config, now: Instant, draw: Draw)
    ensures var ls := PastRun(now, draw) + ReplayAndResume(now, draw);
            && Healthy(After(cfg, ls, |ls|).s.streams.topology) && !After(cfg, ls, |ls|).s.stopped
            && forall k :: 4 <= k < |ls| ==> !ls[k].Take?
  {
    var ls := PastRun(now, draw) + ReplayAndResume(now, draw);
    PastRunRepairs(cfg, ls, now, draw);
    assert forall i :: 0 <= i < 5 ==> ls[4 + i] == ReplayAndResume(now, draw)[i];
    hide PeriodicAt, Settle, EnqueueAt;
    assert After(cfg, ls, 5).s.streams.topology == StreamState(true, true, true, 3);
    assert After(cfg, ls, 6).s.streams.topology == StreamState(true, true, true, 3);
    assert After(cfg, ls, 7).s.streams.topology == StreamState(true, false, true, 3);
    assert After(cfg, ls, 8).s.streams.topology == StreamState(true, false, true, 3);
  }
}
