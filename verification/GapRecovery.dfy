/** End-to-end recovery from a progress gap: two subscriptions, the watcher that relays their
    reports, and whichever coordinator is attached to it, interleaved in every way. */
module GapRecovery {
  import opened Options
  import opened RefreshModel
  import opened RefreshSafety
  import opened RefreshRepair
  import opened Reconnect
  import S = Subscription
  import W = Watcher

  // ---- the system ----------------------------------------------------------------------

  datatype Subs = Subs(topology: Sub, delivery: Sub) {
    function At(x: Stream): Sub {
      match x case Topology => topology case Delivery => delivery
    }

    function Put(x: Stream, sub: Sub): Subs {
      match x case Topology => this.(topology := sub) case Delivery => this.(delivery := sub)
    }
  }

  /** The subscriptions and the watcher. `hist` is the whole run of the attached coordinator, from
      its creation on; `when` tells for each of its labels the event that ran it, or -1 for those
      before it was attached; `since` is the event that attached it. */
  datatype Mesh = Mesh(subs: Subs, w: W.WatcherState, hist: seq<Label>, when: seq<int>, since: int)

  const START := Mesh(Subs(NEW_SUB, NEW_SUB), W.IDLE, [], [], -1)

  datatype MeshEvent =
    | SubStep(x: Stream, e: SubEvent, now: Instant, draw: Draw)
    | Attach(prior: seq<Label>)              // a coordinator with any past
    | Detach
    | Configure(topologyCovered: bool)
    | Unconfigure
    | Calls(now: Instant, draw: Draw)        // the watcher makes the next call it owes
    | Meanwhile(l: Label)                    // a coordinator section run by anyone else

  /** The watcher operation an event begins, when no other holds the lock. */
  ghost function Begun(cfg: Config, s: Mesh, ev: MeshEvent): Option<W.Op> {
    match ev
    case SubStep(x, e, _, _) =>
      var report := Lifecycle(s.subs.At(x), e);
      if report.Some? then Some(W.Report(x, report.value.0, report.value.1)) else None
    case Attach(prior) => Some(W.Replace(After(cfg, prior, |prior|)))
    case Detach => Some(W.Detach)
    case Configure(topologyCovered) => Some(W.Configure(topologyCovered))
    case Unconfigure => Some(W.Unconfigure)
    case _ => None
  }

  /** The coordinator section an event runs. */
  function Ran(s: Mesh, ev: MeshEvent): Option<Label> {
    if s.w.coordinator.None? then None
    else match ev
      case SubStep(x, e, now, draw) => if s.w.todo == [] then PassedOn(x, s.subs.At(x), e, now, draw) else None
      case Calls(now, draw) => if s.w.todo == [] then None else Some(W.LabelOf(s.w.todo[0], now, draw))
      case Meanwhile(l) => if W.Foreign(s.w, l) then Some(l) else None
      case _ => None
  }

  /** A subscription waits for the lock before it reports or passes anything on. */
  ghost predicate Waits(cfg: Config, s: Mesh, ev: MeshEvent) {
    && s.w.todo != []
    && (Begun(cfg, s, ev).Some? || (ev.SubStep? && PassedOn(ev.x, s.subs.At(ev.x), ev.e, ev.now, ev.draw).Some?))
  }

  ghost function Next(cfg: Config, s: Mesh, ev: MeshEvent, k: nat): Mesh {
    if Waits(cfg, s, ev) then s
    else
      var subs := if ev.SubStep? then s.subs.Put(ev.x, Advance(s.subs.At(ev.x), ev.e)) else s.subs;
      var op, ran := Begun(cfg, s, ev), Ran(s, ev);
      if op.Some? then
        var w := W.Begin(s.w, op.value);
        if ev.Attach? then Mesh(subs, w, ev.prior, seq(|ev.prior|, i => -1), k) else Mesh(subs, w, s.hist, s.when, s.since)
      else if ran.Some? then
        var w := s.w.(coordinator := Some(Step(cfg, s.w.coordinator.value, ran.value)),
                      todo := if ev.Calls? then s.w.todo[1..] else s.w.todo);
        Mesh(subs, w, s.hist + [ran.value], s.when + [k], s.since)
      else
        s.(subs := subs)
  }

  ghost function Run(cfg: Config, es: seq<MeshEvent>, n: nat): Mesh
    requires n <= |es|
  {
    if n == 0 then START else Next(cfg, Run(cfg, es, n - 1), es[n - 1], n - 1)
  }

  // ---- the attached coordinator's run --------------------------------------------------

  lemma {:induction false} AfterPrefix(cfg: Config, ls: seq<Label>, more: seq<Label>, p: nat)
    requires p <= |ls|
    ensures After(cfg, ls + more, p) == After(cfg, ls, p)
  {
    hide Step;
    if p > 0 {
      AfterPrefix(cfg, ls, more, p - 1);
      assert (ls + more)[p - 1] == ls[p - 1];
    }
  }

  /** `hist` is the attached coordinator's run, and `when` orders its labels like the events. */
  ghost predicate Recorded(cfg: Config, s: Mesh, k: nat) {
    && |s.when| == |s.hist| && s.since < k
    && (s.w.coordinator.Some? ==> s.w.coordinator.value == After(cfg, s.hist, |s.hist|))
    && (forall p :: 0 <= p < |s.when| ==> -1 <= s.when[p] < k && (s.when[p] == -1 || s.when[p] > s.since))
    && (forall p, q :: 0 <= p < q < |s.when| && s.when[p] >= 0 ==> s.when[p] < s.when[q])
    && (s.w.coordinator.None? ==> s.w.todo == [])
  }

  lemma RecordedStep(cfg: Config, s: Mesh, ev: MeshEvent, k: nat)
    requires Recorded(cfg, s, k)
    ensures Recorded(cfg, Next(cfg, s, ev, k), k + 1)
  {
    hide Step, After, Advance, Lifecycle, PassedOn, W.LabelOf, W.Foreign, W.Replay;
    var ran := Ran(s, ev);
    if ran.Some? {
      AfterAppend(cfg, s.hist, ran.value);
    }
  }

  lemma AfterAppend(cfg: Config, ls: seq<Label>, l: Label)
    ensures After(cfg, ls + [l], |ls| + 1) == Step(cfg, After(cfg, ls, |ls|), l)
  {
    hide Step;
    AfterPrefix(cfg, ls, [l], |ls|);
  }

  lemma {:induction false} RecordedAlways(cfg: Config, es: seq<MeshEvent>, n: nat)
    requires n <= |es|
    ensures Recorded(cfg, Run(cfg, es, n), n)
  {
    hide Next;
    if n > 0 {
      RecordedAlways(cfg, es, n - 1);
      RecordedStep(cfg, Run(cfg, es, n - 1), es[n - 1], n - 1);
    }
  }

  /** Every recorded label was run by the event recorded with it. */
  ghost predicate Traced(cfg: Config, es: seq<MeshEvent>, n: nat, hist: seq<Label>, when: seq<int>)
    requires n <= |es|
  {
    forall p :: 0 <= p < |hist| && p < |when| && 0 <= when[p] < n ==>
      Ran(Run(cfg, es, when[p]), es[when[p]]) == Some(hist[p])
  }

  /** What an event does to the record. */
  lemma RecordChanges(cfg: Config, s: Mesh, ev: MeshEvent, k: nat)
    ensures var after := Next(cfg, s, ev, k);
            || (after.hist == s.hist && after.when == s.when && after.since == s.since)
            || (ev.Attach? && s.w.todo == [] && after.hist == ev.prior && after.since == k
                && |after.when| == |after.hist| && forall p :: 0 <= p < |after.when| ==> after.when[p] == -1)
            || (Ran(s, ev).Some? && after.hist == s.hist + [Ran(s, ev).value] && after.when == s.when + [k]
                && after.since == s.since)
  {
    hide Step, After, Advance, Lifecycle, PassedOn, W.LabelOf, W.Foreign, W.Replay, W.Begin;
  }

  lemma {:induction false} TracedAlways(cfg: Config, es: seq<MeshEvent>, n: nat)
    requires n <= |es|
    ensures Traced(cfg, es, n, Run(cfg, es, n).hist, Run(cfg, es, n).when)
  {
    hide Next, Ran;
    if n > 0 {
      TracedAlways(cfg, es, n - 1);
      RecordedAlways(cfg, es, n - 1);
      RecordChanges(cfg, Run(cfg, es, n - 1), es[n - 1], n - 1);
    }
  }

  // ---- establishment -------------------------------------------------------------------

  ghost predicate EstablishesAt(cfg: Config, es: seq<MeshEvent>, e: nat, x: Stream) {
    && e < |es| && es[e].SubStep? && es[e].x == x
    && Establishes(Run(cfg, es, e).subs.At(x), es[e].e) && Run(cfg, es, e).w.todo == []
  }

  /** The subscription was established after event `g` and before event `k`. */
  ghost predicate Established(cfg: Config, es: seq<MeshEvent>, g: nat, k: int, x: Stream) {
    exists e :: g < e < k && EstablishesAt(cfg, es, e, x)
  }

  /** The watcher holds or relays the flag "live" only after an establishment. */
  ghost predicate LiveIsEarned(cfg: Config, es: seq<MeshEvent>, g: nat, k: nat, x: Stream)
    requires k <= |es|
  {
    var w := Run(cfg, es, k).w;
    && (w.streams.At(x).live ==> Established(cfg, es, g, k, x))
    && (forall full :: W.Live(x, true, full) in w.todo ==> Established(cfg, es, g, k, x))
  }

  /** What an event does to the flag and to the calls owed. */
  lemma WatchChanges(cfg: Config, s: Mesh, ev: MeshEvent, k: nat, x: Stream)
    ensures var w := Next(cfg, s, ev, k).w;
            && (w.streams.At(x).live && !s.w.streams.At(x).live ==>
                  ev.SubStep? && ev.x == x && Establishes(s.subs.At(x), ev.e) && s.w.todo == [])
            && (forall full :: W.Live(x, true, full) in w.todo ==>
                  W.Live(x, true, full) in s.w.todo || w.streams.At(x).live)
  {
    hide Step, After, Advance, PassedOn, W.LabelOf, W.Foreign, Establishes;
  }

  lemma {:induction false} LiveIsEarnedAlways(cfg: Config, es: seq<MeshEvent>, g: nat, k: nat, x: Stream)
    requires g < k <= |es| && GapAt(cfg, es, g, x)
    ensures LiveIsEarned(cfg, es, g, k, x)
  {
    hide Next, Establishes;
    if k == g + 1 {
      GapBegins(cfg, Run(cfg, es, g), es[g], g, x);
    } else {
      LiveIsEarnedAlways(cfg, es, g, k - 1, x);
      WatchChanges(cfg, Run(cfg, es, k - 1), es[k - 1], k - 1, x);
      assert Established(cfg, es, g, k - 1, x) ==> Established(cfg, es, g, k, x);
      if Run(cfg, es, k).w.streams.At(x).live && !Run(cfg, es, k - 1).w.streams.At(x).live {
        assert EstablishesAt(cfg, es, k - 1, x);
      }
    }
  }

  /** Event `g` reports a progress gap of stream `x`. */
  ghost predicate GapAt(cfg: Config, es: seq<MeshEvent>, g: nat, x: Stream) {
    && g < |es| && es[g].SubStep? && es[g].x == x
    && ReportsProgressGap(Run(cfg, es, g).subs.At(x), es[g].e) && Run(cfg, es, g).w.todo == []
  }

  lemma GapBegins(cfg: Config, s: Mesh, ev: MeshEvent, k: nat, x: Stream)
    requires ev.SubStep? && ev.x == x && ReportsProgressGap(s.subs.At(x), ev.e) && s.w.todo == []
    ensures var w := Next(cfg, s, ev, k).w;
            && !w.streams.At(x).live && w.coordinator == s.w.coordinator
            && w.todo == if w.coordinator.None? then [] else [W.Live(x, false, true)]
  {
    hide Step, After, Advance, PassedOn, W.LabelOf, W.Foreign;
  }

  // ---- a coordinator that was there when the gap was reported ----------------------------

  /** At position `q` of its run the stream was down and unrepaired, and all of its run from there
      on came after the gap. */
  ghost predicate DownAt(cfg: Config, s: Mesh, g: nat, x: Stream, q: nat) {
    && q <= |s.hist| && |s.when| == |s.hist|
    && !After(cfg, s.hist, q).s.streams.At(x).live && !After(cfg, s.hist, q).s.streams.At(x).repaired
    && forall p :: q <= p < |s.hist| ==> s.when[p] > g
  }

  /** Unless it was attached since, or is stopped, the coordinator is owed the gap report or has had
      it. */
  ghost predicate FacesGap(cfg: Config, s: Mesh, g: nat, x: Stream) {
    || s.since > g || s.w.coordinator.None? || s.w.coordinator.value.s.stopped
    || W.Live(x, false, true) in s.w.todo
    || exists q :: DownAt(cfg, s, g, x, q)
  }

  /** The record only grows, so what it shows stays. */
  lemma GrownKeeps(cfg: Config, s: Mesh, after: Mesh, g: nat, x: Stream, l: Label, k: nat)
    requires |s.hist| == |s.when| && after.hist == s.hist + [l] && after.when == s.when + [k] && g < k
    ensures forall q :: DownAt(cfg, s, g, x, q) ==> DownAt(cfg, after, g, x, q)
  {
    hide After;
    forall p | 0 <= p <= |s.hist| ensures After(cfg, after.hist, p) == After(cfg, s.hist, p) {
      AfterPrefix(cfg, s.hist, [l], p);
    }
  }

  lemma SameKeeps(cfg: Config, s: Mesh, after: Mesh, g: nat, x: Stream)
    ensures s.hist == after.hist && s.when == after.when ==> forall q :: DownAt(cfg, s, g, x, q) ==> DownAt(cfg, after, g, x, q)
  {
  }

  lemma {:induction false} StoppedStays(cfg: Config, m: Machine, l: Label)
    requires m.s.stopped
    ensures Step(cfg, m, l).s.stopped
  {
    match l
    case SetCovered(_, _, _, _) =>
    case SetLive(_, _, _, _, _) =>
    case _ => W.ForeignShows(cfg, m, l);
  }

  lemma CallRecord(cfg: Config, s: Mesh, ev: MeshEvent, k: nat)
    requires ev.Calls? && s.w.todo != [] && s.w.coordinator.Some?
    ensures var l := W.LabelOf(s.w.todo[0], ev.now, ev.draw);
            Next(cfg, s, ev, k) ==
              Mesh(s.subs, s.w.(coordinator := Some(Step(cfg, s.w.coordinator.value, l)), todo := s.w.todo[1..]),
                   s.hist + [l], s.when + [k], s.since)
  {
    hide Step;
  }

  lemma ReportEffect(cfg: Config, m: Machine, x: Stream, live: bool, full: bool, now: Instant, draw: Draw)
    requires !m.s.stopped
    ensures var l := SetLive(x, live, full, now, draw);
            var before, after := m.s.streams.At(x), Step(cfg, m, l).s.streams.At(x);
            && (full ==> Unsettles(m.s, l, x))
            && after.live == live && after.covered == before.covered && (after.repaired <==> before.repaired && !full)
  {
    hide Step, PeriodicAt, Settle, EnqueueAt;
    StreamWrites(cfg, m, SetLive(x, live, full, now, draw));
  }

  /** The gap report reaches the coordinator. */
  lemma CallFaces(cfg: Config, s: Mesh, ev: MeshEvent, k: nat, g: nat, x: Stream)
    requires g < k && Recorded(cfg, s, k) && ev.Calls? && s.w.todo != [] && s.w.todo[0] == W.Live(x, false, true)
    requires s.w.coordinator.Some? && !s.w.coordinator.value.s.stopped
    ensures FacesGap(cfg, Next(cfg, s, ev, k), g, x)
  {
    hide Step, Unsettles, Next, After;
    CallRecord(cfg, s, ev, k);
    var after, u := Next(cfg, s, ev, k), |s.hist|;
    AfterAppend(cfg, s.hist, SetLive(x, false, true, ev.now, ev.draw));
    ReportEffect(cfg, After(cfg, s.hist, u), x, false, true, ev.now, ev.draw);
    assert DownAt(cfg, after, g, x, u + 1);
  }

  /** What an event other than a call owed does to the watcher. */
  lemma WatchFrame(cfg: Config, s: Mesh, ev: MeshEvent, k: nat)
    requires !ev.Calls? || s.w.todo == [] || s.w.coordinator.None?
    ensures var after := Next(cfg, s, ev, k);
            || after.since == k
            || (&& after.since == s.since && (s.w.todo != [] ==> after.w.todo == s.w.todo)
                && (|| (after.hist == s.hist && after.when == s.when
                        && (after.w.coordinator == s.w.coordinator || after.w.coordinator.None?))
                    || (&& s.w.coordinator.Some? && Ran(s, ev).Some?
                        && after.hist == s.hist + [Ran(s, ev).value] && after.when == s.when + [k]
                        && after.w.coordinator == Some(Step(cfg, s.w.coordinator.value, Ran(s, ev).value)))))
  {
    hide Step, After, Advance, Lifecycle, PassedOn, W.LabelOf, W.Foreign;
  }

  lemma FacesCall(cfg: Config, s: Mesh, ev: MeshEvent, k: nat, g: nat, x: Stream)
    requires g < k && Recorded(cfg, s, k) && FacesGap(cfg, s, g, x)
    requires ev.Calls? && s.w.todo != [] && s.w.coordinator.Some?
    ensures FacesGap(cfg, Next(cfg, s, ev, k), g, x)
  {
    hide Step, Next, After, W.LabelOf, DownAt;
    CallRecord(cfg, s, ev, k);
    var l, c := W.LabelOf(s.w.todo[0], ev.now, ev.draw), s.w.todo[0];
    GrownKeeps(cfg, s, Next(cfg, s, ev, k), g, x, l, k);
    if s.w.coordinator.value.s.stopped {
      StoppedStays(cfg, s.w.coordinator.value, l);
    } else if c == W.Live(x, false, true) {
      CallFaces(cfg, s, ev, k, g, x);
    } else {
      assert s.w.todo == [c] + s.w.todo[1..];
    }
  }

  lemma FacesOther(cfg: Config, s: Mesh, ev: MeshEvent, k: nat, g: nat, x: Stream)
    requires g < k && Recorded(cfg, s, k) && FacesGap(cfg, s, g, x)
    requires !ev.Calls? || s.w.todo == [] || s.w.coordinator.None?
    ensures FacesGap(cfg, Next(cfg, s, ev, k), g, x)
  {
    hide Step, Next, After, DownAt, Ran;
    var after := Next(cfg, s, ev, k);
    WatchFrame(cfg, s, ev, k);
    SameKeeps(cfg, s, after, g, x);
    if Ran(s, ev).Some? && after.hist == s.hist + [Ran(s, ev).value] && after.when == s.when + [k] {
      GrownKeeps(cfg, s, after, g, x, Ran(s, ev).value, k);
    }
    if s.w.coordinator.Some? && s.w.coordinator.value.s.stopped && Ran(s, ev).Some? {
      StoppedStays(cfg, s.w.coordinator.value, Ran(s, ev).value);
    }
  }

  lemma {:induction false} FacesAlways(cfg: Config, es: seq<MeshEvent>, g: nat, k: nat, x: Stream)
    requires g < k <= |es| && GapAt(cfg, es, g, x)
    ensures FacesGap(cfg, Run(cfg, es, k), g, x)
  {
    hide Next, FacesGap;
    var s := Run(cfg, es, k - 1);
    if k == g + 1 {
      GapBegins(cfg, s, es[g], g, x);
      GapFaced(cfg, Run(cfg, es, k), g, x);
    } else {
      FacesAlways(cfg, es, g, k - 1, x);
      RecordedAlways(cfg, es, k - 1);
      if es[k - 1].Calls? && s.w.todo != [] && s.w.coordinator.Some? {
        FacesCall(cfg, s, es[k - 1], k - 1, g, x);
      } else {
        FacesOther(cfg, s, es[k - 1], k - 1, g, x);
      }
    }
  }

  lemma GapFaced(cfg: Config, s: Mesh, g: nat, x: Stream)
    requires s.w.todo == if s.w.coordinator.None? then [] else [W.Live(x, false, true)]
    ensures FacesGap(cfg, s, g, x)
  {
  }

  // ---- recovery --------------------------------------------------------------------------

  /** The attached coordinator took a batch at event `t`, after a re-establishment at event `e`, and
      finished it successfully at event `j`; nothing has unsettled the stream since the take. */
  ghost predicate Refreshed(cfg: Config, es: seq<MeshEvent>, g: nat, n: nat, x: Stream, e: nat, t: nat, j: nat)
    requires n <= |es|
  {
    && g < e < t < j < n && EstablishesAt(cfg, es, e, x)
    && es[t].Meanwhile? && es[t].l.Take?
    && es[j].Meanwhile? && es[j].l.Finish? && es[j].l.outcome.Success?
    && var s := Run(cfg, es, n);
       exists p, q :: && 0 <= p < q < |s.hist| == |s.when| && s.when[p] == t && s.when[q] == j
                      && RepairedBy(cfg, s.hist, |s.hist|, x, p, q)
  }

  ghost predicate Recovered(cfg: Config, es: seq<MeshEvent>, g: nat, n: nat, x: Stream)
    requires n <= |es|
  {
    exists e, t, j :: Refreshed(cfg, es, g, n, x, e, t, j)
  }

  /** A label that only the worker runs was run by the worker's event. */
  lemma RanByWorker(s: Mesh, ev: MeshEvent)
    requires Ran(s, ev).Some? && (Ran(s, ev).value.Take? || Ran(s, ev).value.Finish?)
    ensures ev == Meanwhile(Ran(s, ev).value)
  {
    hide W.Foreign;
  }

  /** A live report is a call the watcher owed. */
  lemma RanByCall(s: Mesh, ev: MeshEvent, x: Stream)
    requires Ran(s, ev).Some? && ReportsLive(Ran(s, ev).value, x)
    ensures ev.Calls? && s.w.todo != [] && s.w.todo[0] == W.Live(x, true, Ran(s, ev).value.full)
  {
  }

  /** From positions in the coordinator's run to events. */
  lemma BackToEvents(cfg: Config, es: seq<MeshEvent>, g: nat, n: nat, x: Stream, e: nat, p: nat, q: nat)
    requires g < n <= |es| && g < e && EstablishesAt(cfg, es, e, x)
    requires var s := Run(cfg, es, n);
             && p < q < |s.hist| == |s.when| && s.when[p] > e && s.when[q] > s.when[p]
             && RepairedBy(cfg, s.hist, |s.hist|, x, p, q)
    ensures Recovered(cfg, es, g, n, x)
  {
    hide Next, After, Ran, TakeWork, Ready, Unsettles, EstablishesAt;
    var s := Run(cfg, es, n);
    RecordedAlways(cfg, es, n);
    TracedAlways(cfg, es, n);
    var t, j := s.when[p], s.when[q];
    RanByWorker(Run(cfg, es, t), es[t]);
    RanByWorker(Run(cfg, es, j), es[j]);
    assert Refreshed(cfg, es, g, n, x, e, t, j);
  }

  // ---- a coordinator attached since the gap ----------------------------------------------

  /** Its run begins with its past, and what came after has been recorded. */
  ghost predicate KeepsPast(es: seq<MeshEvent>, s: Mesh) {
    s.since >= 0 ==>
      && s.since < |es| && es[s.since].Attach? && es[s.since].prior <= s.hist && |s.when| == |s.hist|
      && forall p :: 0 <= p < |s.when| ==> (s.when[p] == -1 <==> p < |es[s.since].prior|)
  }

  lemma {:induction false} KeepsPastAlways(cfg: Config, es: seq<MeshEvent>, n: nat)
    requires n <= |es|
    ensures KeepsPast(es, Run(cfg, es, n))
  {
    hide Next, Ran;
    if n > 0 {
      KeepsPastAlways(cfg, es, n - 1);
      RecordChanges(cfg, Run(cfg, es, n - 1), es[n - 1], n - 1);
    }
  }

  predicate ReportsOn(l: Label, x: Stream) {
    l.SetLive? && l.x == x
  }

  /** The refresh that repaired the stream was taken before the watcher first told the coordinator,
      attached since the gap, anything about that stream. */
  ghost predicate TrustsPast(cfg: Config, s: Mesh, g: nat, x: Stream) {
    && s.since > g && |s.when| == |s.hist|
    && exists p, q :: && RepairedBy(cfg, s.hist, |s.hist|, x, p, q)
                      && forall r :: 0 <= r < p && s.when[r] >= 0 ==> !ReportsOn(s.hist[r], x)
  }

  lemma {:induction false} NeverStopped(cfg: Config, ls: seq<Label>, a: nat, n: nat)
    requires a <= n <= |ls| && !After(cfg, ls, n).s.stopped
    ensures !After(cfg, ls, a).s.stopped
  {
    hide Step;
    if a < n {
      if After(cfg, ls, n - 1).s.stopped {
        StoppedStays(cfg, After(cfg, ls, n - 1), ls[n - 1]);
      }
      NeverStopped(cfg, ls, a, n - 1);
    }
  }

  /** A live stream on which there has been no report since position `a` was live there. */
  lemma {:induction false} LiveUnreported(cfg: Config, ls: seq<Label>, a: nat, n: nat, x: Stream)
    requires a <= n <= |ls| && After(cfg, ls, n).s.streams.At(x).live
    requires forall k :: a <= k < n ==> !ReportsOn(ls[k], x)
    ensures After(cfg, ls, a).s.streams.At(x).live
  {
    hide Step;
    if a < n {
      if !After(cfg, ls, n - 1).s.streams.At(x).live {
        GoingLive(cfg, After(cfg, ls, n - 1), ls[n - 1], x);
      }
      LiveUnreported(cfg, ls, a, n - 1, x);
    }
  }

  /** The last report by the watcher before position `p`. */
  lemma {:induction false} LastReport(s: Mesh, x: Stream, p: nat, r0: nat) returns (r: nat)
    requires r0 < p <= |s.hist| == |s.when| && ReportsOn(s.hist[r0], x) && s.when[r0] >= 0
    requires forall a, b :: 0 <= a < b < |s.when| && s.when[a] >= 0 ==> s.when[a] < s.when[b]
    ensures r < p && ReportsOn(s.hist[r], x) && s.when[r] >= 0
    ensures forall k :: r < k < p ==> !ReportsOn(s.hist[k], x)
    decreases p - r0
  {
    if k: nat :| r0 < k < p && ReportsOn(s.hist[k], x) {
      r := LastReport(s, x, p, k);
    } else {
      r := r0;
    }
  }

  /** If the watcher had reported on the stream before the take, its last report was that the stream
      is live, so the subscription had been re-established. */
  lemma ReportedRecovers(cfg: Config, es: seq<MeshEvent>, g: nat, n: nat, x: Stream, p: nat, q: nat, r0: nat)
    requires g < n <= |es| && GapAt(cfg, es, g, x)
    requires var s := Run(cfg, es, n);
             && s.since > g && !After(cfg, s.hist, |s.hist|).s.stopped && RepairedBy(cfg, s.hist, |s.hist|, x, p, q)
             && r0 < p && |s.when| == |s.hist| && s.when[r0] >= 0 && ReportsOn(s.hist[r0], x)
    ensures Recovered(cfg, es, g, n, x)
  {
    hide Next, After, Unsettles, GapAt, Recovered, Ran, Ready, TakeWork, Step;
    var s := Run(cfg, es, n);
    RecordedAlways(cfg, es, n);
    TracedAlways(cfg, es, n);
    var r := LastReport(s, x, p, r0);
    LiveUnreported(cfg, s.hist, r + 1, p, x);
    NeverStopped(cfg, s.hist, r, |s.hist|);
    ReportShows(cfg, s.hist, r, x);
    var c := s.when[r];
    RanByCall(Run(cfg, es, c), es[c], x);
    LiveIsEarnedAlways(cfg, es, g, c, x);
    var owed := Run(cfg, es, c).w.todo;
    assert owed[0] in owed;
    var e :| g < e < c && EstablishesAt(cfg, es, e, x);
    BackToEvents(cfg, es, g, n, x, e, p, q);
  }

  lemma ReportShows(cfg: Config, ls: seq<Label>, r: nat, x: Stream)
    requires r < |ls| && ReportsOn(ls[r], x) && !After(cfg, ls, r).s.stopped
    ensures After(cfg, ls, r + 1).s.streams.At(x).live == ls[r].live
  {
    hide Step;
    ReportEffect(cfg, After(cfg, ls, r), x, ls[r].live, ls[r].full, ls[r].now, ls[r].draw);
  }

  // ---- recovery ----------------------------------------------------------------------------

  /** The stream is shown as healthy by a running coordinator, and no call is owed to it. */
  ghost predicate ShownHealthy(s: Mesh, x: Stream) {
    && s.w.todo == [] && s.w.coordinator.Some? && !s.w.coordinator.value.s.stopped
    && Healthy(s.w.coordinator.value.s.streams.At(x))
  }

  /** After a progress gap, through any number of reconnects and whichever coordinator is attached
      by then, a stream is not healthy again until a refresh that was taken after its subscription
      was re-established succeeds. The exception is a coordinator attached since the gap whose
      repairing refresh was taken before it heard from the watcher about the stream. */
  lemma GapRecovery(cfg: Config, es: seq<MeshEvent>, g: nat, n: nat, x: Stream)
    requires g < n <= |es| && GapAt(cfg, es, g, x) && ShownHealthy(Run(cfg, es, n), x)
    ensures Recovered(cfg, es, g, n, x) || TrustsPast(cfg, Run(cfg, es, n), g, x)
  {
    hide Next, After, GapAt, Recovered, RepairedBy, DownAt;
    var s := Run(cfg, es, n);
    FacesAlways(cfg, es, g, n, x);
    RecordedAlways(cfg, es, n);
    if s.since > g {
      var p, q := RepairSoundness(cfg, s.hist, |s.hist|, x);
      RepairIsWithin(cfg, s.hist, |s.hist|, x, p, q);
      if r: nat :| r < p && s.when[r] >= 0 && ReportsOn(s.hist[r], x) {
        ReportedRecovers(cfg, es, g, n, x, p, q, r);
      }
    } else {
      var q :| DownAt(cfg, s, g, x, q);
      DownRecovers(cfg, es, g, n, x, q);
    }
  }

  lemma RepairIsWithin(cfg: Config, ls: seq<Label>, n: nat, x: Stream, p: nat, q: nat)
    requires n <= |ls| && RepairedBy(cfg, ls, n, x, p, q)
    ensures p < q < n
  {
  }

  /** The coordinator as it was when it was attached. */
  ghost function Attached(cfg: Config, es: seq<MeshEvent>, r: nat): Machine
    requires r < |es| && es[r].Attach?
  {
    After(cfg, es[r].prior, |es[r].prior|)
  }

  ghost predicate AttachedDown(cfg: Config, es: seq<MeshEvent>, r: nat, x: Stream)
    requires r < |es| && es[r].Attach?
  {
    !Attached(cfg, es, r).s.streams.At(x).live && !Attached(cfg, es, r).s.streams.At(x).repaired
  }

  /** A caller can rule the exception out: attach a coordinator that shows the stream neither as
      live nor as repaired, such as a new one. */
  lemma CleanAttachRecovers(cfg: Config, es: seq<MeshEvent>, g: nat, n: nat, x: Stream)
    requires g < n <= |es| && GapAt(cfg, es, g, x) && ShownHealthy(Run(cfg, es, n), x)
    requires var r := Run(cfg, es, n).since;
             r > g ==> r < |es| && es[r].Attach? && AttachedDown(cfg, es, r, x)
    ensures Recovered(cfg, es, g, n, x)
  {
    hide Next, GapAt, Recovered, Step, After;
    var s := Run(cfg, es, n);
    RecordedAlways(cfg, es, n);
    KeepsPastAlways(cfg, es, n);
    if s.since > g {
      var prior := es[s.since].prior;
      assert s.hist == prior + s.hist[|prior|..];
      AfterPrefix(cfg, prior, s.hist[|prior|..], |prior|);
      assert DownAt(cfg, s, g, x, |prior|);
      DownRecovers(cfg, es, g, n, x, |prior|);
    } else {
      GapRecovery(cfg, es, g, n, x);
    }
  }

  /** The engine attaches its coordinator new. */
  lemma GapRecoveryWithNew(cfg: Config, es: seq<MeshEvent>, g: nat, n: nat, x: Stream)
    requires g < n <= |es| && GapAt(cfg, es, g, x) && ShownHealthy(Run(cfg, es, n), x)
    requires var r := Run(cfg, es, n).since;
             r > g ==> r < |es| && es[r] == Attach([])
    ensures Recovered(cfg, es, g, n, x)
  {
    hide Next, GapAt, Recovered, Step;
    CleanAttachRecovers(cfg, es, g, n, x);
  }

  lemma DownRecovers(cfg: Config, es: seq<MeshEvent>, g: nat, n: nat, x: Stream, q: nat)
    requires g < n <= |es| && GapAt(cfg, es, g, x)
    requires var s := Run(cfg, es, n);
             DownAt(cfg, s, g, x, q) && Healthy(After(cfg, s.hist, |s.hist|).s.streams.At(x))
    ensures Recovered(cfg, es, g, n, x)
  {
    hide Next, After, Unsettles, GapAt, Recovered, Ran, Ready, TakeWork;
    var s := Run(cfg, es, n);
    RecordedAlways(cfg, es, n);
    TracedAlways(cfg, es, n);
    var u, p, r := DownNeedsRefresh(cfg, s.hist, q, |s.hist|, x);
    var c := s.when[u];
    RanByCall(Run(cfg, es, c), es[c], x);
    LiveIsEarnedAlways(cfg, es, g, c, x);
    var owed := Run(cfg, es, c).w.todo;
    assert owed[0] in owed;
    var e :| g < e < c && EstablishesAt(cfg, es, e, x);
    BackToEvents(cfg, es, g, n, x, e, p, r);
  }

  // ---- a live stream has a subscription behind it --------------------------------------------

  /** The subscription streams, or has broken and not yet said so. */
  predicate Behind(sub: Sub) {
    sub.phase == Streaming || sub.phase.Broken?
  }

  ghost predicate CancelledBefore(es: seq<MeshEvent>, k: nat, x: Stream) {
    exists c :: 0 <= c < k && c < |es| && es[c].SubStep? && es[c].x == x && es[c].e.Cancelled?
  }

  lemma BehindStep(cfg: Config, s: Mesh, ev: MeshEvent, k: nat, x: Stream)
    requires s.w.streams.At(x).live ==> Behind(s.subs.At(x))
    requires !(ev.SubStep? && ev.x == x && ev.e.Cancelled?)
    ensures var after := Next(cfg, s, ev, k);
            after.w.streams.At(x).live ==> Behind(after.subs.At(x))
  {
    hide Step, After, PassedOn, W.LabelOf, W.Foreign, W.Replay;
  }

  /** Whenever the watcher shows a stream as live, its subscription streams, has broken and not yet
      said so, or was cancelled. */
  lemma {:induction false} LiveHasSubscription(cfg: Config, es: seq<MeshEvent>, n: nat, x: Stream)
    requires n <= |es| && Run(cfg, es, n).w.streams.At(x).live
    ensures Behind(Run(cfg, es, n).subs.At(x)) || CancelledBefore(es, n, x)
  {
    hide Next;
    if n > 0 && !CancelledBefore(es, n, x) {
      var s := Run(cfg, es, n - 1);
      if s.w.streams.At(x).live {
        LiveHasSubscription(cfg, es, n - 1, x);
      }
      BehindStep(cfg, s, es[n - 1], n - 1, x);
    }
  }

  /** Every event is one of the watcher's own, or none. */
  lemma MirrorStep(cfg: Config, s: Mesh, ev: MeshEvent, k: nat)
    requires W.Mirrors(s.w)
    ensures W.Mirrors(Next(cfg, s, ev, k).w)
  {
    hide Step, After, Advance, Lifecycle, W.LabelOf, W.Mirrors, W.Begin;
    var op, ran := Begun(cfg, s, ev), Ran(s, ev);
    if Waits(cfg, s, ev) {
    } else if op.Some? {
      if s.w.todo == [] {
        W.NextMirrors(cfg, s.w, W.Begins(op.value));
      }
    } else if ran.Some? {
      if ev.Calls? {
        W.NextMirrors(cfg, s.w, W.Calls(ev.now, ev.draw));
      } else {
        PassedOnIsForeign(s, ev);
        W.NextMirrors(cfg, s.w, W.Meanwhile(ran.value));
      }
    }
  }

  lemma PassedOnIsForeign(s: Mesh, ev: MeshEvent)
    requires Ran(s, ev).Some? && !ev.Calls?
    ensures W.Foreign(s.w, Ran(s, ev).value)
  {
  }

  lemma {:induction false} MirrorAlways(cfg: Config, es: seq<MeshEvent>, n: nat)
    requires n <= |es|
    ensures W.Mirrors(Run(cfg, es, n).w)
  {
    hide Next;
    if n > 0 {
      MirrorAlways(cfg, es, n - 1);
      MirrorStep(cfg, Run(cfg, es, n - 1), es[n - 1], n - 1);
    }
  }

  /** So does a running coordinator, between the watcher's operations. */
  lemma ShownLiveHasSubscription(cfg: Config, es: seq<MeshEvent>, n: nat, x: Stream)
    requires n <= |es|
    requires var w := Run(cfg, es, n).w;
             && w.configured && w.todo == [] && w.coordinator.Some? && !w.coordinator.value.s.stopped
             && w.coordinator.value.s.streams.At(x).live
    ensures Behind(Run(cfg, es, n).subs.At(x)) || CancelledBefore(es, n, x)
  {
    hide Run;
    MirrorAlways(cfg, es, n);
    LiveHasSubscription(cfg, es, n, x);
  }

  // ---- a change is never lost ------------------------------------------------------------------

  /** Event `k` hands over a change of stream `x` to a running coordinator. */
  ghost predicate ChangeAt(cfg: Config, es: seq<MeshEvent>, k: nat, x: Stream) {
    && k < |es| && es[k].SubStep? && es[k].x == x && es[k].e.Receives? && es[k].e.frame.Carries?
    && var s := Run(cfg, es, k);
       var sub, message := s.subs.At(x), es[k].e.frame.message;
       && (sub.phase == Streaming || sub.phase.Handshaking?)
       && S.ValidMessage(message) && S.Progresses(sub.cursor, message) && message.kind == S.Event
       && s.w.todo == [] && s.w.coordinator.Some? && !s.w.coordinator.value.s.stopped
  }

  lemma ChangeRuns(cfg: Config, s: Mesh, ev: MeshEvent, k: nat, x: Stream)
    requires ev.SubStep? && ev.x == x && ev.e.Receives? && ev.e.frame.Carries?
    requires s.subs.At(x).phase == Streaming || s.subs.At(x).phase.Handshaking?
    requires S.ValidMessage(ev.e.frame.message) && S.Progresses(s.subs.At(x).cursor, ev.e.frame.message)
    requires ev.e.frame.message.kind == S.Event && s.w.todo == [] && s.w.coordinator.Some?
    ensures var l := Invalidate(x, ReasonFor(x), ev.now, ev.draw);
            Next(cfg, s, ev, k).hist == s.hist + [l] && Next(cfg, s, ev, k).when == s.when + [k]
  {
    hide Step, After, Advance, S.Remember, S.ValidMessage, S.Progresses;
  }

  lemma {:induction false} StaysRecorded(cfg: Config, es: seq<MeshEvent>, k: nat, n: nat, p: nat, l: Label)
    requires k < n <= |es| && p < |Run(cfg, es, k + 1).hist| == |Run(cfg, es, k + 1).when|
    requires Run(cfg, es, k + 1).hist[p] == l && Run(cfg, es, k + 1).when[p] == k
    requires Run(cfg, es, n).since <= k
    ensures p < |Run(cfg, es, n).hist| == |Run(cfg, es, n).when|
    ensures Run(cfg, es, n).hist[p] == l && Run(cfg, es, n).when[p] == k
    ensures Run(cfg, es, k + 1).hist <= Run(cfg, es, n).hist
  {
    hide Next, Ran;
    if n > k + 1 {
      RecordChanges(cfg, Run(cfg, es, n - 1), es[n - 1], n - 1);
      StaysRecorded(cfg, es, k, n - 1, p, l);
    }
  }

  /** As long as the coordinator stays attached, a stream that changed is healthy only after a refresh
      that was taken after the change succeeded. */
  lemma ChangeNeedsRefresh(cfg: Config, es: seq<MeshEvent>, k: nat, n: nat, x: Stream) returns (t: nat, j: nat)
    requires k < n <= |es| && ChangeAt(cfg, es, k, x) && Run(cfg, es, n).since <= k
    requires Run(cfg, es, n).w.coordinator.Some? && Healthy(Run(cfg, es, n).w.coordinator.value.s.streams.At(x))
    ensures k < t < j < n && es[t].Meanwhile? && es[t].l.Take?
    ensures es[j].Meanwhile? && es[j].l.Finish? && es[j].l.outcome.Success?
  {
    hide Next, Ran, Unsettles, TakeWork, Ready, After, S.ValidMessage, S.Progresses;
    var s, after := Run(cfg, es, k), Run(cfg, es, n);
    RecordedAlways(cfg, es, k);
    RecordedAlways(cfg, es, n);
    TracedAlways(cfg, es, n);
    ChangeRuns(cfg, s, es[k], k, x);
    var u, l := |s.hist|, Invalidate(x, ReasonFor(x), es[k].now, es[k].draw);
    StaysRecorded(cfg, es, k, n, u, l);
    assert after.hist == s.hist + after.hist[u..];
    AfterPrefix(cfg, s.hist, after.hist[u..], u);
    InvalidateUnsettles(After(cfg, s.hist, u).s, l, x);
    InFlightNeverCounts(cfg, after.hist, |after.hist|, x, u);
    var p, q :| u < p < q < |after.hist| && RepairedBy(cfg, after.hist, |after.hist|, x, p, q);
    t, j := after.when[p], after.when[q];
    RanByWorker(Run(cfg, es, t), es[t]);
    RanByWorker(Run(cfg, es, j), es[j]);
  }

  lemma InvalidateUnsettles(s: State, l: Label, x: Stream)
    requires l.Invalidate? && l.x == x && !s.stopped
    ensures Unsettles(s, l, x)
  {
  }

  /** The end of a subscription is passed on: its stream's rebuild is queued. */
  lemma EndIsNotified(cfg: Config, s: Mesh, x: Stream, now: Instant, draw: Draw, k: nat)
    requires Recorded(cfg, s, k) && s.subs.At(x).phase == Ending && s.w.todo == []
    requires s.w.coordinator.Some? && !s.w.coordinator.value.s.stopped
    ensures var after := Next(cfg, s, SubStep(x, Proceeds, now, draw), k).w.coordinator;
            after.Some? && Held(after.value, ReasonFor(x), s.w.coordinator.value.s.sequence + 1)
  {
    InvAlways(cfg, s.hist, |s.hist|);
    EndRuns(cfg, s, x, now, draw, k);
    hide Next, Step, After;
    AskedIsHeld(cfg, s.w.coordinator.value, Notify(ReasonFor(x), now), ReasonFor(x));
  }

  lemma EndRuns(cfg: Config, s: Mesh, x: Stream, now: Instant, draw: Draw, k: nat)
    requires s.subs.At(x).phase == Ending && s.w.todo == [] && s.w.coordinator.Some?
    ensures Next(cfg, s, SubStep(x, Proceeds, now, draw), k).w.coordinator
         == Some(Step(cfg, s.w.coordinator.value, Notify(ReasonFor(x), now)))
  {
    hide Step, After;
  }
}
