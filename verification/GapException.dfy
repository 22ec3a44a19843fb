/** When a coordinator may be attached after a progress gap: exactly which ones recover whatever
    happens next, and for all others a way to be healthy without a refresh. */
module GapException {
  import opened Options
  import opened Basics
  import opened RefreshModel
  import opened RefreshSafety
  import opened RefreshRepair
  import opened Reconnect
  import opened GapRecovery
  import S = Subscription
  import W = Watcher

  // ---- going on ------------------------------------------------------------------------

  lemma {:induction false} RunPrefix(cfg: Config, es: seq<MeshEvent>, more: seq<MeshEvent>, k: nat)
    requires k <= |es|
    ensures Run(cfg, es + more, k) == Run(cfg, es, k)
  {
    hide Next;
    if k > 0 {
      RunPrefix(cfg, es, more, k - 1);
      assert (es + more)[k - 1] == es[k - 1];
    }
  }

  lemma RunAppend(cfg: Config, es: seq<MeshEvent>, ev: MeshEvent)
    ensures Run(cfg, es + [ev], |es| + 1) == Next(cfg, Run(cfg, es, |es|), ev, |es|)
  {
    hide Next;
    RunPrefix(cfg, es, [ev], |es|);
  }

  lemma EstablishesStays(cfg: Config, es: seq<MeshEvent>, more: seq<MeshEvent>, e: nat, x: Stream)
    requires e < |es|
    ensures EstablishesAt(cfg, es + more, e, x) <==> EstablishesAt(cfg, es, e, x)
  {
    hide Next, Establishes;
    RunPrefix(cfg, es, more, e);
    assert (es + more)[e] == es[e];
  }

  /** An event that does not establish the subscription leaves it so. */
  lemma StillDown(cfg: Config, es: seq<MeshEvent>, ev: MeshEvent, g: nat, x: Stream)
    requires !Established(cfg, es, g, |es|, x)
    requires !(ev.SubStep? && ev.x == x && Establishes(Run(cfg, es, |es|).subs.At(x), ev.e))
    ensures !Established(cfg, es + [ev], g, |es| + 1, x)
  {
    hide Next, Establishes, Run;
    RunPrefix(cfg, es, [ev], |es|);
    forall e | g < e < |es| + 1
      ensures !EstablishesAt(cfg, es + [ev], e, x)
    {
      if e < |es| {
        EstablishesStays(cfg, es, [ev], e, x);
      }
    }
  }

  /** The subscription has not been established since the gap; the coordinator attached at event
      `r` runs, is owed the calls `todo`, and the subscription stands at `sub`. */
  ghost predicate Stands(cfg: Config, es: seq<MeshEvent>, g: nat, r: nat, x: Stream, todo: seq<W.Call>, sub: Sub) {
    var s := Run(cfg, es, |es|);
    && s.since == r && s.w.coordinator.Some? && !s.w.coordinator.value.s.stopped
    && s.w.todo == todo && s.subs.At(x) == sub && !Established(cfg, es, g, |es|, x)
  }

  ghost function StreamOf(cfg: Config, es: seq<MeshEvent>, x: Stream): StreamState
    requires Run(cfg, es, |es|).w.coordinator.Some?
  {
    Run(cfg, es, |es|).w.coordinator.value.s.streams.At(x)
  }

  /** It shows the stream as covered and repaired. */
  ghost predicate Stale(cfg: Config, es: seq<MeshEvent>, g: nat, r: nat, x: Stream, todo: seq<W.Call>, sub: Sub) {
    Stands(cfg, es, g, r, x, todo, sub) && StreamOf(cfg, es, x).covered && StreamOf(cfg, es, x).repaired
  }

  // ---- calls that leave an old repair alone ----------------------------------------------

  predicate Harmless(c: W.Call, x: Stream) {
    c.x != x || match c case Cover(_, covered) => covered case Live(_, _, full) => !full
  }

  lemma HarmlessCall(cfg: Config, m: Machine, c: W.Call, x: Stream, now: Instant, draw: Draw)
    requires Harmless(c, x) && !m.s.stopped && m.s.streams.At(x).covered && m.s.streams.At(x).repaired
    ensures var after := Step(cfg, m, W.LabelOf(c, now, draw)).s;
            && !after.stopped && after.streams.At(x).covered && after.streams.At(x).repaired
            && (c.Live? && c.x == x ==> after.streams.At(x).live == c.live)
  {
    hide Step, PeriodicAt, Settle, EnqueueAt;
    StreamWrites(cfg, m, W.LabelOf(c, now, draw));
    W.CallShows(cfg, m, c, now, draw);
  }

  const NOW: Instant := 1
  const DRAW := Draw(0, 0)

  lemma Makes(cfg: Config, es: seq<MeshEvent>, g: nat, r: nat, x: Stream, c: W.Call, rest: seq<W.Call>, sub: Sub)
    requires Stale(cfg, es, g, r, x, [c] + rest, sub) && Harmless(c, x)
    ensures Stale(cfg, es + [Calls(NOW, DRAW)], g, r, x, rest, sub)
  {
    hide Next, Run, Step, Established;
    var s, ev := Run(cfg, es, |es|), Calls(NOW, DRAW);
    RunAppend(cfg, es, ev);
    StillDown(cfg, es, ev, g, x);
    CallRecord(cfg, s, ev, |es|);
    HarmlessCall(cfg, s.w.coordinator.value, c, x, NOW, DRAW);
    assert ([c] + rest)[0] == c && ([c] + rest)[1..] == rest;
  }

  // ---- the subscription comes back --------------------------------------------------------

  /** An event of the subscription that the watcher hears nothing of. */
  lemma Moves(cfg: Config, es: seq<MeshEvent>, g: nat, r: nat, x: Stream, sub: Sub, e: SubEvent)
    requires Stale(cfg, es, g, r, x, [], sub) && Lifecycle(sub, e).None? && PassedOn(x, sub, e, NOW, DRAW).None?
    ensures Stale(cfg, es + [SubStep(x, e, NOW, DRAW)], g, r, x, [], Advance(sub, e))
  {
    hide Run, Established, Advance, PassedOn, Establishes, Step;
    var ev := SubStep(x, e, NOW, DRAW);
    RunAppend(cfg, es, ev);
    StillDown(cfg, es, ev, g, x);
  }

  /** A plain disconnect is reported, and the report leaves the repair alone. */
  lemma Redials(cfg: Config, es: seq<MeshEvent>, g: nat, r: nat, x: Stream, sub: Sub)
    requires Stale(cfg, es, g, r, x, [], sub) && (sub.phase == Broken(S.Plain) || sub.phase == Retrying)
    ensures Stale(cfg, es + [SubStep(x, Proceeds, NOW, DRAW)] + [Calls(NOW, DRAW)], g, r, x, [], Sub(Dialing, sub.cursor))
  {
    hide Next, Run, Established, Step;
    var ev := SubStep(x, Proceeds, NOW, DRAW);
    RunAppend(cfg, es, ev);
    StillDown(cfg, es, ev, g, x);
    RedialStep(cfg, Run(cfg, es, |es|), x, |es|);
    var c := W.Live(x, false, false);
    assert [c] + [] == [c];
    Makes(cfg, es + [ev], g, r, x, c, [], Sub(Dialing, sub.cursor));
  }

  lemma RedialStep(cfg: Config, s: Mesh, x: Stream, k: nat)
    requires s.w.todo == [] && s.w.coordinator.Some?
    requires s.subs.At(x).phase == Broken(S.Plain) || s.subs.At(x).phase == Retrying
    ensures var after := Next(cfg, s, SubStep(x, Proceeds, NOW, DRAW), k);
            && after.since == s.since && after.w.coordinator == s.w.coordinator
            && after.w.todo == [W.Live(x, false, false)] && after.subs.At(x) == Sub(Dialing, s.subs.At(x).cursor)
  {
    hide Step, After;
  }

  /** The subscription may still come back without another gap. */
  predicate Open(sub: Sub) {
    sub.phase.Dialing? || sub.phase.Handshaking? || sub.phase == Broken(S.Plain) || sub.phase.Retrying?
  }

  lemma ToDialing(cfg: Config, es: seq<MeshEvent>, g: nat, r: nat, x: Stream, sub: Sub) returns (more: seq<MeshEvent>)
    requires Stale(cfg, es, g, r, x, [], sub) && Open(sub)
    ensures Stale(cfg, es + more, g, r, x, [], Sub(Dialing, sub.cursor))
    ensures NoWork(more)
  {
    hide Stale, Run;
    var drop, redial := SubStep(x, ReadFails, NOW, DRAW), [SubStep(x, Proceeds, NOW, DRAW)] + [Calls(NOW, DRAW)];
    if sub.phase.Dialing? {
      more := [];
      assert es + more == es;
    } else if sub.phase.Handshaking? {
      Moves(cfg, es, g, r, x, sub, ReadFails);
      Redials(cfg, es + [drop], g, r, x, Sub(Broken(S.Plain), sub.cursor));
      more := [drop] + redial;
      assert es + more == es + [drop] + [redial[0]] + [redial[1]];
    } else {
      Redials(cfg, es, g, r, x, sub);
      more := redial;
      assert es + more == es + [redial[0]] + [redial[1]];
    }
  }

  /** None of these events takes a batch or attaches a coordinator. */
  predicate NoWork(more: seq<MeshEvent>) {
    forall k :: 0 <= k < |more| ==> !more[k].Meanwhile? && !more[k].Attach?
  }

  const TOKEN := S.Token("s", "e", "1", "")
  const EOSE := S.Carries(S.Message(S.Eose, Some(TOKEN), true, false))

  lemma EoseIsKept()
    ensures S.HandleFrame(None, EOSE, true, true) == S.Handled(Some(TOKEN), Some(EOSE.message), None)
  {
    assert TOKEN.position[0] == '1';
    assert S.ValidToken(TOKEN);
  }

  /** A handshake that stores a cursor from the end marker and dies leaves the subscription with one. */
  lemma ToCursor(cfg: Config, es: seq<MeshEvent>, g: nat, r: nat, x: Stream) returns (more: seq<MeshEvent>)
    requires Stale(cfg, es, g, r, x, [], Sub(Dialing, None))
    ensures Stale(cfg, es + more, g, r, x, [], Sub(Dialing, Some(TOKEN))) && NoWork(more)
  {
    hide Stale, Run, S.HandleFrame;
    EoseIsKept();
    var dial, marker := SubStep(x, Dials(true), NOW, DRAW), SubStep(x, Receives(EOSE, true, true), NOW, DRAW);
    var drop, proceed := SubStep(x, ReadFails, NOW, DRAW), SubStep(x, Proceeds, NOW, DRAW);
    var h := Handshaking(None);
    Moves(cfg, es, g, r, x, Sub(Dialing, None), Dials(true));
    Moves(cfg, es + [dial], g, r, x, Sub(h, None), Receives(EOSE, true, true));
    Moves(cfg, es + [dial] + [marker], g, r, x, Sub(h, Some(TOKEN)), ReadFails);
    Redials(cfg, es + [dial] + [marker] + [drop], g, r, x, Sub(Broken(S.Plain), Some(TOKEN)));
    more := [dial, marker, drop, proceed, Calls(NOW, DRAW)];
    assert es + more == es + [dial] + [marker] + [drop] + [proceed] + [Calls(NOW, DRAW)];
  }

  lemma ToResume(cfg: Config, es: seq<MeshEvent>, g: nat, r: nat, x: Stream, sub: Sub)
    returns (more: seq<MeshEvent>, t: S.Token)
    requires Stale(cfg, es, g, r, x, [], sub) && Open(sub)
    ensures Stale(cfg, es + more, g, r, x, [], Sub(Handshaking(Some(t)), Some(t))) && NoWork(more)
  {
    hide Stale, Run;
    more := ToDialing(cfg, es, g, r, x, sub);
    if sub.cursor.None? {
      var extra := ToCursor(cfg, es + more, g, r, x);
      assert es + (more + extra) == es + more + extra;
      more, t := more + extra, TOKEN;
    } else {
      t := sub.cursor.value;
    }
    var dial := SubStep(x, Dials(true), NOW, DRAW);
    Moves(cfg, es + more, g, r, x, Sub(Dialing, Some(t)), Dials(true));
    assert es + (more + [dial]) == es + more + [dial];
    more := more + [dial];
  }

  /** The subscription is established without needing a full refresh, and the stream is healthy. */
  lemma Resumes(cfg: Config, es: seq<MeshEvent>, g: nat, r: nat, x: Stream, t: S.Token) returns (all: seq<MeshEvent>)
    requires Stale(cfg, es, g, r, x, [], Sub(Handshaking(Some(t)), Some(t))) && g < |es|
    ensures all == es + [SubStep(x, Replies(Answered(200, true)), NOW, DRAW)] + [Calls(NOW, DRAW)]
    ensures Run(cfg, all, |all|).since == r && ShownHealthy(Run(cfg, all, |all|), x)
    ensures !Recovered(cfg, all, g, |all|, x)
  {
    hide Next, Run, Step, Established, RepairedBy;
    var ev, call := SubStep(x, Replies(Answered(200, true)), NOW, DRAW), Calls(NOW, DRAW);
    all := es + [ev] + [call];
    RunAppend(cfg, es, ev);
    RunAppend(cfg, es + [ev], call);
    var s := Run(cfg, es, |es|);
    ResumeStep(cfg, s, x, t, |es|);
    var s1 := Run(cfg, es + [ev], |es| + 1);
    CallRecord(cfg, s1, call, |es| + 1);
    HarmlessCall(cfg, s.w.coordinator.value, W.Live(x, true, false), x, NOW, DRAW);
    NotRecovered(cfg, es, ev, call, g, x);
  }

  lemma ResumeStep(cfg: Config, s: Mesh, x: Stream, t: S.Token, k: nat)
    requires s.w.todo == [] && s.w.coordinator.Some? && s.subs.At(x) == Sub(Handshaking(Some(t)), Some(t))
    ensures var after := Next(cfg, s, SubStep(x, Replies(Answered(200, true)), NOW, DRAW), k);
            && after.since == s.since && after.w.coordinator == s.w.coordinator && after.w.todo == [W.Live(x, true, false)]
  {
    hide Step, After;
  }

  /** No refresh is taken after the only establishment since the gap. */
  lemma NotRecovered(cfg: Config, es: seq<MeshEvent>, ev: MeshEvent, call: MeshEvent, g: nat, x: Stream)
    requires !Established(cfg, es, g, |es|, x) && ev.SubStep? && call.Calls?
    ensures !Recovered(cfg, es + [ev] + [call], g, |es| + 2, x)
  {
    hide Next, Run, EstablishesAt, RepairedBy;
    var all := es + [ev] + [call];
    assert all == es + [ev, call];
    forall e: nat, t: nat, j: nat
      ensures !Refreshed(cfg, all, g, |all|, x, e, t, j)
    {
      if e < |es| {
        EstablishesStays(cfg, es, [ev, call], e, x);
      }
    }
  }

  // ---- a coordinator with a past is attached ------------------------------------------------

  /** The last event attaches a running coordinator after the gap, while the watcher has the stream
      in scope and down and the subscription has not come back but still may. */
  ghost predicate AttachesLate(cfg: Config, es: seq<MeshEvent>, g: nat, x: Stream) {
    && |es| > 0 && g < |es| - 1 && GapAt(cfg, es, g, x) && es[|es| - 1].Attach?
    && var s := Run(cfg, es, |es| - 1);
       && s.w.todo == [] && s.w.configured && s.w.streams.At(x) == W.Flags(true, false)
       && !Established(cfg, es, g, |es| - 1, x) && Open(s.subs.At(x))
       && !Attached(cfg, es, |es| - 1).s.stopped
  }

  lemma AttachStep(cfg: Config, s: Mesh, prior: seq<Label>, k: nat)
    requires s.w.todo == [] && s.w.configured
    ensures var after := Next(cfg, s, Attach(prior), k);
            && after.since == k && after.subs == s.subs && after.w.todo == W.Replay(s.w.streams)
            && after.w.coordinator == Some(After(cfg, prior, |prior|))
  {
    hide Step, After;
  }

  lemma AttachStands(cfg: Config, es: seq<MeshEvent>, g: nat, x: Stream) returns (sub: Sub, t: W.Table)
    requires AttachesLate(cfg, es, g, x)
    ensures Stands(cfg, es, g, |es| - 1, x, W.Replay(t), sub) && Open(sub) && t.At(x) == W.Flags(true, false)
    ensures Run(cfg, es, |es|).w.coordinator == Some(Attached(cfg, es, |es| - 1))
  {
    hide Next, Step, Establishes, W.Replay;
    var k := |es| - 1;
    var s := Run(cfg, es, k);
    sub, t := s.subs.At(x), s.w.streams;
    AttachStep(cfg, s, es[k].prior, k);
    assert !EstablishesAt(cfg, es, k, x);
  }

  /** The four replayed calls leave an old repair alone. */
  lemma Replayed(cfg: Config, es: seq<MeshEvent>, g: nat, r: nat, x: Stream, t: W.Table, sub: Sub)
    requires Stale(cfg, es, g, r, x, W.Replay(t), sub) && t.At(x) == W.Flags(true, false)
    ensures Stale(cfg, es + [Calls(NOW, DRAW)] + [Calls(NOW, DRAW)] + [Calls(NOW, DRAW)] + [Calls(NOW, DRAW)], g, r, x, [], sub)
  {
    hide Stale, Run;
    var c, todo := Calls(NOW, DRAW), W.Replay(t);
    assert todo == [todo[0]] + todo[1..];
    Makes(cfg, es, g, r, x, todo[0], todo[1..], sub);
    assert todo[1..] == [todo[1]] + todo[2..];
    Makes(cfg, es + [c], g, r, x, todo[1], todo[2..], sub);
    LivesReplayed(cfg, es + [c] + [c], g, r, x, t, sub);
  }

  lemma LivesReplayed(cfg: Config, es: seq<MeshEvent>, g: nat, r: nat, x: Stream, t: W.Table, sub: Sub)
    requires Stale(cfg, es, g, r, x, W.Replay(t)[2..], sub) && t.At(x) == W.Flags(true, false)
    ensures Stale(cfg, es + [Calls(NOW, DRAW)] + [Calls(NOW, DRAW)], g, r, x, [], sub)
  {
    hide Stale, Run;
    var c, todo := Calls(NOW, DRAW), W.Replay(t);
    assert todo[2..] == [todo[2]] + todo[3..];
    Makes(cfg, es, g, r, x, todo[2], todo[3..], sub);
    assert todo[3..] == [todo[3]] + [];
    Makes(cfg, es + [c], g, r, x, todo[3], [], sub);
  }

  /** From there on the stream can be healthy without a refresh. */
  lemma StaleFails(cfg: Config, es: seq<MeshEvent>, g: nat, r: nat, x: Stream, sub: Sub) returns (more: seq<MeshEvent>)
    requires Stale(cfg, es, g, r, x, [], sub) && Open(sub) && g < |es|
    ensures NoWork(more) && Fails(cfg, es + more, g, r, x)
  {
    hide Stale, Run, Recovered, ShownHealthy;
    var t;
    more, t := ToResume(cfg, es, g, r, x, sub);
    var all := Resumes(cfg, es + more, g, r, x, t);
    var last := [SubStep(x, Replies(Answered(200, true)), NOW, DRAW), Calls(NOW, DRAW)];
    assert all == es + (more + last);
    more := more + last;
  }

  /** The coordinator attached at event `r` shows the stream as healthy, and nobody has refreshed. */
  ghost predicate Fails(cfg: Config, all: seq<MeshEvent>, g: nat, r: nat, x: Stream) {
    Run(cfg, all, |all|).since == r && ShownHealthy(Run(cfg, all, |all|), x) && !Recovered(cfg, all, g, |all|, x)
  }

  /** A coordinator attached late that shows the stream as covered and repaired can be healthy with
      no refresh taken at all since it was attached. */
  lemma RepairedAttachFails(cfg: Config, es: seq<MeshEvent>, g: nat, x: Stream) returns (more: seq<MeshEvent>)
    requires AttachesLate(cfg, es, g, x)
    requires Attached(cfg, es, |es| - 1).s.streams.At(x).covered && Attached(cfg, es, |es| - 1).s.streams.At(x).repaired
    ensures NoWork(more) && Fails(cfg, es + more, g, |es| - 1, x)
  {
    hide Run, Recovered, ShownHealthy, Attached, Established, W.Replay, GapAt;
    var sub, t := AttachStands(cfg, es, g, x);
    Replayed(cfg, es, g, |es| - 1, x, t, sub);
    var c := Calls(NOW, DRAW);
    var rest := StaleFails(cfg, es + [c] + [c] + [c] + [c], g, |es| - 1, x, sub);
    more := [c, c, c, c] + rest;
    assert es + more == es + [c] + [c] + [c] + [c] + rest;
  }

  // ---- a live stream can be repaired before the replay reaches it ---------------------------

  ghost function StepAll(cfg: Config, m: Machine, ls: seq<Label>): Machine {
    if ls == [] then m else Step(cfg, StepAll(cfg, m, ls[..|ls| - 1]), ls[|ls| - 1])
  }

  /** Whatever is in flight succeeds, refreshes are resumed and one is asked for, taken and done. */
  function Rework(now: Instant): seq<Label> {
    [Finish(Success, NOW, DRAW, 0), SetPaused(false, NOW), Notify(Manual, NOW), Take(now), Finish(Success, now, DRAW, 0)]
  }

  /** In scope, up and running. */
  ghost predicate Up(m: Machine, x: Stream) {
    Inv(m) && !m.s.stopped && m.s.streams.At(x).covered && m.s.streams.At(x).live
  }

  lemma FinishIdles(cfg: Config, m: Machine, x: Stream, now: Instant)
    requires Up(m, x)
    ensures var after := Step(cfg, m, Finish(Success, now, DRAW, 0));
            Up(after, x) && after.work.None?
  {
    hide Inv;
    InvStep(cfg, m, Finish(Success, now, DRAW, 0));
    FinishKeepsUp(cfg, m, x, now);
  }

  lemma FinishKeepsUp(cfg: Config, m: Machine, x: Stream, now: Instant)
    ensures var after := Step(cfg, m, Finish(Success, now, DRAW, 0));
            && after.work.None? && after.s.stopped == m.s.stopped
            && after.s.streams.At(x).covered == m.s.streams.At(x).covered
            && after.s.streams.At(x).live == m.s.streams.At(x).live
            && (m.work.Some? && Up(m, x) && m.s.streams.At(x).repairSequence <= m.work.value.sequence ==>
                  after.s.streams.At(x).repaired)
  {
    hide PeriodicAt;
  }

  lemma Unpauses(cfg: Config, m: Machine, x: Stream)
    requires Up(m, x) && m.work.None?
    ensures var after := Step(cfg, m, SetPaused(false, NOW));
            Up(after, x) && after.work.None? && !after.s.paused
  {
    InvStep(cfg, m, SetPaused(false, NOW));
    hide Defer, EnqueueAt;
  }

  lemma Asks(cfg: Config, m: Machine, x: Stream)
    requires Up(m, x) && m.work.None? && !m.s.paused
    ensures var after := Step(cfg, m, Notify(Manual, NOW));
            && Up(after, x) && after.work.None? && !after.s.paused
            && Manual in after.s.pending && after.s.pending[Manual] == after.s.sequence
  {
    InvStep(cfg, m, Notify(Manual, NOW));
    hide Defer;
  }

  lemma Takes(cfg: Config, m: Machine, x: Stream) returns (now: Instant)
    requires Up(m, x) && m.work.None? && !m.s.paused
    requires Manual in m.s.pending && m.s.pending[Manual] == m.s.sequence
    ensures var after := Step(cfg, m, Take(now));
            Up(after, x) && after.work.Some? && after.s.streams.At(x).repairSequence <= after.work.value.sequence
  {
    now := Max(1, Max(m.s.retryNotBefore, m.s.debounce.notBefore));
    InvStep(cfg, m, Take(now));
    assert Ready(m.s, now);
    assert IsTop(m.s.pending, Top(m.s.pending));
  }

  lemma ReworkRepairs(cfg: Config, m: Machine, x: Stream) returns (now: Instant)
    requires Up(m, x)
    ensures var after := StepAll(cfg, m, Rework(now)).s;
            !after.stopped && after.streams.At(x).covered && after.streams.At(x).repaired
    ensures forall i :: 0 <= i <= 5 ==> !StepAll(cfg, m, Rework(now)[..i]).s.stopped
  {
    hide Step, Inv;
    FinishIdles(cfg, m, x, NOW);
    var m1 := Step(cfg, m, Finish(Success, NOW, DRAW, 0));
    Unpauses(cfg, m1, x);
    var m2 := Step(cfg, m1, SetPaused(false, NOW));
    Asks(cfg, m2, x);
    var m3 := Step(cfg, m2, Notify(Manual, NOW));
    now := Takes(cfg, m3, x);
    var m4 := Step(cfg, m3, Take(now));
    FinishKeepsUp(cfg, m4, x, now);
    ReworkSteps(cfg, m, now);
    hide StepAll;
    var ls := Rework(now);
    assert StepAll(cfg, m, ls[..0 + 1]) == m1;
    assert StepAll(cfg, m, ls[..1 + 1]) == m2;
    assert StepAll(cfg, m, ls[..2 + 1]) == m3;
    assert StepAll(cfg, m, ls[..3 + 1]) == m4;
    assert StepAll(cfg, m, ls[..4 + 1]) == Step(cfg, m4, Finish(Success, now, DRAW, 0));
  }

  lemma ReworkSteps(cfg: Config, m: Machine, now: Instant)
    ensures var ls := Rework(now);
            && StepAll(cfg, m, ls[..0]) == m
            && forall i :: 0 <= i < 5 ==> StepAll(cfg, m, ls[..i + 1]) == Step(cfg, StepAll(cfg, m, ls[..i]), ls[i])
    ensures Rework(now)[..5] == Rework(now)
  {
    hide Step;
    var ls := Rework(now);
    forall i | 0 <= i < 5
      ensures StepAll(cfg, m, ls[..i + 1]) == Step(cfg, StepAll(cfg, m, ls[..i]), ls[i])
    {
      assert ls[..i + 1][..i] == ls[..i];
    }
  }

  /** A section run by anyone else, whatever the watcher still owes. */
  lemma Works(cfg: Config, es: seq<MeshEvent>, g: nat, r: nat, x: Stream, todo: seq<W.Call>, sub: Sub, l: Label)
    requires Stands(cfg, es, g, r, x, todo, sub) && !l.SetCovered? && !l.SetLive? && !l.Invalidate?
    requires !Step(cfg, Run(cfg, es, |es|).w.coordinator.value, l).s.stopped
    ensures Stands(cfg, es + [Meanwhile(l)], g, r, x, todo, sub)
    ensures Run(cfg, es + [Meanwhile(l)], |es| + 1).w.coordinator == Some(Step(cfg, Run(cfg, es, |es|).w.coordinator.value, l))
  {
    hide Run, Established, Step, After;
    RunAppend(cfg, es, Meanwhile(l));
    StillDown(cfg, es, Meanwhile(l), g, x);
  }

  function Events(ls: seq<Label>): seq<MeshEvent> {
    seq(|ls|, i requires 0 <= i < |ls| => Meanwhile(ls[i]))
  }

  lemma {:induction false} AllWork(cfg: Config, es: seq<MeshEvent>, g: nat, r: nat, x: Stream, todo: seq<W.Call>, sub: Sub,
                                   ls: seq<Label>)
    requires Stands(cfg, es, g, r, x, todo, sub)
    requires forall i :: 0 <= i < |ls| ==> !ls[i].SetCovered? && !ls[i].SetLive? && !ls[i].Invalidate?
    requires forall i :: 0 <= i <= |ls| ==> !StepAll(cfg, Run(cfg, es, |es|).w.coordinator.value, ls[..i]).s.stopped
    ensures Stands(cfg, es + Events(ls), g, r, x, todo, sub)
    ensures Run(cfg, es + Events(ls), |es + Events(ls)|).w.coordinator
         == Some(StepAll(cfg, Run(cfg, es, |es|).w.coordinator.value, ls))
  {
    hide Run, Step, Established;
    var m := Run(cfg, es, |es|).w.coordinator.value;
    if ls == [] {
      assert es + Events(ls) == es;
    } else {
      var n := |ls| - 1;
      forall i | 0 <= i <= n ensures !StepAll(cfg, m, ls[..n][..i]).s.stopped {
        assert ls[..n][..i] == ls[..i];
      }
      AllWork(cfg, es, g, r, x, todo, sub, ls[..n]);
      assert es + Events(ls) == es + Events(ls[..n]) + [Meanwhile(ls[n])];
      assert ls[..|ls|] == ls;
      Works(cfg, es + Events(ls[..n]), g, r, x, todo, sub, ls[n]);
    }
  }

  lemma CoverKeepsUp(cfg: Config, m: Machine, c: W.Call, x: Stream)
    requires Inv(m) && !m.s.stopped && m.s.streams.At(x).live && c.Cover? && (c.x == x ==> c.covered)
    ensures var after := Step(cfg, m, W.LabelOf(c, NOW, DRAW));
            && Inv(after) && !after.s.stopped && after.s.streams.At(x).live
            && (c.x == x || m.s.streams.At(x).covered ==> after.s.streams.At(x).covered)
  {
    hide Step, Inv, PeriodicAt, Settle, EnqueueAt;
    var l := W.LabelOf(c, NOW, DRAW);
    InvStep(cfg, m, l);
    StreamWrites(cfg, m, l);
    W.CallShows(cfg, m, c, NOW, DRAW);
  }

  /** A replayed coverage call. */
  lemma Covers(cfg: Config, es: seq<MeshEvent>, g: nat, r: nat, x: Stream, c: W.Call, rest: seq<W.Call>, sub: Sub)
    requires Stands(cfg, es, g, r, x, [c] + rest, sub) && c.Cover? && (c.x == x ==> c.covered)
    requires Inv(Run(cfg, es, |es|).w.coordinator.value) && StreamOf(cfg, es, x).live
    ensures var after := es + [Calls(NOW, DRAW)];
            && Stands(cfg, after, g, r, x, rest, sub)
            && Inv(Run(cfg, after, |after|).w.coordinator.value) && StreamOf(cfg, after, x).live
            && (c.x == x || StreamOf(cfg, es, x).covered ==> StreamOf(cfg, after, x).covered)
  {
    hide Next, Run, Step, Established, Inv;
    var s, ev := Run(cfg, es, |es|), Calls(NOW, DRAW);
    RunAppend(cfg, es, ev);
    StillDown(cfg, es, ev, g, x);
    CallRecord(cfg, s, ev, |es|);
    CoverKeepsUp(cfg, s.w.coordinator.value, c, x);
    assert ([c] + rest)[0] == c && ([c] + rest)[1..] == rest;
  }

  lemma BothCovered(cfg: Config, es: seq<MeshEvent>, g: nat, r: nat, x: Stream, t: W.Table, sub: Sub)
    requires Stands(cfg, es, g, r, x, W.Replay(t), sub) && t.At(x) == W.Flags(true, false)
    requires Inv(Run(cfg, es, |es|).w.coordinator.value) && StreamOf(cfg, es, x).live
    ensures var after := es + [Calls(NOW, DRAW)] + [Calls(NOW, DRAW)];
            && Stands(cfg, after, g, r, x, W.Replay(t)[2..], sub) && Up(Run(cfg, after, |after|).w.coordinator.value, x)
  {
    hide Run, Established, Inv;
    var c, todo := Calls(NOW, DRAW), W.Replay(t);
    assert todo == [todo[0]] + todo[1..];
    Covers(cfg, es, g, r, x, todo[0], todo[1..], sub);
    assert todo[1..] == [todo[1]] + todo[2..];
    Covers(cfg, es + [c], g, r, x, todo[1], todo[2..], sub);
  }

  /** A coordinator attached late that shows the stream as live can repair it before the replay
      tells it that the stream is down. */
  lemma LiveAttachFails(cfg: Config, es: seq<MeshEvent>, g: nat, x: Stream) returns (more: seq<MeshEvent>)
    requires AttachesLate(cfg, es, g, x) && Attached(cfg, es, |es| - 1).s.streams.At(x).live
    ensures Fails(cfg, es + more, g, |es| - 1, x)
  {
    hide Run, Recovered, ShownHealthy, Established, GapAt, Step, Inv, StepAll, Open, After;
    var r, c := |es| - 1, Calls(NOW, DRAW);
    var sub, t := AttachStands(cfg, es, g, x);
    InvAlways(cfg, es[r].prior, |es[r].prior|);
    BothCovered(cfg, es, g, r, x, t, sub);
    var covered := es + [c] + [c];
    var now := ReworkRepairs(cfg, Run(cfg, covered, |covered|).w.coordinator.value, x);
    AllWork(cfg, covered, g, r, x, W.Replay(t)[2..], sub, Rework(now));
    var worked := covered + Events(Rework(now));
    LivesReplayed(cfg, worked, g, r, x, t, sub);
    var rest := StaleFails(cfg, worked + [c] + [c], g, r, x, sub);
    more := [c, c] + Events(Rework(now)) + [c, c] + rest;
    assert es + more == worked + [c] + [c] + rest;
  }

  // ---- the exact condition -------------------------------------------------------------------

  /** However the run goes on with this coordinator, a healthy stream has recovered. */
  ghost predicate GoesOnSound(cfg: Config, es: seq<MeshEvent>, more: seq<MeshEvent>, g: nat, x: Stream) {
    var all := es + more;
    Run(cfg, all, |all|).since == |es| - 1 && ShownHealthy(Run(cfg, all, |all|), x) ==> Recovered(cfg, all, g, |all|, x)
  }

  lemma GapStays(cfg: Config, es: seq<MeshEvent>, more: seq<MeshEvent>, g: nat, x: Stream)
    requires GapAt(cfg, es, g, x)
    ensures GapAt(cfg, es + more, g, x)
  {
    hide Run;
    RunPrefix(cfg, es, more, g);
    assert (es + more)[g] == es[g];
  }

  /** A coordinator attached after a gap, while the stream is in scope and down, is sure to refresh
      it before it shows it as healthy, whatever happens from then on, if and only if it shows the
      stream neither as live nor as repaired when it is attached. */
  lemma AttachDecides(cfg: Config, es: seq<MeshEvent>, g: nat, x: Stream)
    requires AttachesLate(cfg, es, g, x)
    ensures (forall more: seq<MeshEvent> :: GoesOnSound(cfg, es, more, g, x)) <==> AttachedDown(cfg, es, |es| - 1, x)
  {
    hide Run, Recovered, ShownHealthy, Established, GapAt, Open, After;
    var r := |es| - 1;
    if AttachedDown(cfg, es, r, x) {
      forall more: seq<MeshEvent>
        ensures GoesOnSound(cfg, es, more, g, x)
      {
        var all := es + more;
        if Run(cfg, all, |all|).since == r && ShownHealthy(Run(cfg, all, |all|), x) {
          GapStays(cfg, es, more, g, x);
          assert all[r] == es[r];
          CleanAttachRecovers(cfg, all, g, |all|, x);
        }
      }
    } else {
      var more;
      if Attached(cfg, es, r).s.streams.At(x).live {
        more := LiveAttachFails(cfg, es, g, x);
      } else {
        RepairedIsCovered(cfg, es[r].prior, x);
        more := RepairedAttachFails(cfg, es, g, x);
      }
      assert !GoesOnSound(cfg, es, more, g, x);
    }
  }

  lemma RepairedIsCovered(cfg: Config, ls: seq<Label>, x: Stream)
    requires After(cfg, ls, |ls|).s.streams.At(x).repaired
    ensures After(cfg, ls, |ls|).s.streams.At(x).covered
  {
    InvAlways(cfg, ls, |ls|);
  }

  // ---- an instance ---------------------------------------------------------------------------

  /** The topology stream loses its place, and a coordinator that repaired it before is attached. */
  function LateSteps(now: Instant, draw: Draw): seq<MeshEvent> {
    [Configure(true),
     SubStep(Topology, Dials(true), now, draw),
     SubStep(Topology, Replies(Answered(410, false)), now, draw),
     SubStep(Topology, Proceeds, now, draw),
     Attach(W.PastRun(now, draw))]
  }

  /** The system while no coordinator is attached. */
  function Alone(sub: Sub): Mesh {
    var down := W.Flags(true, false);
    Mesh(Subs(sub, NEW_SUB), W.WatcherState(W.Table(down, down), true, None, []), [], [], -1)
  }

  lemma AloneStep(cfg: Config, es: seq<MeshEvent>, k: nat, sub: Sub, e: SubEvent, sub': Sub, now: Instant, draw: Draw)
    requires k < |es| && Run(cfg, es, k) == Alone(sub) && es[k] == SubStep(Topology, e, now, draw)
    requires (Lifecycle(sub, e).Some? ==> !Lifecycle(sub, e).value.0) && Advance(sub, e) == sub'
    ensures Run(cfg, es, k + 1) == Alone(sub')
  {
    hide Advance, Lifecycle, PassedOn;
    assert Run(cfg, es, k + 1) == Next(cfg, Run(cfg, es, k), es[k], k);
  }

  lemma Begins(cfg: Config, es: seq<MeshEvent>, now: Instant, draw: Draw)
    requires es == LateSteps(now, draw)
    ensures Run(cfg, es, 1) == Alone(NEW_SUB)
  {
    assert Run(cfg, es, 0) == START && es[0] == Configure(true);
  }

  lemma LosesPlace(cfg: Config, es: seq<MeshEvent>, now: Instant, draw: Draw)
    requires es == LateSteps(now, draw)
    ensures Run(cfg, es, 3) == Alone(Sub(Broken(S.Gap), None)) && Run(cfg, es, 4) == Alone(Sub(Retrying, None))
  {
    hide Run, Next, Alone;
    Begins(cfg, es, now, draw);
    AloneStep(cfg, es, 1, NEW_SUB, Dials(true), Sub(Handshaking(None), None), now, draw);
    AloneStep(cfg, es, 2, Sub(Handshaking(None), None), Replies(Answered(410, false)), Sub(Broken(S.Gap), None), now, draw);
    AloneStep(cfg, es, 3, Sub(Broken(S.Gap), None), Proceeds, Sub(Retrying, None), now, draw);
  }

  /** The exception happens: after these events the stream can be healthy with no refresh taken
      since its gap. */
  lemma ExceptionHappens(cfg: Config, now: Instant, draw: Draw) returns (more: seq<MeshEvent>)
    ensures AttachesLate(cfg, LateSteps(now, draw), 3, Topology)
    ensures NoWork(more) && Fails(cfg, LateSteps(now, draw) + more, 3, 4, Topology)
  {
    hide Run, Next, Step, Recovered, ShownHealthy, After;
    var es, past := LateSteps(now, draw), W.PastRun(now, draw);
    LosesPlace(cfg, es, now, draw);
    assert past[..4] == past;
    W.PastRunRepairs(cfg, past, now, draw);
    more := RepairedAttachFails(cfg, es, 3, Topology);
  }
}
