/** Recovery from a progress gap: at the coordinator, and in the reconnect loop of a subscription
    with its lifecycle reports. */
module Reconnect {
  import opened Options
  import opened Subscription
  import opened RefreshModel
  import opened RefreshSafety
  import opened RefreshRepair

  // ---- at the coordinator --------------------------------------------------------------

  predicate ReportsLive(l: Label, x: Stream) {
    l.SetLive? && l.x == x && l.live
  }

  predicate ReportsGap(l: Label, x: Stream) {
    l.SetLive? && l.x == x && !l.live && l.full
  }

  lemma GapTakesDown(cfg: Config, m: Machine, l: Label, x: Stream)
    requires ReportsGap(l, x) && !m.s.stopped
    ensures var state := Step(cfg, m, l).s.streams.At(x); !state.live && !state.repaired
  {
  }

  lemma GoingLive(cfg: Config, m: Machine, l: Label, x: Stream)
    requires !m.s.streams.At(x).live && Step(cfg, m, l).s.streams.At(x).live
    ensures ReportsLive(l, x) && !m.s.stopped
  {
    hide Step, PeriodicAt, Defer, Settle, EnqueueAt;
    StreamWrites(cfg, m, l);
  }

  /** The report that first brings a stream back. */
  lemma {:induction false} FirstLive(cfg: Config, ls: seq<Label>, a: nat, n: nat, x: Stream) returns (e: nat)
    requires a <= n <= |ls|
    requires !After(cfg, ls, a).s.streams.At(x).live && After(cfg, ls, n).s.streams.At(x).live
    ensures a <= e < n && ReportsLive(ls[e], x) && !After(cfg, ls, e).s.stopped
    ensures forall k :: a <= k <= e ==> !After(cfg, ls, k).s.streams.At(x).live
    decreases n - a
  {
    hide Step;
    if After(cfg, ls, a + 1).s.streams.At(x).live {
      GoingLive(cfg, After(cfg, ls, a), ls[a], x);
      e := a;
    } else {
      e := FirstLive(cfg, ls, a + 1, n, x);
    }
  }

  /** A stream that is down cannot become repaired. */
  lemma {:induction false} DownStaysUnrepaired(cfg: Config, ls: seq<Label>, a: nat, e: nat, x: Stream)
    requires a <= e <= |ls| && !After(cfg, ls, a).s.streams.At(x).repaired
    requires forall k :: a <= k <= e ==> !After(cfg, ls, k).s.streams.At(x).live
    ensures !After(cfg, ls, e).s.streams.At(x).repaired
  {
    hide Step;
    if a < e {
      DownStaysUnrepaired(cfg, ls, a, e - 1, x);
      if After(cfg, ls, e).s.streams.At(x).repaired {
        OnlySuccessRepairs(cfg, After(cfg, ls, e - 1), ls[e - 1], x);
      }
    }
  }

  /** A stream that was down and unrepaired and is healthy now has been reported live in between,
      and a refresh taken after that report has succeeded, whatever the report said about needing one. */
  lemma DownNeedsRefresh(cfg: Config, ls: seq<Label>, q: nat, n: nat, x: Stream) returns (e: nat, t: nat, j: nat)
    requires q <= n <= |ls| && Healthy(After(cfg, ls, n).s.streams.At(x))
    requires !After(cfg, ls, q).s.streams.At(x).live && !After(cfg, ls, q).s.streams.At(x).repaired
    ensures q <= e < t < j < n && ReportsLive(ls[e], x)
    ensures forall k :: q <= k <= e ==> !After(cfg, ls, k).s.streams.At(x).live
    ensures RepairedBy(cfg, ls, n, x, t, j)
  {
    hide Step;
    e := FirstLive(cfg, ls, q, n, x);
    DownStaysUnrepaired(cfg, ls, q, e, x);
    assert Unsettles(After(cfg, ls, e).s, ls[e], x);
    t, j := RepairSoundness(cfg, ls, n, x);
  }

  /** The same after a gap report. */
  lemma GapNeedsRefresh(cfg: Config, ls: seq<Label>, g: nat, n: nat, x: Stream) returns (e: nat, t: nat, j: nat)
    requires g < n <= |ls| && ReportsGap(ls[g], x) && !After(cfg, ls, g).s.stopped
    requires Healthy(After(cfg, ls, n).s.streams.At(x))
    ensures g < e < t < j < n && ReportsLive(ls[e], x)
    ensures forall k :: g < k <= e ==> !After(cfg, ls, k).s.streams.At(x).live
    ensures RepairedBy(cfg, ls, n, x, t, j)
  {
    hide Step;
    GapTakesDown(cfg, After(cfg, ls, g), ls[g], x);
    e, t, j := DownNeedsRefresh(cfg, ls, g + 1, n, x);
  }

  // ---- the reconnect loop --------------------------------------------------------------

  datatype Phase =
    | Dialing
    | Handshaking(resume: Option<Token>)
    | Streaming
    | Broken(fault: Fault)   // the connection ended; the loop has not reported it yet
    | Retrying               // a gap was reported; the retry report is next
    | Ending                 // a terminal error was reported; the notification is next
    | Closed

  datatype Sub = Sub(phase: Phase, cursor: Option<Token>)

  const NEW_SUB := Sub(Dialing, None)

  /** The reply to the subscribe request. */
  datatype Reply = Unrelated | Rejected(code: int) | NoReply | Answered(status: int, subscribed: bool)

  datatype SubEvent =
    | Dials(ok: bool)
    | Receives(frame: Frame, handlerOk: bool, ackOk: bool)
    | Replies(reply: Reply)
    | ReadFails
    | Proceeds
    | Cancelled

  predicate PermanentRpcError(code: int) {
    code == -32700 || code == -32600 || code == -32601 || code == -32602
  }

  predicate PermanentStatus(status: int) {
    400 <= status < 500 && status != 408 && status != 410 && status != 429
  }

  /** None: keep reading. Some(None): established. Some(Some(f)): the handshake fails with f. */
  function Judge(reply: Reply): Option<Option<Fault>> {
    match reply
    case Unrelated => None
    case Rejected(code) => Some(Some(if PermanentRpcError(code) then Terminal else Plain))
    case NoReply => Some(Some(Terminal))
    case Answered(status, subscribed) =>
      if status == 410 then Some(Some(Gap))
      else if status != 200 then Some(Some(if PermanentStatus(status) then Terminal else Plain))
      else if !subscribed then Some(Some(Terminal))
      else Some(None)
  }

  function Advance(sub: Sub, e: SubEvent): Sub {
    match (e, sub.phase)
    case (Cancelled, _) => sub.(phase := Closed)
    case (Dials(ok), Dialing) => sub.(phase := if ok then Handshaking(sub.cursor) else Broken(Plain))
    case (Receives(frame, handlerOk, ackOk), Handshaking(_)) => Framed(sub, frame, handlerOk, ackOk)
    case (Receives(frame, handlerOk, ackOk), Streaming) => Framed(sub, frame, handlerOk, ackOk)
    case (Replies(reply), Handshaking(_)) =>
      var verdict := Judge(reply);
      if verdict.None? then sub
      else sub.(phase := if verdict.value.None? then Streaming else Broken(verdict.value.value))
    case (ReadFails, Handshaking(_)) => sub.(phase := Broken(Plain))
    case (ReadFails, Streaming) => sub.(phase := Broken(Plain))
    case (Proceeds, Broken(Terminal)) => sub.(phase := Ending)
    case (Proceeds, Broken(Gap)) => Sub(Retrying, None)
    case (Proceeds, Broken(Plain)) => sub.(phase := Dialing)
    case (Proceeds, Retrying) => sub.(phase := Dialing)
    case (Proceeds, Ending) => sub.(phase := Closed)
    case _ => sub
  }

  function Framed(sub: Sub, frame: Frame, handlerOk: bool, ackOk: bool): Sub {
    var handled := HandleFrame(sub.cursor, frame, handlerOk, ackOk);
    Sub(if handled.fault.Some? then Broken(handled.fault.value) else sub.phase, handled.cursor)
  }

  predicate Establishes(sub: Sub, e: SubEvent) {
    sub.phase.Handshaking? && e.Replies? && Judge(e.reply) == Some(None)
  }

  predicate ReportsProgressGap(sub: Sub, e: SubEvent) {
    sub.phase == Broken(Gap) && e.Proceeds?
  }

  /** What a subscription event has the watcher report about its stream, as live and full. */
  function Lifecycle(sub: Sub, e: SubEvent): Option<(bool, bool)> {
    if Establishes(sub, e) then Some((true, sub.phase.resume.None?))
    else if ReportsProgressGap(sub, e) then Some((false, true))
    else if e.Proceeds? && (sub.phase.Broken? || sub.phase.Retrying?) then Some((false, false))
    else None
  }

  /** What a subscription event has the watcher pass on to the coordinator: a change, or the end. */
  function PassedOn(x: Stream, sub: Sub, e: SubEvent, now: Instant, draw: Draw): Option<Label> {
    match (e, sub.phase)
    case (Receives(frame, handlerOk, ackOk), Handshaking(_)) => Delivered(x, sub, e, now, draw)
    case (Receives(frame, handlerOk, ackOk), Streaming) => Delivered(x, sub, e, now, draw)
    case (Proceeds, Ending) => Some(Notify(ReasonFor(x), now))
    case _ => None
  }

  function Delivered(x: Stream, sub: Sub, e: SubEvent, now: Instant, draw: Draw): Option<Label>
    requires e.Receives?
  {
    var handed := HandleFrame(sub.cursor, e.frame, e.handlerOk, e.ackOk).handed;
    if handed.Some? && handed.value.kind == Event then Some(Invalidate(x, ReasonFor(x), now, draw)) else None
  }

  /** How the reply to the subscribe request ends the handshake. */
  lemma HandshakeOutcome(sub: Sub, reply: Reply)
    requires sub.phase.Handshaking?
    ensures var phase := Advance(sub, Replies(reply)).phase;
            && (phase == Streaming <==> reply == Answered(200, true))
            && (phase == Broken(Gap) <==> reply.Answered? && reply.status == 410)
            && (phase == Broken(Terminal) <==>
                  match reply
                  case Unrelated => false
                  case Rejected(code) => code in {-32700, -32600, -32601, -32602}
                  case NoReply => true
                  case Answered(status, subscribed) =>
                    (status == 200 && !subscribed) || (400 <= status < 500 && status !in {408, 410, 429}))
            && (phase == sub.phase <==> reply == Unrelated)
            && (phase == Streaming || phase.Broken? || phase == sub.phase)
  {
  }

  /** How the loop goes on: a connection attempt resumes from the cursor, a plain failure and a
      reported gap lead to another attempt, and only a gap takes the cursor away. */
  lemma LoopGoesOn(sub: Sub)
    ensures sub.phase == Dialing ==>
              && Advance(sub, Dials(true)) == Sub(Handshaking(sub.cursor), sub.cursor)
              && Advance(sub, Dials(false)) == Sub(Broken(Plain), sub.cursor)
    ensures sub.phase == Streaming || sub.phase.Handshaking? ==> Advance(sub, ReadFails) == Sub(Broken(Plain), sub.cursor)
    ensures sub.phase == Broken(Plain) ==> Advance(sub, Proceeds) == Sub(Dialing, sub.cursor)
    ensures sub.phase == Broken(Gap) ==> Advance(Advance(sub, Proceeds), Proceeds) == Sub(Dialing, None)
  {
  }

  predicate Over(phase: Phase) {
    phase == Broken(Terminal) || phase == Ending || phase == Closed
  }

  ghost function AdvanceAll(sub: Sub, es: seq<SubEvent>): Sub {
    if es == [] then sub else Advance(AdvanceAll(sub, es[..|es| - 1]), es[|es| - 1])
  }

  /** A terminal error or a cancellation is final: no further attempt is ever made. */
  lemma {:induction false} TerminalIsFinal(sub: Sub, es: seq<SubEvent>)
    requires Over(sub.phase)
    ensures Over(AdvanceAll(sub, es).phase) && AdvanceAll(sub, es).cursor == sub.cursor
  {
    if es != [] {
      TerminalIsFinal(sub, es[..|es| - 1]);
    }
  }

  /** What is reported, and when: live on establishment, needing a full refresh exactly when the
      handshake had no cursor to resume from; down for a gap, needing one; and down for every other
      end of a connection, terminal ones included, and before a retry. */
  lemma ReportedWhen(sub: Sub, e: SubEvent)
    ensures forall full :: Lifecycle(sub, e) == Some((true, full)) <==>
              && sub.phase.Handshaking? && e == Replies(Answered(200, true)) && full == (sub.phase.resume == None)
    ensures Lifecycle(sub, e) == Some((false, true)) <==> sub.phase == Broken(Gap) && e == Proceeds
    ensures Lifecycle(sub, e) == Some((false, false)) <==>
              e == Proceeds && (sub.phase == Broken(Plain) || sub.phase == Broken(Terminal) || sub.phase == Retrying)
  {
    if sub.phase.Broken? {
      match sub.phase.fault
      case Plain =>
      case Gap =>
      case Terminal =>
    }
  }

  /** A gap is seen exactly when the server refuses the cursor or a frame breaks its order, and
      by the time it is reported the cursor is gone. */
  lemma GapForgetsCursor(sub: Sub, e: SubEvent)
    ensures ReportsProgressGap(sub, e) ==> Advance(sub, e).cursor == None
    ensures Advance(sub, e).phase == Broken(Gap) && sub.phase != Broken(Gap) <==>
              || (sub.phase.Handshaking? && e.Replies? && e.reply.Answered? && e.reply.status == 410)
              || (&& (sub.phase.Handshaking? || sub.phase.Streaming?)
                  && e.Receives? && e.frame.Carries? && ValidMessage(e.frame.message)
                  && !Progresses(sub.cursor, e.frame.message))
  {
    hide Remember, ValidMessage, Progresses;
  }

  /** The case that makes the theorem matter: a handshake after a gap stores a cursor from a
      replayed frame and dies, so the next handshake resumes and claims no refresh is needed. */
  lemma ReplayedCursorHidesGap(m: Message)
    requires ValidMessage(m) && m.kind == Event
    ensures
      var s0 := Sub(Broken(Gap), None);
      var s1 := Advance(Advance(s0, Proceeds), Proceeds);
      var s2 := Advance(Advance(s1, Dials(true)), Receives(Carries(m), true, true));
      var s3 := Advance(Advance(Advance(s2, ReadFails), Proceeds), Dials(true));
      && ReportsProgressGap(s0, Proceeds)
      && Lifecycle(s3, Replies(Answered(200, true))) == Some((true, false))
  {
  }
}
