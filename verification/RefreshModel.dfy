/** The refresh coordinator as a state machine. Every section that the source runs
    under the coordinator's mutex is one function from state to state; a run is any
    interleaving of those sections, written as a sequence of labels. */
module RefreshModel {
  import opened Options
  import opened Backoff
  import opened Basics

  /** A source of invalidation; `Unnamed` is the empty reason, which counts as manual work, and
      `Other` holds every string that is none of the named ones. */
  datatype Reason =
    | Startup | Periodic | TopologyChange | DeliveryChange | Endpoint | Manual
    | Unnamed | Other(name: string)

  datatype Stream = Topology | Delivery

  function ReasonFor(x: Stream): Reason {
    match x
    case Topology => TopologyChange
    case Delivery => DeliveryChange
  }

  predicate IsStreamReason(r: Reason) {
    r == TopologyChange || r == DeliveryChange
  }

  datatype StreamState = StreamState(covered: bool, live: bool, repaired: bool, repairSequence: nat)

  const UNKNOWN_STREAM := StreamState(false, false, false, 0)

  predicate Healthy(state: StreamState) {
    state.covered && state.live && state.repaired
  }

  /** The state of the two required streams. */
  datatype Streams = Streams(topology: StreamState, delivery: StreamState) {
    function At(x: Stream): StreamState {
      match x case Topology => topology case Delivery => delivery
    }

    function Put(x: Stream, state: StreamState): Streams {
      match x case Topology => this.(topology := state) case Delivery => this.(delivery := state)
    }

    predicate AllHealthy() {
      Healthy(topology) && Healthy(delivery)
    }
  }

  datatype Config = Config(
    fallbackInterval: int, healthyInterval: int,
    retryBackoff: int, maxRetryBackoff: int,
    debounce: int, maxDebounce: int)

  /** What the constructor of the source accepts. */
  predicate ValidConfig(cfg: Config) {
    && cfg.fallbackInterval > 0 && cfg.healthyInterval > 0
    && 0 < cfg.retryBackoff <= cfg.maxRetryBackoff
    && cfg.debounce >= 0 && cfg.maxDebounce >= 0
    && (cfg.debounce > 0 ==> cfg.debounce <= cfg.maxDebounce)
  }

  /** A clock reading. The zero time, written NEVER, is earlier than every reading. */
  type Instant = t: int | 0 < t witness 1
  const NEVER := 0

  /** What the periodic jitter function returns for each of the two intervals it may be asked
      about. Any pair of values is possible. */
  datatype Draw = Draw(healthy: int, fallback: int)

  /** A quiet window: when it opened, and the time before which no attempt may start. */
  datatype Debounce = Debounce(startedAt: int, notBefore: int)

  const OPEN := Debounce(NEVER, NEVER)

  type Queue = map<Reason, nat>

  datatype State = State(
    pending: Queue, sequence: nat, streams: Streams,
    started: bool, stopped: bool, running: bool, paused: bool, inFlight: bool,
    consecutiveFailures: nat, retryNotBefore: int, debounce: Debounce, nextPeriodicAt: int)

  const INITIAL := State(
    map[], 0, Streams(UNKNOWN_STREAM, UNKNOWN_STREAM),
    false, false, false, false, false, 0, NEVER, OPEN, NEVER)

  /** The batch that one refresh attempt carries. */
  datatype Work = Work(items: Queue, sequence: nat, attempt: nat, startedAt: int)

  // ---- the helpers that run under the lock ---------------------------------------------

  function CurrentInterval(cfg: Config, streams: Streams): int {
    if streams.AllHealthy() then cfg.healthyInterval else cfg.fallbackInterval
  }

  /** The jittered form of the current interval. */
  function Drawn(streams: Streams, draw: Draw): int {
    if streams.AllHealthy() then draw.healthy else draw.fallback
  }

  /** The next periodic refresh, from the cadence that the streams' health calls for. */
  function PeriodicAt(streams: Streams, now: Instant, draw: Draw): int {
    now + Max(Drawn(streams, draw), 0)
  }

  function EnqueueAt(pending: Queue, reason: Reason, sequence: nat): Queue {
    var r := if reason == Unnamed then Manual else reason;
    if r !in pending || sequence > pending[r] then pending[r := sequence] else pending
  }

  /** Nothing left to debounce once the queue is empty. */
  function Settle(debounce: Debounce, pending: Queue): Debounce {
    if pending == map[] then OPEN else debounce
  }

  function Defer(cfg: Config, debounce: Debounce, pending: Queue, now: Instant): Debounce {
    if cfg.debounce <= 0 || pending == map[] then debounce
    else
      var startedAt := if debounce.startedAt == NEVER then now else debounce.startedAt;
      var quiet := now + cfg.debounce;
      var capped := if cfg.maxDebounce > 0 then Min(quiet, startedAt + cfg.maxDebounce) else quiet;
      Debounce(startedAt, Max(capped, now))
  }

  // ---- sections run by callers ---------------------------------------------------------

  function StartStep(s: State, now: Instant, draw: Draw): State {
    if s.started || s.stopped then s
    else
      s.(started := true, running := true,
         sequence := s.sequence + 1, pending := EnqueueAt(s.pending, Startup, s.sequence + 1),
         nextPeriodicAt := PeriodicAt(s.streams, now, draw))
  }

  function NotifyStep(cfg: Config, s: State, reason: Reason, now: Instant): State {
    if s.stopped then s
    else
      var pending := EnqueueAt(s.pending, reason, s.sequence + 1);
      s.(sequence := s.sequence + 1, pending := pending,
         debounce := Defer(cfg, s.debounce, pending, now))
  }

  function PauseStep(cfg: Config, s: State, paused: bool, now: Instant): State {
    if s.stopped then s
    else if s.paused && !paused then NotifyStep(cfg, s, Manual, now).(paused := false)
    else s.(paused := paused)
  }

  function CoverStep(s: State, x: Stream, covered: bool, now: Instant, draw: Draw): State {
    var was := s.streams.At(x);
    if s.stopped || was.covered == covered then s
    else if !covered then
      var streams := s.streams.Put(x, StreamState(false, false, false, 0));
      var pending := s.pending - {ReasonFor(x)};
      s.(streams := streams, pending := pending, debounce := Settle(s.debounce, pending),
         nextPeriodicAt := PeriodicAt(streams, now, draw))
    else
      var sequence := s.sequence + 1;
      var streams := s.streams.Put(x, StreamState(true, was.live, false, sequence));
      s.(streams := streams, sequence := sequence,
         pending := if was.live then EnqueueAt(s.pending, ReasonFor(x), sequence) else s.pending,
         nextPeriodicAt := PeriodicAt(streams, now, draw))
  }

  /** The stream as reported: its liveness, and stale when a full refresh is needed. */
  function Reported(was: StreamState, live: bool, full: bool, sequence: nat): StreamState {
    if full then was.(live := live, repaired := false, repairSequence := sequence)
    else was.(live := live)
  }

  function LiveStep(s: State, x: Stream, live: bool, full: bool, now: Instant, draw: Draw): State {
    if s.stopped then s
    else
      var was := s.streams.At(x);
      var reported := Reported(was, live, full, s.sequence + 1);
      var afterReport := if full then s.sequence + 1 else s.sequence;
      // Crossing the replay barrier: a live, covered, unrepaired stream queues its own rebuild,
      // under a new revision that no refresh in flight can reach.
      var crosses := live && reported.covered && !reported.repaired;
      var renumber := crosses && (!was.live || reported.repairSequence == 0);
      var sequence := if renumber then afterReport + 1 else afterReport;
      var state := if renumber then reported.(repairSequence := sequence) else reported;
      var streams := s.streams.Put(x, state);
      var kept := if full && !live then s.pending - {ReasonFor(x)} else s.pending;
      s.(streams := streams, sequence := sequence,
         pending := if crosses then EnqueueAt(kept, ReasonFor(x), state.repairSequence) else kept,
         debounce := if full && !live then Settle(s.debounce, kept) else s.debounce,
         nextPeriodicAt := if was.live != live || full then PeriodicAt(streams, now, draw) else s.nextPeriodicAt)
  }

  function InvalidateStep(cfg: Config, s: State, x: Stream, reason: Reason, now: Instant, draw: Draw): State {
    if s.stopped then s
    else
      var was := s.streams.At(x);
      var sequence := s.sequence + 1;
      var streams := s.streams.Put(x, was.(repaired := false, repairSequence := sequence));
      var queued := was.covered && was.live;
      var pending := if queued
                     then EnqueueAt(s.pending, if reason == Unnamed then ReasonFor(x) else reason, sequence)
                     else s.pending;
      s.(streams := streams, sequence := sequence, pending := pending,
         debounce := if queued then Defer(cfg, s.debounce, pending, now) else s.debounce,
         nextPeriodicAt := PeriodicAt(streams, now, draw))
  }

  // ---- sections run by the worker ------------------------------------------------------

  predicate Ready(s: State, now: Instant) {
    && !s.paused && !s.inFlight && s.pending != map[]
    && s.retryNotBefore <= now && s.debounce.notBefore <= now
  }

  /** `top` is the largest sequence number in a batch. */
  ghost predicate IsTop(items: Queue, top: nat) {
    && (forall r :: r in items ==> items[r] <= top)
    && (items != map[] ==> exists r :: r in items && items[r] == top)
    && (items == map[] ==> top == 0)
  }

  ghost function Top(items: Queue): (top: nat)
    ensures IsTop(items, top)
  {
    if items == map[] then 0
    else
      var r :| r in items;
      var rest := items - {r};
      assert items == rest[r := items[r]];
      Max(items[r], Top(rest))
  }

  ghost function TakeWork(s: State, now: Instant): Work {
    Work(s.pending, Top(s.pending), s.consecutiveFailures + 1, now)
  }

  function TakeStep(s: State): State {
    s.(pending := map[], debounce := OPEN, inFlight := true)
  }

  /** How a refresh ended; a rate-limited failure carries the server's Retry-After. */
  datatype Outcome = Success | Failure | RateLimited(retryAfter: int)

  function Merge(pending: Queue, items: Queue): Queue {
    map r | r in pending.Keys + items.Keys ::
      if r !in items then pending[r]
      else if r in pending && pending[r] >= items[r] then pending[r]
      else items[r]
  }

  /** The least wait after a failure: backoff, or the server's Retry-After if longer. */
  function MinimumDelay(cfg: Config, failures: int, outcome: Outcome): int {
    var backoff := Delay(cfg.retryBackoff, cfg.maxRetryBackoff, failures);
    if outcome.RateLimited? then Max(backoff, outcome.retryAfter) else backoff
  }

  /** `retryDraw` is whatever the retry jitter function returned. */
  function FailStep(cfg: Config, s: State, work: Work, outcome: Outcome, now: Instant, retryDraw: int): State {
    s.(inFlight := false,
       pending := Merge(s.pending, work.items),
       consecutiveFailures := s.consecutiveFailures + 1,
       retryNotBefore := now + Max(retryDraw, MinimumDelay(cfg, s.consecutiveFailures + 1, outcome)))
  }

  function RepairOne(state: StreamState, batch: nat): StreamState {
    if state.covered && state.live && !state.repaired && state.repairSequence != 0 && state.repairSequence <= batch
    then state.(repaired := true) else state
  }

  function Repair(streams: Streams, batch: nat): Streams {
    Streams(RepairOne(streams.topology, batch), RepairOne(streams.delivery, batch))
  }

  function SucceedStep(s: State, work: Work, now: Instant, draw: Draw): State {
    var streams := Repair(s.streams, work.sequence);
    s.(inFlight := false, consecutiveFailures := 0, retryNotBefore := NEVER, streams := streams,
       nextPeriodicAt := PeriodicAt(streams, now, draw))
  }

  function TimerStep(s: State, now: Instant, draw: Draw): State {
    if s.nextPeriodicAt != NEVER && s.nextPeriodicAt <= now
    then s.(sequence := s.sequence + 1, pending := EnqueueAt(s.pending, Periodic, s.sequence + 1),
            nextPeriodicAt := PeriodicAt(s.streams, now, draw))
    else s
  }

  function NextDeadline(cfg: Config, s: State, now: Instant): int {
    var periodic := if s.nextPeriodicAt == NEVER then now + CurrentInterval(cfg, s.streams) else s.nextPeriodicAt;
    if !s.paused && s.pending != map[]
    then Min(Max(now, Max(s.retryNotBefore, s.debounce.notBefore)), periodic)
    else periodic
  }

  // ---- runs ----------------------------------------------------------------------------

  datatype Label =
    | Start(now: Instant, draw: Draw)
    | Stop
    | Notify(reason: Reason, now: Instant)
    | SetPaused(paused: bool, now: Instant)
    | SetCovered(x: Stream, covered: bool, now: Instant, draw: Draw)
    | SetLive(x: Stream, live: bool, full: bool, now: Instant, draw: Draw)
    | Invalidate(x: Stream, reason: Reason, now: Instant, draw: Draw)
    | Take(now: Instant)
    | Finish(outcome: Outcome, now: Instant, draw: Draw, retryDraw: int)
    | Timer(now: Instant, draw: Draw)
    | Exit
    | Elsewhere   // a step of some other component

  /** A section run by a caller, not by the worker. */
  predicate IsCall(l: Label) {
    l.Start? || l.Stop? || l.Notify? || l.SetPaused? || l.SetCovered? || l.SetLive? || l.Invalidate?
  }

  /** The coordinator together with the batch its worker holds while a refresh runs. */
  datatype Machine = Machine(s: State, work: Option<Work>)

  /** One atomic section. A worker section that its program point excludes does nothing:
      a finish without work, an exit while a refresh runs. */
  ghost function Step(cfg: Config, m: Machine, l: Label): Machine {
    match l
    case Start(now, draw) => m.(s := StartStep(m.s, now, draw))
    case Stop => m.(s := m.s.(stopped := true))
    case Notify(reason, now) => m.(s := NotifyStep(cfg, m.s, reason, now))
    case SetPaused(paused, now) => m.(s := PauseStep(cfg, m.s, paused, now))
    case SetCovered(x, covered, now, draw) => m.(s := CoverStep(m.s, x, covered, now, draw))
    case SetLive(x, live, full, now, draw) => m.(s := LiveStep(m.s, x, live, full, now, draw))
    case Invalidate(x, reason, now, draw) => m.(s := InvalidateStep(cfg, m.s, x, reason, now, draw))
    case Take(now) => if Ready(m.s, now) then Machine(TakeStep(m.s), Some(TakeWork(m.s, now))) else m
    case Finish(outcome, now, draw, retryDraw) =>
      if m.work.None? then m
      else if outcome.Success? then Machine(SucceedStep(m.s, m.work.value, now, draw), None)
      else Machine(FailStep(cfg, m.s, m.work.value, outcome, now, retryDraw), None)
    case Timer(now, draw) => m.(s := TimerStep(m.s, now, draw))
    case Exit => if m.work.Some? then m else m.(s := m.s.(running := false, inFlight := false, stopped := true))
    case Elsewhere => m
  }

  /** The machine after the first `n` labels of a run that starts from a new coordinator. */
  ghost function After(cfg: Config, ls: seq<Label>, n: nat): Machine
    requires n <= |ls|
  {
    if n == 0 then Machine(INITIAL, None) else Step(cfg, After(cfg, ls, n - 1), ls[n - 1])
  }
}
