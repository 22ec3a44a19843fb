/** The audience-key cache as a protocol between concurrent callers: each mutex section of
    `get`, each wait and each load is one step, in any interleaving. */
module SingleFlight {
  import opened Options

  datatype CacheKey = CacheKey(protocol: string, rolePath: string, keyId: string)

  newtype byte = x: int | 0 <= x < 256

  type Bytes = seq<byte>

  datatype Err = Canceled | DeadlineExceeded | EmptyKey | Other(what: string)

  predicate IsCancellation(e: Err) {
    e == Canceled || e == DeadlineExceeded
  }

  datatype Result = Ok(bytes: Bytes) | Fail(err: Err)

  /** A load of `key` by caller `loader`, shared by everyone who asks while it runs. */
  datatype Call = Call(key: CacheKey, loader: nat, done: bool, err: Option<Err>)

  datatype Place = Entering | Waiting(call: nat) | Loading(call: nat) | Returned(result: Result)

  /** A caller: the key it wants, its context's error once that ended, and where it is. */
  datatype Caller = Caller(key: CacheKey, ended: Option<Err>, at: Place)

  datatype Cache = Cache(
    keys: map<CacheKey, Bytes>, inflight: map<CacheKey, nat>, calls: seq<Call>, callers: map<nat, Caller>)

  const EMPTY := Cache(map[], map[], [], map[])

  datatype Event =
    | Arrives(who: nat, key: CacheKey)
    | ContextEnds(who: nat, err: Err)
    | Enters(who: nat)
    | GivesUp(who: nat)
    | Resumes(who: nat)
    | Loads(who: nat, loaded: Result)

  function Move(c: Cache, who: nat, at: Place): map<nat, Caller>
    requires who in c.callers
  {
    c.callers[who := c.callers[who].(at := at)]
  }

  /** The first section: a hit, a running load to join, or the election of a new loader. */
  function Enter(c: Cache, who: nat): Cache
    requires who in c.callers
  {
    var key := c.callers[who].key;
    if key in c.keys then c.(callers := Move(c, who, Returned(Ok(c.keys[key]))))
    else if key in c.inflight then c.(callers := Move(c, who, Waiting(c.inflight[key])))
    else c.(inflight := c.inflight[key := |c.calls|], calls := c.calls + [Call(key, who, false, None)],
            callers := Move(c, who, Loading(|c.calls|)))
  }

  /** A waiter sees its call finished: back to the election after a success, or after a leader's
      cancellation that is not its own; otherwise the leader's error. */
  function Resume(c: Cache, who: nat): Cache
    requires who in c.callers && c.callers[who].at.Waiting? && c.callers[who].at.call < |c.calls|
  {
    var err := c.calls[c.callers[who].at.call].err;
    c.(callers := Move(c, who,
         if err.Some? && !(c.callers[who].ended.None? && IsCancellation(err.value)) then Returned(Fail(err.value))
         else Entering))
  }

  /** An empty key is a failed load. */
  function Effective(loaded: Result): Result {
    if loaded == Ok([]) then Fail(EmptyKey) else loaded
  }

  /** The second section of the loader: retain a success, publish the outcome, end the call. */
  function Publish(c: Cache, who: nat, loaded: Result): Cache
    requires who in c.callers && c.callers[who].at.Loading? && c.callers[who].at.call < |c.calls|
  {
    var key, call := c.callers[who].key, c.callers[who].at.call;
    var outcome := Effective(loaded);
    Cache(if outcome.Ok? then c.keys[key := outcome.bytes] else c.keys,
          c.inflight - {key},
          c.calls[call := c.calls[call].(done := true, err := if outcome.Ok? then None else Some(outcome.err))],
          Move(c, who, Returned(outcome)))
  }

  /** An event that its caller's place does not allow changes nothing. */
  function Next(c: Cache, e: Event): Cache {
    if e.Arrives? then
      if e.who in c.callers then c else c.(callers := c.callers[e.who := Caller(e.key, None, Entering)])
    else if e.who !in c.callers then c
    else
      var caller := c.callers[e.who];
      match e
      case ContextEnds(who, err) =>
        if caller.ended.Some? || !IsCancellation(err) then c
        else c.(callers := c.callers[who := caller.(ended := Some(err))])
      case Enters(who) => if caller.at.Entering? then Enter(c, who) else c
      case GivesUp(who) =>
        if caller.at.Waiting? && caller.ended.Some?
        then c.(callers := Move(c, who, Returned(Fail(caller.ended.value)))) else c
      case Resumes(who) =>
        if caller.at.Waiting? && caller.at.call < |c.calls| && c.calls[caller.at.call].done then Resume(c, who) else c
      case Loads(who, loaded) =>
        if caller.at.Loading? && caller.at.call < |c.calls| then Publish(c, who, loaded) else c
  }

  function After(es: seq<Event>, n: nat): Cache
    requires n <= |es|
  {
    if n == 0 then EMPTY else Next(After(es, n - 1), es[n - 1])
  }

  // ---- the invariant -------------------------------------------------------------------

  predicate CallerOk(c: Cache, t: nat)
    requires t in c.callers
  {
    var key := c.callers[t].key;
    match c.callers[t].at
    case Entering => true
    case Loading(i) =>
      key in c.inflight && c.inflight[key] == i && i < |c.calls| && c.calls[i] == Call(key, t, false, None)
    case Waiting(i) =>
      i < |c.calls| && c.calls[i].key == key && (c.calls[i].done || (key in c.inflight && c.inflight[key] == i))
    case Returned(result) => result.Ok? ==> key in c.keys && c.keys[key] == result.bytes
  }

  predicate InflightOk(c: Cache, k: CacheKey)
    requires k in c.inflight
  {
    var i := c.inflight[k];
    && k !in c.keys && i < |c.calls|
    && var t := c.calls[i].loader;
       c.calls[i] == Call(k, t, false, None) && t in c.callers && c.callers[t].key == k && c.callers[t].at == Loading(i)
  }

  predicate CallOk(c: Cache, i: nat)
    requires i < |c.calls|
  {
    c.calls[i].done && c.calls[i].err.None? ==> c.calls[i].key in c.keys
  }

  predicate Inv(c: Cache) {
    && (forall t :: t in c.callers ==> CallerOk(c, t))
    && (forall k :: k in c.inflight ==> InflightOk(c, k))
    && (forall i :: 0 <= i < |c.calls| ==> CallOk(c, i))
    && (forall k :: k in c.keys ==> c.keys[k] != [])
  }

  /** Moving a caller that is not a loader disturbs nobody else. */
  lemma MoveKeeps(c: Cache, who: nat, caller: Caller)
    requires Inv(c)
    requires who in c.callers ==>
               caller.key == c.callers[who].key && (c.callers[who].at.Loading? ==> caller.at == c.callers[who].at)
    requires CallerOk(c.(callers := c.callers[who := caller]), who)
    ensures Inv(c.(callers := c.callers[who := caller]))
  {
    var after := c.(callers := c.callers[who := caller]);
    forall t | t in after.callers
      ensures CallerOk(after, t)
    {
      assert t != who ==> CallerOk(c, t);
    }
    forall k | k in after.inflight
      ensures InflightOk(after, k)
    {
      assert InflightOk(c, k);
    }
    forall i | 0 <= i < |after.calls|
      ensures CallOk(after, i)
    {
      assert CallOk(c, i);
    }
  }

  lemma ElectKeeps(c: Cache, who: nat)
    requires Inv(c) && who in c.callers && c.callers[who].at.Entering?
    requires c.callers[who].key !in c.keys && c.callers[who].key !in c.inflight
    ensures Inv(Enter(c, who))
  {
    var after := Enter(c, who);
    forall t | t in after.callers
      ensures CallerOk(after, t)
    {
      assert t != who ==> CallerOk(c, t);
    }
    forall k | k in after.inflight
      ensures InflightOk(after, k)
    {
      assert k != c.callers[who].key ==> InflightOk(c, k);
    }
    forall i | 0 <= i < |after.calls|
      ensures CallOk(after, i)
    {
      assert i < |c.calls| ==> CallOk(c, i);
    }
  }

  lemma PublishKeeps(c: Cache, who: nat, loaded: Result)
    requires Inv(c) && who in c.callers && c.callers[who].at.Loading? && c.callers[who].at.call < |c.calls|
    ensures Inv(Publish(c, who, loaded))
  {
    var after := Publish(c, who, loaded);
    assert CallerOk(c, who);
    assert InflightOk(c, c.callers[who].key);
    forall t | t in after.callers
      ensures CallerOk(after, t)
    {
      assert CallerOk(c, t);
    }
    forall k | k in after.inflight
      ensures InflightOk(after, k)
    {
      assert InflightOk(c, k);
    }
    forall i | 0 <= i < |after.calls|
      ensures CallOk(after, i)
    {
      assert CallOk(c, i);
    }
  }

  lemma NextKeeps(c: Cache, e: Event)
    requires Inv(c)
    ensures Inv(Next(c, e))
  {
    hide Publish;
    if e.Arrives? {
      if e.who !in c.callers {
        MoveKeeps(c, e.who, Caller(e.key, None, Entering));
      }
    } else if e.who in c.callers {
      var caller := c.callers[e.who];
      assert CallerOk(c, e.who);
      match e
      case ContextEnds(who, err) => MoveKeeps(c, who, caller.(ended := Some(err)));
      case Enters(who) =>
        if !caller.at.Entering? {
        } else if caller.key in c.keys {
          MoveKeeps(c, who, caller.(at := Returned(Ok(c.keys[caller.key]))));
        } else if caller.key in c.inflight {
          assert InflightOk(c, caller.key);
          MoveKeeps(c, who, caller.(at := Waiting(c.inflight[caller.key])));
        } else {
          ElectKeeps(c, who);
        }
      case GivesUp(who) =>
        if caller.at.Waiting? && caller.ended.Some? {
          MoveKeeps(c, who, caller.(at := Returned(Fail(caller.ended.value))));
        }
      case Resumes(who) =>
        if caller.at.Waiting? && caller.at.call < |c.calls| && c.calls[caller.at.call].done {
          MoveKeeps(c, who, Resume(c, who).callers[who]);
        }
      case Loads(who, loaded) =>
        if caller.at.Loading? && caller.at.call < |c.calls| {
          PublishKeeps(c, who, loaded);
        }
    }
  }

  lemma {:induction false} InvAlways(es: seq<Event>, n: nat)
    requires n <= |es|
    ensures Inv(After(es, n))
  {
    hide Next, Inv;
    if n == 0 {
      assert Inv(EMPTY) by {
        EmptyInv();
      }
    } else {
      InvAlways(es, n - 1);
      NextKeeps(After(es, n - 1), es[n - 1]);
    }
  }

  lemma EmptyInv()
    ensures Inv(EMPTY)
  {
  }

  // ---- what callers may rely on --------------------------------------------------------

  /** At most one loader per key is ever in flight. */
  lemma OneLoaderPerKey(es: seq<Event>, n: nat, t: nat, u: nat)
    requires n <= |es|
    requires var c := After(es, n);
             && t in c.callers && u in c.callers && c.callers[t].key == c.callers[u].key
             && c.callers[t].at.Loading? && c.callers[u].at.Loading?
    ensures t == u
  {
    InvAlways(es, n);
    assert CallerOk(After(es, n), t) && CallerOk(After(es, n), u);
  }

  /** Every successful caller has exactly the stored bytes, and they are not empty. */
  lemma SuccessIsStored(es: seq<Event>, n: nat, t: nat)
    requires n <= |es| && t in After(es, n).callers
    requires After(es, n).callers[t].at.Returned? && After(es, n).callers[t].at.result.Ok?
    ensures var c := After(es, n);
            c.callers[t].key in c.keys && c.keys[c.callers[t].key] == c.callers[t].at.result.bytes != []
  {
    InvAlways(es, n);
    assert CallerOk(After(es, n), t);
  }

  /** No waiter is orphaned: its call has ended, or somebody is still loading for it. */
  lemma WaitersAreServed(es: seq<Event>, n: nat, t: nat)
    requires n <= |es| && t in After(es, n).callers && After(es, n).callers[t].at.Waiting?
    ensures var c := After(es, n);
            var call := c.callers[t].at.call;
            call < |c.calls| &&
            (c.calls[call].done ||
             exists u :: u in c.callers && c.callers[u].at == Loading(call) && c.callers[u].key == c.callers[t].key)
  {
    InvAlways(es, n);
    var c := After(es, n);
    assert CallerOk(c, t);
    if c.callers[t].key in c.inflight {
      assert InflightOk(c, c.callers[t].key);
    }
  }

  /** A step stores at most the loader's key, and only from a non-empty successful load of a key
      that was not stored before. */
  lemma StoreStep(c: Cache, e: Event, k: CacheKey)
    requires Inv(c)
    ensures k in c.keys ==> k in Next(c, e).keys && Next(c, e).keys[k] == c.keys[k]
    ensures k !in c.keys && k in Next(c, e).keys ==>
              && e.Loads? && e.who in c.callers && c.callers[e.who].key == k
              && e.loaded == Ok(Next(c, e).keys[k]) && Next(c, e).keys[k] != []
  {
    if e.Loads? && e.who in c.callers && c.callers[e.who].at.Loading? {
      assert CallerOk(c, e.who);
      assert InflightOk(c, c.callers[e.who].key);
    }
  }

  /** Each key is stored at most once and never changes. */
  lemma {:induction false} StoredOnce(es: seq<Event>, i: nat, n: nat, k: CacheKey)
    requires i <= n <= |es| && k in After(es, i).keys
    ensures k in After(es, n).keys && After(es, n).keys[k] == After(es, i).keys[k]
  {
    hide Next, Inv;
    if i < n {
      StoredOnce(es, i, n - 1, k);
      InvAlways(es, n - 1);
      StoreStep(After(es, n - 1), es[n - 1], k);
    }
  }

  /** Failures are never cached: what is stored came from one successful, non-empty load. */
  lemma {:induction false} StoredWasLoaded(es: seq<Event>, n: nat, k: CacheKey) returns (j: nat)
    requires n <= |es| && k in After(es, n).keys
    ensures j < n && es[j].Loads? && es[j].loaded == Ok(After(es, n).keys[k])
    ensures es[j].who in After(es, j).callers && After(es, j).callers[es[j].who].key == k
  {
    hide Next, Inv;
    InvAlways(es, n - 1);
    StoreStep(After(es, n - 1), es[n - 1], k);
    if k in After(es, n - 1).keys {
      j := StoredWasLoaded(es, n - 1, k);
    } else {
      j := n - 1;
    }
  }

  predicate CancelledAlive(c: Cache, t: nat) {
    && t in c.callers && c.callers[t].ended.None?
    && c.callers[t].at.Returned? && c.callers[t].at.result.Fail? && IsCancellation(c.callers[t].at.result.err)
  }

  lemma CancelStep(c: Cache, e: Event, t: nat)
    requires Inv(c) && CancelledAlive(Next(c, e), t) && !CancelledAlive(c, t)
    ensures e.Loads? && e.who == t && e.loaded == Fail(Next(c, e).callers[t].at.result.err)
  {
    hide Inv;
  }

  /** A caller whose own context is live returns a cancellation only if its own load did: never
      because the leader it waited for was cancelled. */
  lemma {:induction false} LeaderCannotCancelWaiter(es: seq<Event>, n: nat, t: nat) returns (j: nat)
    requires n <= |es| && CancelledAlive(After(es, n), t)
    ensures j < n && es[j].Loads? && es[j].who == t
    ensures es[j].loaded == Fail(After(es, n).callers[t].at.result.err)
  {
    hide Next, Inv;
    InvAlways(es, n - 1);
    if CancelledAlive(After(es, n - 1), t) {
      j := LeaderCannotCancelWaiter(es, n - 1, t);
      ReturnedStays(After(es, n - 1), es[n - 1], t);
    } else {
      CancelStep(After(es, n - 1), es[n - 1], t);
      j := n - 1;
    }
  }

  lemma ReturnedStays(c: Cache, e: Event, t: nat)
    requires t in c.callers && c.callers[t].at.Returned?
    ensures t in Next(c, e).callers && Next(c, e).callers[t].at == c.callers[t].at
  {
  }

  // ---- which error a failed caller returns -------------------------------------------------

  /** A load that ends like this fails with `e`. */
  predicate LoadFails(loaded: Result, e: Err) {
    loaded == Fail(e) || (loaded == Ok([]) && e == EmptyKey)
  }

  /** Event `j` is the end of call `i`, by its loader, for `key`, with error `e`. */
  predicate CallFailedAt(es: seq<Event>, j: nat, i: nat, key: CacheKey, e: Err) {
    && j < |es| && es[j].Loads? && LoadFails(es[j].loaded, e)
    && es[j].who in After(es, j).callers && After(es, j).callers[es[j].who].key == key
    && After(es, j).callers[es[j].who].at == Loading(i)
  }

  /** What a step does to the calls. */
  lemma CallStep(c: Cache, ev: Event, i: nat)
    requires Inv(c) && i < |Next(c, ev).calls|
    ensures || (i < |c.calls| && Next(c, ev).calls[i] == c.calls[i])
            || !Next(c, ev).calls[i].done
            || (&& ev.Loads? && ev.who in c.callers && c.callers[ev.who].at == Loading(i)
                && c.callers[ev.who].key == Next(c, ev).calls[i].key
                && forall e :: Next(c, ev).calls[i].err == Some(e) <==> LoadFails(ev.loaded, e))
  {
    if ev.who in c.callers {
      assert CallerOk(c, ev.who);
    }
  }

  /** A failed call was ended so by its loader. */
  lemma {:induction false} CallCause(es: seq<Event>, n: nat, i: nat) returns (j: nat)
    requires n <= |es| && i < |After(es, n).calls| && After(es, n).calls[i].done && After(es, n).calls[i].err.Some?
    ensures j < n && CallFailedAt(es, j, i, After(es, n).calls[i].key, After(es, n).calls[i].err.value)
  {
    hide Next, Inv, LoadFails;
    InvAlways(es, n - 1);
    CallStep(After(es, n - 1), es[n - 1], i);
    if i < |After(es, n - 1).calls| && After(es, n).calls[i] == After(es, n - 1).calls[i] {
      j := CallCause(es, n - 1, i);
    } else {
      j := n - 1;
    }
  }

  /** What a step does to a caller that fails in it: its own context had ended so, its own load
      failed so, or it resumes from a call that failed so. */
  lemma FailStep(c: Cache, ev: Event, t: nat, e: Err)
    requires Inv(c) && t in Next(c, ev).callers && Next(c, ev).callers[t].at == Returned(Fail(e))
    requires !(t in c.callers && c.callers[t].at == Returned(Fail(e)))
    ensures t in c.callers && c.callers[t].key == Next(c, ev).callers[t].key
    ensures || c.callers[t].ended == Some(e)
            || (ev.Loads? && ev.who == t && c.callers[t].at.Loading? && LoadFails(ev.loaded, e))
            || (&& c.callers[t].at.Waiting? && c.callers[t].at.call < |c.calls|
                && c.calls[c.callers[t].at.call].done && c.calls[c.callers[t].at.call].err == Some(e)
                && c.calls[c.callers[t].at.call].key == c.callers[t].key)
  {
    if t in c.callers {
      assert CallerOk(c, t);
    }
  }

  /** Caller `t` was waiting on call `i` some time before `n`. */
  predicate WaitedOn(es: seq<Event>, n: nat, t: nat, i: nat)
    requires n <= |es|
  {
    exists k :: 0 <= k < n && t in After(es, k).callers && After(es, k).callers[t].at == Waiting(i)
  }

  /** The error of a failed caller is that of its own ended context, of its own load, or of the call
      for its key that it waited on. */
  ghost predicate HasCause(es: seq<Event>, n: nat, t: nat, e: Err)
    requires n <= |es| && t in After(es, n).callers
  {
    || After(es, n).callers[t].ended == Some(e)
    || exists j, i :: 0 <= j < n && CallFailedAt(es, j, i, After(es, n).callers[t].key, e)
                      && (es[j].who == t || WaitedOn(es, n, t, i))
  }

  lemma {:induction false} FailureHasCause(es: seq<Event>, n: nat, t: nat, e: Err)
    requires n <= |es| && t in After(es, n).callers && After(es, n).callers[t].at == Returned(Fail(e))
    ensures HasCause(es, n, t, e)
  {
    hide Next, Inv, LoadFails;
    var c, ev := After(es, n - 1), es[n - 1];
    InvAlways(es, n - 1);
    if t in c.callers && c.callers[t].at == Returned(Fail(e)) {
      FailureHasCause(es, n - 1, t, e);
      CauseStays(es, n, t, e);
    } else {
      FailStep(c, ev, t, e);
      CallerStays(c, ev, t);
      if c.callers[t].ended != Some(e) {
        if ev.Loads? && ev.who == t && c.callers[t].at.Loading? && LoadFails(ev.loaded, e) {
          assert CallFailedAt(es, n - 1, c.callers[t].at.call, c.callers[t].key, e);
        } else {
          var i := c.callers[t].at.call;
          var j := CallCause(es, n - 1, i);
          assert WaitedOn(es, n, t, i);
        }
      }
    }
  }

  lemma CallerStays(c: Cache, ev: Event, t: nat)
    requires t in c.callers
    ensures t in Next(c, ev).callers && Next(c, ev).callers[t].key == c.callers[t].key
    ensures c.callers[t].ended.Some? ==> Next(c, ev).callers[t].ended == c.callers[t].ended
  {
  }

  lemma CauseStays(es: seq<Event>, n: nat, t: nat, e: Err)
    requires 0 < n <= |es| && t in After(es, n - 1).callers && HasCause(es, n - 1, t, e)
    ensures t in After(es, n).callers && HasCause(es, n, t, e)
  {
    hide Next;
    CallerStays(After(es, n - 1), es[n - 1], t);
    if After(es, n - 1).callers[t].ended != Some(e) {
      var j, i :| 0 <= j < n - 1 && CallFailedAt(es, j, i, After(es, n - 1).callers[t].key, e)
                  && (es[j].who == t || WaitedOn(es, n - 1, t, i));
      assert WaitedOn(es, n - 1, t, i) ==> WaitedOn(es, n, t, i);
    }
  }

  /** A waiter whose call has ended returns its error, unless the call succeeded or was cancelled
      while the waiter's own context lives: then it enters again. */
  lemma WaiterOutcome(c: Cache, t: nat)
    requires t in c.callers && c.callers[t].at.Waiting? && c.callers[t].at.call < |c.calls|
    requires c.calls[c.callers[t].at.call].done
    ensures var err, at := c.calls[c.callers[t].at.call].err, Next(c, Resumes(t)).callers[t].at;
            if err == None || (c.callers[t].ended == None && (err == Some(Canceled) || err == Some(DeadlineExceeded)))
            then at == Entering
            else at == Returned(Fail(err.value))
  {
  }

  /** A caller that enters gets a stored key at once, joins the running load of its key, or loads. */
  lemma EnterOutcome(c: Cache, t: nat)
    requires t in c.callers && c.callers[t].at.Entering?
    ensures var key, after := c.callers[t].key, Next(c, Enters(t));
            if key in c.keys then after.callers[t].at == Returned(Ok(c.keys[key]))
            else if key in c.inflight then after.callers[t].at == Waiting(c.inflight[key])
            else after.callers[t].at == Loading(|c.calls|) && key in after.inflight && after.inflight[key] == |c.calls|
  {
  }
}
