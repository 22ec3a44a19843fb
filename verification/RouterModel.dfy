/** What one reconciliation of the OS router may do to the kernel, and what any number of
    failed reconciliations followed by a successful one amounts to. */
module RouterModel {

  /** An address prefix: its network, and the host bits that masking clears. */
  datatype Prefix = Prefix(network: string, host: string)

  function Masked(p: Prefix): Prefix {
    p.(host := "")
  }

  function MaskAll(ps: set<Prefix>): set<Prefix> {
    set p | p in ps :: Masked(p)
  }

  /** Addresses and routes: those tracked by a router, wanted of it, or installed. */
  datatype Table = Table(addrs: set<Prefix>, routes: set<Prefix>)

  // ---- macOS ---------------------------------------------------------------------------

  /** Every tracked address goes, so the kernel may drop the routes with them. */
  predicate Resets(tracked: Table, want: Table) {
    tracked.addrs != {} && tracked.addrs * want.addrs == {}
  }

  function RoutesToDelete(tracked: Table, want: Table): set<Prefix> {
    MaskAll(if Resets(tracked, want) then tracked.routes else tracked.routes - want.routes)
  }

  function RoutesToAdd(tracked: Table, want: Table): set<Prefix> {
    MaskAll(if Resets(tracked, want) then want.routes else want.routes - tracked.routes)
  }

  /** Some tracked address stays installed throughout, so the kernel has no cause to drop routes. */
  predicate Anchored(tracked: Table, kernel: Table, want: Table) {
    !Resets(tracked, want) && tracked.addrs * want.addrs <= kernel.addrs
  }

  /** One call of Set toward `want` with any subset of its commands failing: it only ever removes
      what is to be deleted and adds what is to be added (routes may also be purged in a reset);
      if it reports success it has done all of it. Failure leaves the tracked lists alone. */
  predicate DarwinSet(tracked: Table, kernel: Table, want: Table, ok: bool, tracked': Table, kernel': Table) {
    var del, add := tracked.addrs - want.addrs, want.addrs - tracked.addrs;
    var delR, addR := RoutesToDelete(tracked, want), RoutesToAdd(tracked, want);
    && kernel.addrs - del <= kernel'.addrs <= kernel.addrs + add
    && kernel'.routes <= kernel.routes + addR
    && (Anchored(tracked, kernel, want) ==> kernel.routes - delR <= kernel'.routes)
    && tracked' == (if ok then want else tracked)
    && (ok ==>
          && kernel'.addrs == kernel.addrs - del + add
          && addR <= kernel'.routes <= kernel.routes - delR + addR
          && (Anchored(tracked, kernel, want) ==> kernel'.routes == kernel.routes - delR + addR))
  }

  /** A series of calls toward one target: all fail but the last. */
  ghost predicate DarwinRetries(want: Table, tracked: seq<Table>, kernel: seq<Table>) {
    && |tracked| == |kernel| >= 2
    && forall i :: 0 <= i < |tracked| - 1 ==>
         DarwinSet(tracked[i], kernel[i], want, i == |tracked| - 2, tracked[i + 1], kernel[i + 1])
  }

  predicate InSync(tracked: Table, kernel: Table) {
    kernel == Table(tracked.addrs, MaskAll(tracked.routes))
  }

  /** Between the old configuration and the target. */
  predicate OnTheWay(tracked: Table, want: Table, kernel: Table) {
    && tracked.addrs * want.addrs <= kernel.addrs <= tracked.addrs + want.addrs
    && kernel.routes <= MaskAll(tracked.routes) + MaskAll(want.routes)
    && (!Resets(tracked, want) ==> MaskAll(tracked.routes) - RoutesToDelete(tracked, want) <= kernel.routes)
  }

  lemma MaskUnion(a: set<Prefix>, b: set<Prefix>)
    ensures MaskAll(a + b) == MaskAll(a) + MaskAll(b)
  {
  }

  lemma MaskSubset(a: set<Prefix>, b: set<Prefix>)
    requires a <= b
    ensures MaskAll(a) <= MaskAll(b)
  {
  }

  lemma DarwinKeepsOnTheWay(tracked: Table, kernel: Table, want: Table, kernel': Table)
    requires OnTheWay(tracked, want, kernel) && DarwinSet(tracked, kernel, want, false, tracked, kernel')
    ensures OnTheWay(tracked, want, kernel')
  {
    hide MaskAll;
    MaskSubset(want.routes - tracked.routes, want.routes);
  }

  lemma {:induction false} DarwinFailuresStayOnTheWay(want: Table, tracked: seq<Table>, kernel: seq<Table>, n: nat)
    requires DarwinRetries(want, tracked, kernel) && InSync(tracked[0], kernel[0]) && n < |tracked| - 1
    ensures tracked[n] == tracked[0] && OnTheWay(tracked[0], want, kernel[n])
  {
    hide MaskAll, DarwinSet;
    if n > 0 {
      DarwinFailuresStayOnTheWay(want, tracked, kernel, n - 1);
      assert DarwinSet(tracked[n - 1], kernel[n - 1], want, false, tracked[n], kernel[n]);
      FailureKeepsTracked(tracked[n - 1], kernel[n - 1], want, tracked[n], kernel[n]);
      DarwinKeepsOnTheWay(tracked[0], kernel[n - 1], want, kernel[n]);
    }
  }

  lemma FailureKeepsTracked(tracked: Table, kernel: Table, want: Table, tracked': Table, kernel': Table)
    requires DarwinSet(tracked, kernel, want, false, tracked', kernel')
    ensures tracked' == tracked
  {
  }

  /** Deleting by masked network must not hit a route that stays, unless it is added again. */
  predicate NoSharedNetwork(tracked: Table, want: Table) {
    || Resets(tracked, want)
    || MaskAll(tracked.routes - want.routes) * MaskAll(tracked.routes * want.routes) <= MaskAll(want.routes - tracked.routes)
  }

  lemma MaskSplit(a: set<Prefix>, b: set<Prefix>)
    ensures MaskAll(a) == MaskAll(a * b) + MaskAll(a - b)
  {
    assert a == a * b + (a - b);
    MaskUnion(a * b, a - b);
  }

  lemma DarwinSuccess(tracked: Table, kernel: Table, want: Table, kernel': Table)
    requires OnTheWay(tracked, want, kernel) && DarwinSet(tracked, kernel, want, true, want, kernel')
    ensures kernel'.addrs == want.addrs
    ensures kernel'.routes == MaskAll(want.routes) <==> NoSharedNetwork(tracked, want)
  {
    hide MaskAll;
    MaskSplit(tracked.routes, want.routes);
    MaskSplit(want.routes, tracked.routes);
    assert tracked.routes * want.routes == want.routes * tracked.routes;
  }

  /** From a router in sync with the kernel, after any number of failed calls toward one target
      with any subset of commands failing, the first successful call leaves exactly the wanted
      addresses installed; and exactly the wanted routes if and only if no deleted route shares
      its masked network with a kept one. */
  lemma DarwinRetryConverges(want: Table, tracked: seq<Table>, kernel: seq<Table>)
    requires DarwinRetries(want, tracked, kernel) && InSync(tracked[0], kernel[0])
    ensures var n := |tracked| - 1;
            && tracked[n] == want && kernel[n].addrs == want.addrs
            && (InSync(tracked[n], kernel[n]) <==> NoSharedNetwork(tracked[0], want))
  {
    hide MaskAll, DarwinSet, OnTheWay, NoSharedNetwork;
    var n := |tracked| - 2;
    DarwinFailuresStayOnTheWay(want, tracked, kernel, n);
    assert DarwinSet(tracked[n], kernel[n], want, true, tracked[n + 1], kernel[n + 1]);
    SuccessTracks(tracked[n], kernel[n], want, tracked[n + 1], kernel[n + 1]);
    DarwinSuccess(tracked[0], kernel[n], want, kernel[n + 1]);
  }

  lemma SuccessTracks(tracked: Table, kernel: Table, want: Table, tracked': Table, kernel': Table)
    requires DarwinSet(tracked, kernel, want, true, tracked', kernel')
    ensures tracked' == want
  {
  }

  /** Routes 10.0.0.1/24 and 10.0.0.2/24 are one network to the kernel: dropping one of them
      removes the other. */
  lemma SharedNetworkLosesRoute()
    ensures exists tracked: Table, want: Table, kernel': Table ::
              && DarwinSet(tracked, Table(tracked.addrs, MaskAll(tracked.routes)), want, true, want, kernel')
              && !InSync(want, kernel')
  {
    var a, b := Prefix("10.0.0/24", "1"), Prefix("10.0.0/24", "2");
    var tracked, want := Table({}, {a, b}), Table({}, {a});
    assert tracked.routes - want.routes == {b} && want.routes - tracked.routes == {};
    assert MaskAll({b}) == {Masked(b)} && MaskAll({}) == {} && MaskAll({a}) == {Masked(b)};
    assert MaskAll({a, b}) == {Masked(b)};
    assert DarwinSet(tracked, Table({}, {Masked(b)}), want, true, want, Table({}, {}));
    assert !InSync(want, Table({}, {}));
  }

  /** A failed call toward one target is not undone by a successful call toward another: what it
      installed stays, untracked. */
  lemma ChangedTargetLeavesStray()
    ensures exists start: Table, first: Table, second: Table, mid: Table, end: Table ::
              && DarwinSet(start, start, first, false, start, mid)
              && DarwinSet(start, mid, second, true, second, end)
              && InSync(start, start) && end.addrs != second.addrs
  {
    var a, b := Prefix("10.0.0.1/32", ""), Prefix("10.0.0.2/32", "");
    var start, first, second := Table({}, {}), Table({a}, {}), Table({b}, {});
    assert MaskAll({}) == {};
    assert DarwinSet(start, start, first, false, start, Table({a}, {}));
    assert DarwinSet(start, Table({a}, {}), second, true, second, Table({a, b}, {}));
    assert Table({a, b}, {}).addrs != second.addrs by { assert a in {a, b} && a !in {b}; }
  }

  /** After a failed call toward another target, a successful call leaves exactly the wanted
      addresses if and only if what the failed one added is wanted and what it deleted is not. While
      a tracked address stays, the same goes for routes by network: whatever is left after the
      deletes must be wanted, and whatever is wanted and not added must be left. When all addresses
      are replaced every wanted route is added, and it is enough that nothing else is left. */
  lemma ChangedTarget(tracked: Table, mid: Table, want: Table, kernel': Table)
    requires DarwinSet(tracked, mid, want, true, want, kernel')
    ensures kernel'.addrs == want.addrs <==>
              mid.addrs - tracked.addrs <= want.addrs && (tracked.addrs - mid.addrs) * want.addrs == {}
    ensures var left := mid.routes - RoutesToDelete(tracked, want);
            && (Anchored(tracked, mid, want) ==>
                  (kernel'.routes == MaskAll(want.routes) <==>
                     left <= MaskAll(want.routes) && MaskAll(want.routes) - RoutesToAdd(tracked, want) <= left))
            && (Resets(tracked, want) && left <= MaskAll(want.routes) ==> kernel'.routes == MaskAll(want.routes))
  {
    hide MaskAll;
    ChangedAddrs(tracked, mid, want, kernel');
    MaskSubset(want.routes - tracked.routes, want.routes);
  }

  /** When no tracked address is sure to stay, because all are replaced or the failed call deleted one
      that is wanted again, the kernel may drop the routes on the way. Then the wanted routes are
      installed and nothing else, whatever it drops, if and only if whatever is left after the deletes
      is wanted and every wanted network is added. */
  lemma ChangedTargetUnanchored(tracked: Table, mid: Table, want: Table)
    requires !Anchored(tracked, mid, want)
    ensures (forall kernel' :: DarwinSet(tracked, mid, want, true, want, kernel') ==> kernel'.routes == MaskAll(want.routes))
       <==> && mid.routes - RoutesToDelete(tracked, want) <= MaskAll(want.routes)
            && MaskAll(want.routes) <= RoutesToAdd(tracked, want)
  {
    hide MaskAll;
    var left, add := mid.routes - RoutesToDelete(tracked, want), RoutesToAdd(tracked, want);
    var addrs := mid.addrs - (tracked.addrs - want.addrs) + (want.addrs - tracked.addrs);
    MaskSubset(want.routes - tracked.routes, want.routes);
    assert DarwinSet(tracked, mid, want, true, want, Table(addrs, left + add));
    assert DarwinSet(tracked, mid, want, true, want, Table(addrs, add));
  }

  lemma ChangedAddrs(tracked: Table, mid: Table, want: Table, kernel': Table)
    requires DarwinSet(tracked, mid, want, true, want, kernel')
    ensures kernel'.addrs == want.addrs <==>
              mid.addrs - tracked.addrs <= want.addrs && (tracked.addrs - mid.addrs) * want.addrs == {}
  {
    hide MaskAll;
    if p :| p in (tracked.addrs - mid.addrs) * want.addrs {
      assert p !in kernel'.addrs;
    }
    if p :| p in mid.addrs - tracked.addrs && p !in want.addrs {
      assert p in kernel'.addrs;
    }
    assert forall p :: p in want.addrs && p !in kernel'.addrs ==> p in (tracked.addrs - mid.addrs) * want.addrs;
    assert forall p :: p in kernel'.addrs && p !in want.addrs ==> p in mid.addrs - tracked.addrs;
  }

  // ---- Linux ---------------------------------------------------------------------------

  /** One phase of Set, for addresses or for routes: deletes first, where a failing delete is
      only logged (`lost`), then adds, where a failure ends the phase. */
  predicate Phase(tracked: set<Prefix>, kernel: set<Prefix>, want: set<Prefix>, ok: bool, lost: set<Prefix>,
                  tracked': set<Prefix>, kernel': set<Prefix>) {
    var cleared := kernel - (tracked - want - lost);
    && lost <= tracked - want
    && cleared <= kernel' <= cleared + (want - tracked)
    && tracked' == (if ok then want else tracked)
    && (ok ==> kernel' == cleared + (want - tracked))
  }

  /** One call of Set: the address phase, then, if that succeeds, the route phase. While deleting
      addresses the kernel may purge the routes, once no tracked address is left installed. */
  datatype Call = Call(addrsOk: bool, addrsLost: set<Prefix>, purged: bool, routesOk: bool, routesLost: set<Prefix>)

  /** The installed routes when the route phase begins. */
  function RoutesLeft(kernel: Table, c: Call): set<Prefix> {
    if c.purged then {} else kernel.routes
  }

  predicate LinuxSet(tracked: Table, kernel: Table, want: Table, c: Call, tracked': Table, kernel': Table) {
    && Phase(tracked.addrs, kernel.addrs, want.addrs, c.addrsOk, c.addrsLost, tracked'.addrs, kernel'.addrs)
    && (c.purged ==> tracked.addrs - want.addrs != {} && tracked.addrs * want.addrs * kernel.addrs == {})
    && if c.addrsOk
       then Phase(tracked.routes, RoutesLeft(kernel, c), want.routes, c.routesOk, c.routesLost, tracked'.routes, kernel'.routes)
       else tracked'.routes == tracked.routes && kernel'.routes == RoutesLeft(kernel, c)
  }

  predicate Succeeds(c: Call) {
    c.addrsOk && c.routesOk
  }

  ghost predicate LinuxRetries(want: Table, calls: seq<Call>, tracked: seq<Table>, kernel: seq<Table>) {
    && |calls| >= 1 && |tracked| == |kernel| == |calls| + 1
    && (forall i :: 0 <= i < |calls| ==> (Succeeds(calls[i]) <==> i == |calls| - 1))
    && forall i :: 0 <= i < |calls| ==> LinuxSet(tracked[i], kernel[i], want, calls[i], tracked[i + 1], kernel[i + 1])
  }

  predicate Between(old_: set<Prefix>, want: set<Prefix>, kernel: set<Prefix>) {
    old_ * want <= kernel <= old_ + want
  }

  /** Call `f` is the first whose address phase succeeds. */
  predicate FirstAddrs(calls: seq<Call>, f: nat) {
    f < |calls| && calls[f].addrsOk && forall i :: 0 <= i < f ==> !calls[i].addrsOk
  }

  lemma {:induction false} FindFirstAddrs(calls: seq<Call>, n: nat) returns (f: nat)
    requires n < |calls| && calls[n].addrsOk
    ensures f <= n && FirstAddrs(calls, f)
  {
    if i: nat :| i < n && calls[i].addrsOk {
      f := FindFirstAddrs(calls, i);
    } else {
      f := n;
    }
  }

  lemma {:induction false} AddrsBeforeFirst(want: Table, calls: seq<Call>, tracked: seq<Table>, kernel: seq<Table>, f: nat, n: nat)
    requires LinuxRetries(want, calls, tracked, kernel) && tracked[0] == kernel[0]
    requires FirstAddrs(calls, f) && n <= f
    ensures tracked[n].addrs == tracked[0].addrs && Between(tracked[0].addrs, want.addrs, kernel[n].addrs)
  {
    if n > 0 {
      AddrsBeforeFirst(want, calls, tracked, kernel, f, n - 1);
      assert LinuxSet(tracked[n - 1], kernel[n - 1], want, calls[n - 1], tracked[n], kernel[n]);
    }
  }

  lemma {:induction false} AddrsAfterFirst(want: Table, calls: seq<Call>, tracked: seq<Table>, kernel: seq<Table>, f: nat, n: nat)
    requires LinuxRetries(want, calls, tracked, kernel) && FirstAddrs(calls, f) && f < n <= |calls|
    ensures tracked[n].addrs == want.addrs && kernel[n].addrs == kernel[f + 1].addrs
  {
    assert LinuxSet(tracked[n - 1], kernel[n - 1], want, calls[n - 1], tracked[n], kernel[n]);
    if n > f + 1 {
      AddrsAfterFirst(want, calls, tracked, kernel, f, n - 1);
    }
  }

  /** Some call before the n-th lost the routes. */
  predicate Purged(calls: seq<Call>, n: nat)
    requires n <= |calls|
  {
    exists i :: 0 <= i < n && calls[i].purged
  }

  /** Every wanted route that was already tracked is installed, or a purge took them all. */
  predicate RoutesOnTheWay(old_: set<Prefix>, want: set<Prefix>, purged: bool, kernel: set<Prefix>) {
    && kernel <= old_ + want
    && old_ * want * kernel == if purged then {} else old_ * want
  }

  lemma {:induction false} RoutesBeforeLast(want: Table, calls: seq<Call>, tracked: seq<Table>, kernel: seq<Table>, n: nat)
    requires LinuxRetries(want, calls, tracked, kernel) && tracked[0] == kernel[0] && n < |calls|
    ensures tracked[n].routes == tracked[0].routes
    ensures RoutesOnTheWay(tracked[0].routes, want.routes, Purged(calls, n), kernel[n].routes)
    ensures RoutesOnTheWay(tracked[0].routes, want.routes, Purged(calls, n + 1), RoutesLeft(kernel[n], calls[n]))
  {
    if n > 0 {
      RoutesBeforeLast(want, calls, tracked, kernel, n - 1);
      assert LinuxSet(tracked[n - 1], kernel[n - 1], want, calls[n - 1], tracked[n], kernel[n]);
      assert !Succeeds(calls[n - 1]);
    }
    assert Purged(calls, n + 1) == (Purged(calls, n) || calls[n].purged);
  }

  /** Only a call that replaces every address can lose the routes. */
  lemma OnlyReplacementPurges(want: Table, calls: seq<Call>, tracked: seq<Table>, kernel: seq<Table>, n: nat)
    requires LinuxRetries(want, calls, tracked, kernel) && tracked[0] == kernel[0] && n < |calls| && calls[n].purged
    ensures tracked[0].addrs != {} && tracked[0].addrs * want.addrs == {}
  {
    assert Succeeds(calls[|calls| - 1]);
    var f := FindFirstAddrs(calls, |calls| - 1);
    assert LinuxSet(tracked[n], kernel[n], want, calls[n], tracked[n + 1], kernel[n + 1]);
    if n <= f {
      AddrsBeforeFirst(want, calls, tracked, kernel, f, n);
      assert tracked[n].addrs * want.addrs <= kernel[n].addrs;
      assert tracked[n].addrs * want.addrs * kernel[n].addrs == tracked[n].addrs * want.addrs;
    } else {
      AddrsAfterFirst(want, calls, tracked, kernel, f, n);
    }
  }

  /** A successful phase installs exactly what is wanted if and only if no delete failed on
      something that was still installed. */
  lemma PhaseSuccess(tracked: set<Prefix>, kernel: set<Prefix>, want: set<Prefix>, lost: set<Prefix>, kernel': set<Prefix>)
    requires Between(tracked, want, kernel) && Phase(tracked, kernel, want, true, lost, want, kernel')
    ensures kernel' == want <==> lost * kernel == {}
  {
    if lost * kernel != {} {
      var p :| p in lost * kernel;
      assert p in kernel' && p !in want;
    } else {
      assert forall p :: p in kernel' && p !in want ==> p in lost * kernel;
    }
  }

  lemma RoutesSuccess(tracked: set<Prefix>, kernel: set<Prefix>, want: set<Prefix>, purged: bool, lost: set<Prefix>, kernel': set<Prefix>)
    requires RoutesOnTheWay(tracked, want, purged, kernel) && Phase(tracked, kernel, want, true, lost, want, kernel')
    ensures kernel' == want <==> lost * kernel == {} && (purged ==> tracked * want == {})
  {
    if !purged || tracked * want == {} {
      PhaseSuccess(tracked, kernel, want, lost, kernel');
    } else {
      var p :| p in tracked * want;
      assert p !in tracked * want * kernel;
      assert p in want && p !in kernel';
    }
  }

  /** From a router in sync with the kernel, after any number of failed calls toward one target,
      the first successful call leaves exactly the wanted addresses if and only if no delete failed
      on an installed address in the first call whose address phase succeeded, which may be an
      earlier, failed call. It leaves exactly the wanted routes if and only if no delete of its own
      failed on an installed route and no call lost the routes while some were to be kept. */
  lemma LinuxRetryConverges(want: Table, calls: seq<Call>, tracked: seq<Table>, kernel: seq<Table>) returns (f: nat)
    requires LinuxRetries(want, calls, tracked, kernel) && tracked[0] == kernel[0]
    ensures FirstAddrs(calls, f)
    ensures var n := |calls|;
            && tracked[n] == want
            && (kernel[n].addrs == want.addrs <==> calls[f].addrsLost * kernel[f].addrs == {})
            && (kernel[n].routes == want.routes <==>
                && calls[n - 1].routesLost * RoutesLeft(kernel[n - 1], calls[n - 1]) == {}
                && (Purged(calls, n) ==> tracked[0].routes * want.routes == {}))
  {
    hide Phase, Between, RoutesOnTheWay, Purged, RoutesLeft;
    var n := |calls|;
    assert Succeeds(calls[n - 1]);
    f := FindFirstAddrs(calls, n - 1);
    AddrsBeforeFirst(want, calls, tracked, kernel, f, f);
    AddrsAfterFirst(want, calls, tracked, kernel, f, n);
    AddrsAfterFirst(want, calls, tracked, kernel, f, f + 1);
    assert LinuxSet(tracked[f], kernel[f], want, calls[f], tracked[f + 1], kernel[f + 1]);
    PhaseSuccess(tracked[f].addrs, kernel[f].addrs, want.addrs, calls[f].addrsLost, kernel[f + 1].addrs);
    RoutesBeforeLast(want, calls, tracked, kernel, n - 1);
    assert LinuxSet(tracked[n - 1], kernel[n - 1], want, calls[n - 1], tracked[n], kernel[n]);
    var left := RoutesLeft(kernel[n - 1], calls[n - 1]);
    PhaseTracks(tracked[n - 1].routes, left, want.routes, calls[n - 1].routesLost, tracked[n].routes, kernel[n].routes);
    RoutesSuccess(tracked[n - 1].routes, left, want.routes, Purged(calls, n), calls[n - 1].routesLost, kernel[n].routes);
  }

  lemma PhaseTracks(tracked: set<Prefix>, kernel: set<Prefix>, want: set<Prefix>, lost: set<Prefix>,
                    tracked': set<Prefix>, kernel': set<Prefix>)
    requires Phase(tracked, kernel, want, true, lost, tracked', kernel')
    ensures tracked' == want
  {
  }

  /** No delete fails in the successful call, and yet a stale address stays: its delete failed in
      an earlier call that went on to fail on a route. */
  lemma StaleAddressSurvives()
    ensures exists want: Table, calls: seq<Call>, tracked: seq<Table>, kernel: seq<Table> ::
              && LinuxRetries(want, calls, tracked, kernel) && tracked[0] == kernel[0]
              && calls[|calls| - 1].addrsLost == {} && calls[|calls| - 1].routesLost == {}
              && kernel[|calls|].addrs != want.addrs
  {
    var a, r := Prefix("10.0.0.1/32", ""), Prefix("10.1.0.0/16", "");
    var want := Table({}, {r});
    var calls := [Call(true, {a}, false, false, {}), Call(true, {}, false, true, {})];
    var tracked := [Table({a}, {}), Table({}, {}), Table({}, {r})];
    var kernel := [Table({a}, {}), Table({a}, {}), Table({a}, {r})];
    assert LinuxSet(tracked[0], kernel[0], want, calls[0], tracked[1], kernel[1]);
    assert LinuxSet(tracked[1], kernel[1], want, calls[1], tracked[2], kernel[2]);
    assert LinuxRetries(want, calls, tracked, kernel);
  }

  /** Every command succeeds, and yet a kept route is gone: the kernel purged it with the last old
      address and the tracked list says it is still there. */
  lemma ReplacedAddressLosesRoute()
    ensures exists want: Table, call: Call, tracked: Table, kernel': Table ::
              && LinuxSet(tracked, tracked, want, call, want, kernel')
              && call.addrsLost == {} && call.routesLost == {} && Succeeds(call)
              && kernel'.routes != want.routes
  {
    var a, b, r := Prefix("10.0.0.1/32", ""), Prefix("10.0.0.2/32", ""), Prefix("10.1.0.0/16", "");
    var tracked, want := Table({a}, {r}), Table({b}, {r});
    assert a in tracked.addrs - want.addrs;
    assert LinuxSet(tracked, tracked, want, Call(true, {}, true, true, {}), want, Table({b}, {}));
    assert r in want.routes;
  }
}
