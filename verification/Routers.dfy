/** The macOS and Linux routers as objects issuing commands to a kernel that may refuse any of them. */
module Routers {
  import opened RouterModel

  function Elems(ps: seq<Prefix>): set<Prefix> {
    set p | p in ps
  }

  lemma ElemsAppend(ps: seq<Prefix>, p: Prefix)
    ensures Elems(ps + [p]) == Elems(ps) + {p}
  {
  }

  lemma ElemsTake(ps: seq<Prefix>, i: nat)
    requires i < |ps|
    ensures Elems(ps[..i + 1]) == Elems(ps[..i]) + {ps[i]}
  {
    assert ps[..i + 1] == ps[..i] + [ps[i]];
  }

  /** What the kernel does with the n-th command: carry it out, or refuse it. When it deletes the
      last of the addresses the routes stand under, it may purge the routes. */
  datatype Outcome = Runs(purge: bool) | Fails

  /** How a command ends: carried out, nothing to do (already there, already gone), or refused. */
  datatype Reply = Done | Benign | Failed

  class Kernel {
    const script: nat -> Outcome
    var asked: nat
    var refused: nat
    var addrs: set<Prefix>
    var routes: set<Prefix>

    constructor (script: nat -> Outcome)
    {
      this.script := script;
      asked, refused, addrs, routes := 0, 0, {}, {};
    }

    function View(): Table
      reads this
    {
      Table(addrs, routes)
    }

    method AddAddr(p: Prefix) returns (reply: Reply)
      modifies this
      ensures refused == old(refused) + if reply == Failed then 1 else 0
      ensures routes == old(routes)
      ensures addrs == if reply == Failed then old(addrs) else old(addrs) + {p}
    {
      var outcome := script(asked);
      asked := asked + 1;
      if outcome.Fails? {
        refused := refused + 1;
        return Failed;
      }
      reply := if p in addrs then Benign else Done;
      addrs := addrs + {p};
    }

    method DeleteAddr(p: Prefix, under: set<Prefix>) returns (reply: Reply)
      modifies this
      ensures refused == old(refused) + if reply == Failed then 1 else 0
      ensures addrs == if reply == Failed then old(addrs) else old(addrs) - {p}
      ensures routes == old(routes) || (routes == {} && addrs * under == {})
    {
      var outcome := script(asked);
      asked := asked + 1;
      if outcome.Fails? {
        refused := refused + 1;
        return Failed;
      }
      reply := if p in addrs then Done else Benign;
      addrs := addrs - {p};
      if outcome.purge && addrs * under == {} {
        routes := {};
      }
    }

    method AddRoute(p: Prefix) returns (reply: Reply)
      modifies this
      ensures refused == old(refused) + if reply == Failed then 1 else 0
      ensures addrs == old(addrs)
      ensures routes == if reply == Failed then old(routes) else old(routes) + {p}
    {
      var outcome := script(asked);
      asked := asked + 1;
      if outcome.Fails? {
        refused := refused + 1;
        return Failed;
      }
      reply := if p in routes then Benign else Done;
      routes := routes + {p};
    }

    method DeleteRoute(p: Prefix) returns (reply: Reply)
      modifies this
      ensures refused == old(refused) + if reply == Failed then 1 else 0
      ensures addrs == old(addrs)
      ensures routes == if reply == Failed then old(routes) else old(routes) - {p}
    {
      var outcome := script(asked);
      asked := asked + 1;
      if outcome.Fails? {
        refused := refused + 1;
        return Failed;
      }
      reply := if p in routes then Done else Benign;
      routes := routes - {p};
    }
  }

  method DiffPrefixes(have: seq<Prefix>, want: seq<Prefix>) returns (out: seq<Prefix>)
    ensures Elems(out) == Elems(have) - Elems(want)
    ensures |out| == |have| <==> Elems(have) * Elems(want) == {}
  {
    out := [];
    for i := 0 to |have|
      invariant Elems(out) == Elems(have[..i]) - Elems(want)
      invariant |out| <= i
      invariant |out| == i <==> Elems(have[..i]) * Elems(want) == {}
    {
      ElemsTake(have, i);
      if have[i] !in want {
        ElemsAppend(out, have[i]);
        out := out + [have[i]];
      } else {
        assert have[i] in Elems(have[..i + 1]) * Elems(want);
      }
    }
    assert have[..|have|] == have;
  }

  class DarwinRouter {
    const kernel: Kernel
    var addrs: seq<Prefix>
    var routes: set<Prefix>

    constructor (kernel: Kernel)
      ensures this.kernel == kernel && Tracked() == Table({}, {})
    {
      this.kernel := kernel;
      addrs, routes := [], {};
    }

    function Tracked(): Table
      reads this
    {
      Table(Elems(addrs), routes)
    }

    method DeleteAddrs(remove: seq<Prefix>, under: set<Prefix>) returns (ok: bool)
      modifies kernel
      ensures kernel.refused >= old(kernel.refused) && (ok <==> kernel.refused == old(kernel.refused))
      ensures old(kernel.addrs) - Elems(remove) <= kernel.addrs <= old(kernel.addrs)
      ensures ok ==> kernel.addrs == old(kernel.addrs) - Elems(remove)
      ensures kernel.routes <= old(kernel.routes)
      ensures remove == [] || kernel.addrs * under != {} ==> kernel.routes == old(kernel.routes)
    {
      ok := true;
      for i := 0 to |remove|
        invariant old(kernel.addrs) - Elems(remove[..i]) <= kernel.addrs <= old(kernel.addrs)
        invariant kernel.refused >= old(kernel.refused) && (ok <==> kernel.refused == old(kernel.refused))
        invariant ok ==> kernel.addrs == old(kernel.addrs) - Elems(remove[..i])
        invariant kernel.routes <= old(kernel.routes)
        invariant i == 0 || kernel.addrs * under != {} ==> kernel.routes == old(kernel.routes)
      {
        ElemsTake(remove, i);
        ghost var before := kernel.addrs;
        var reply := kernel.DeleteAddr(remove[i], under);
        if reply == Failed {
          ok := false;
        }
        assert kernel.addrs * under <= before * under;
      }
      assert remove[..|remove|] == remove;
    }

    method AddAddrs(add: seq<Prefix>) returns (ok: bool)
      modifies kernel
      ensures kernel.refused >= old(kernel.refused) && (ok <==> kernel.refused == old(kernel.refused))
      ensures old(kernel.addrs) <= kernel.addrs <= old(kernel.addrs) + Elems(add)
      ensures ok ==> kernel.addrs == old(kernel.addrs) + Elems(add)
      ensures kernel.routes == old(kernel.routes)
    {
      ok := true;
      for i := 0 to |add|
        invariant old(kernel.addrs) <= kernel.addrs <= old(kernel.addrs) + Elems(add[..i])
        invariant kernel.refused >= old(kernel.refused) && (ok <==> kernel.refused == old(kernel.refused))
        invariant ok ==> kernel.addrs == old(kernel.addrs) + Elems(add[..i])
        invariant kernel.routes == old(kernel.routes)
      {
        ElemsTake(add, i);
        var reply := kernel.AddAddr(add[i]);
        if reply == Failed {
          ok := false;
        }
      }
      assert add[..|add|] == add;
    }

    method DeleteRoutes(remove: set<Prefix>) returns (ok: bool)
      modifies kernel
      ensures kernel.refused >= old(kernel.refused) && (ok <==> kernel.refused == old(kernel.refused))
      ensures old(kernel.routes) - MaskAll(remove) <= kernel.routes <= old(kernel.routes)
      ensures ok ==> kernel.routes == old(kernel.routes) - MaskAll(remove)
      ensures kernel.addrs == old(kernel.addrs)
    {
      ok := true;
      var left := remove;
      while left != {}
        invariant left <= remove
        invariant old(kernel.routes) - MaskAll(remove - left) <= kernel.routes <= old(kernel.routes)
        invariant kernel.refused >= old(kernel.refused) && (ok <==> kernel.refused == old(kernel.refused))
        invariant ok ==> kernel.routes == old(kernel.routes) - MaskAll(remove - left)
        invariant kernel.addrs == old(kernel.addrs)
      {
        var p :| p in left;
        assert remove - (left - {p}) == (remove - left) + {p};
        MaskUnion(remove - left, {p});
        var reply := kernel.DeleteRoute(Masked(p));
        if reply == Failed {
          ok := false;
        }
        left := left - {p};
      }
      assert remove - left == remove;
    }

    method AddRoutes(add: set<Prefix>) returns (ok: bool)
      modifies kernel
      ensures kernel.refused >= old(kernel.refused) && (ok <==> kernel.refused == old(kernel.refused))
      ensures old(kernel.routes) <= kernel.routes <= old(kernel.routes) + MaskAll(add)
      ensures ok ==> kernel.routes == old(kernel.routes) + MaskAll(add)
      ensures kernel.addrs == old(kernel.addrs)
    {
      ok := true;
      var left := add;
      while left != {}
        invariant left <= add
        invariant old(kernel.routes) <= kernel.routes <= old(kernel.routes) + MaskAll(add - left)
        invariant kernel.refused >= old(kernel.refused) && (ok <==> kernel.refused == old(kernel.refused))
        invariant ok ==> kernel.routes == old(kernel.routes) + MaskAll(add - left)
        invariant kernel.addrs == old(kernel.addrs)
      {
        var p :| p in left;
        assert add - (left - {p}) == (add - left) + {p};
        MaskUnion(add - left, {p});
        var reply := kernel.AddRoute(Masked(p));
        if reply == Failed {
          ok := false;
        }
        left := left - {p};
      }
      assert add - left == add;
    }

    /** Succeeds exactly when the kernel refuses nothing. */
    method SyncAddrsAndRoutes(wantAddrs: seq<Prefix>, wantRoutes: seq<Prefix>) returns (ok: bool)
      modifies this, kernel
      ensures ok <==> kernel.refused == old(kernel.refused)
      ensures DarwinSet(old(Tracked()), old(kernel.View()), Table(Elems(wantAddrs), Elems(wantRoutes)),
                        ok, Tracked(), kernel.View())
    {
      ghost var tracked, want, k0 := Tracked(), Table(Elems(wantAddrs), Elems(wantRoutes)), kernel.View();
      var remove := DiffPrefixes(addrs, wantAddrs);
      var resetRoutes := |addrs| > 0 && |remove| == |addrs|;
      assert resetRoutes == Resets(tracked, want) by {
        assert |addrs| > 0 ==> addrs[0] in tracked.addrs;
      }
      hide Elems, MaskAll, Resets, DarwinSet;
      var okDelete := DeleteAddrs(remove, Elems(addrs));
      ghost var k1 := kernel.View();
      var missing := DiffPrefixes(wantAddrs, addrs);
      var okAdd := AddAddrs(missing);
      ghost var k2 := kernel.View();
      var newRoutes := Elems(wantRoutes);
      var okRouteDelete := DeleteRoutes(if resetRoutes then routes else routes - newRoutes);
      ghost var k3 := kernel.View();
      var okRouteAdd := AddRoutes(if resetRoutes then newRoutes else newRoutes - routes);
      StaysAnchored(tracked, k0, want, remove, k1.addrs);
      PhasesAreDarwinSet(tracked, want, k0, k1, k2, k3, kernel.View(), okDelete, okAdd, okRouteDelete, okRouteAdd);
      ok := okDelete && okAdd && okRouteDelete && okRouteAdd;
      if ok {
        addrs, routes := wantAddrs, newRoutes;
      }
    }

    /** Deletes what is tracked. The lists are emptied only if nothing failed. */
    method Cleanup() returns (ok: bool)
      modifies this, kernel
      ensures kernel.addrs <= old(kernel.addrs) && kernel.routes <= old(kernel.routes)
      ensures old(kernel.addrs) - old(Tracked()).addrs <= kernel.addrs
      ensures ok ==> kernel.addrs == old(kernel.addrs) - old(Tracked()).addrs
      ensures ok ==> kernel.routes <= old(kernel.routes) - MaskAll(old(routes))
      ensures Tracked() == if ok then Table({}, {}) else old(Tracked())
      ensures ok <==> kernel.refused == old(kernel.refused)
    {
      var okRoutes := DeleteRoutes(routes);
      var okAddrs := DeleteAddrs(addrs, set p | p in addrs);
      ok := okRoutes && okAddrs;
      if ok {
        addrs, routes := [], {};
      }
    }
  }

  /** Between two sets, and equal to the upper or lower one when all went well. */
  predicate Shrinks(before: set<Prefix>, del: set<Prefix>, ok: bool, after: set<Prefix>) {
    before - del <= after <= before && (ok ==> after == before - del)
  }

  predicate Grows(before: set<Prefix>, add: set<Prefix>, ok: bool, after: set<Prefix>) {
    before <= after <= before + add && (ok ==> after == before + add)
  }

  /** The four loops one after the other make up one call. */
  lemma PhasesAreDarwinSet(tracked: Table, want: Table, k0: Table, k1: Table, k2: Table, k3: Table, k4: Table,
                           ok1: bool, ok2: bool, ok3: bool, ok4: bool)
    requires Shrinks(k0.addrs, tracked.addrs - want.addrs, ok1, k1.addrs) && k1.routes <= k0.routes
    requires Anchored(tracked, k0, want) ==> k1.routes == k0.routes
    requires Grows(k1.addrs, want.addrs - tracked.addrs, ok2, k2.addrs) && k2.routes == k1.routes
    requires Shrinks(k2.routes, RoutesToDelete(tracked, want), ok3, k3.routes) && k3.addrs == k2.addrs
    requires Grows(k3.routes, RoutesToAdd(tracked, want), ok4, k4.routes) && k4.addrs == k3.addrs
    ensures var ok := ok1 && ok2 && ok3 && ok4;
            DarwinSet(tracked, k0, want, ok, if ok then want else tracked, k4)
  {
    hide RoutesToDelete, RoutesToAdd, Resets;
  }

  lemma StaysAnchored(tracked: Table, kernel: Table, want: Table, remove: seq<Prefix>, left: set<Prefix>)
    requires Elems(remove) == tracked.addrs - want.addrs
    requires kernel.addrs - Elems(remove) <= left
    ensures Anchored(tracked, kernel, want) ==> remove == [] || left * tracked.addrs != {}
  {
    assert remove != [] ==> remove[0] in Elems(remove);
    if Anchored(tracked, kernel, want) && tracked.addrs != {} {
      var p :| p in tracked.addrs * want.addrs;
      assert p in left * tracked.addrs;
    }
  }

  class LinuxRouter {
    const kernel: Kernel
    var addrs: seq<Prefix>
    var routes: seq<Prefix>

    constructor (kernel: Kernel)
      ensures this.kernel == kernel && Tracked() == Table({}, {})
    {
      this.kernel := kernel;
      addrs, routes := [], [];
    }

    function Tracked(): Table
      reads this
    {
      Table(Elems(addrs), Elems(routes))
    }

    /** Deletes the unwanted tracked addresses; a failure is only logged. */
    method DropAddrs(wantSet: set<Prefix>) returns (kept: seq<Prefix>, ghost lost: set<Prefix>, ghost purged: bool)
      modifies kernel
      ensures kernel.refused >= old(kernel.refused) && (kernel.refused == old(kernel.refused) ==> lost == {})
      ensures Elems(kept) == Elems(addrs) * wantSet
      ensures lost <= Elems(addrs) - wantSet
      ensures kernel.addrs == old(kernel.addrs) - (Elems(addrs) - wantSet - lost)
      ensures kernel.routes == if purged then {} else old(kernel.routes)
      ensures purged ==> Elems(addrs) - wantSet != {} && Elems(addrs) * wantSet * old(kernel.addrs) == {}
    {
      kept, lost, purged := [], {}, false;
      ghost var gone: set<Prefix> := {};
      for i := 0 to |addrs|
        invariant Elems(kept) == Elems(addrs[..i]) * wantSet
        invariant kernel.refused >= old(kernel.refused) && (kernel.refused == old(kernel.refused) ==> lost == {})
        invariant lost !! gone && lost + gone == Elems(addrs[..i]) - wantSet
        invariant kernel.addrs == old(kernel.addrs) - gone
        invariant kernel.routes == if purged then {} else old(kernel.routes)
        invariant purged ==> Elems(addrs) - wantSet != {} && Elems(addrs) * wantSet * old(kernel.addrs) == {}
      {
        ElemsTake(addrs, i);
        if addrs[i] in wantSet {
          ElemsAppend(kept, addrs[i]);
          kept := kept + [addrs[i]];
        } else {
          assert addrs[i] in Elems(addrs) - wantSet;
          ghost var before := kernel.routes;
          var reply := kernel.DeleteAddr(addrs[i], set p | p in addrs);
          if reply != Failed {
            lost, gone := lost - {addrs[i]}, gone + {addrs[i]};
          } else if addrs[i] !in gone {
            lost := lost + {addrs[i]};
          }
          if kernel.routes != before {
            purged := true;
            assert Elems(addrs) * wantSet * old(kernel.addrs) <= kernel.addrs * Elems(addrs);
          }
        }
      }
      assert addrs[..|addrs|] == addrs;
    }

    method SyncAddrs(want: seq<Prefix>) returns (ok: bool, ghost lost: set<Prefix>, ghost purged: bool)
      modifies this, kernel
      ensures kernel.refused >= old(kernel.refused) && (kernel.refused == old(kernel.refused) ==> ok && lost == {})
      ensures Phase(old(Elems(addrs)), old(kernel.addrs), Elems(want), ok, lost, Elems(addrs), kernel.addrs)
      ensures purged ==> old(Elems(addrs)) - Elems(want) != {} && old(Elems(addrs)) * Elems(want) * old(kernel.addrs) == {}
      ensures kernel.routes == if purged then {} else old(kernel.routes)
      ensures routes == old(routes)
    {
      ghost var tracked, before := Elems(addrs), kernel.addrs;
      var kept;
      kept, lost, purged := DropAddrs(set p | p in want);
      ghost var cleared, dropped := kernel.addrs, kernel.routes;
      for i := 0 to |want|
        invariant kernel.refused >= old(kernel.refused) && (kernel.refused == old(kernel.refused) ==> lost == {})
        invariant addrs == old(addrs) && routes == old(routes) && kernel.routes == dropped
        invariant Elems(kept) == tracked * Elems(want) + Elems(want[..i])
        invariant kernel.addrs == cleared + (Elems(want[..i]) - tracked)
      {
        ElemsTake(want, i);
        if want[i] !in addrs {
          var reply := kernel.AddAddr(want[i]);
          if reply == Failed {
            return false, lost, purged;
          }
          ElemsAppend(kept, want[i]);
          kept := kept + [want[i]];
        }
      }
      assert want[..|want|] == want;
      addrs, ok := kept, true;
    }

    method DropRoutes(wantSet: set<Prefix>) returns (kept: seq<Prefix>, ghost lost: set<Prefix>)
      modifies kernel
      ensures kernel.refused >= old(kernel.refused) && (kernel.refused == old(kernel.refused) ==> lost == {})
      ensures Elems(kept) == Elems(routes) * wantSet
      ensures lost <= Elems(routes) - wantSet
      ensures kernel.routes == old(kernel.routes) - (Elems(routes) - wantSet - lost)
      ensures kernel.addrs == old(kernel.addrs)
    {
      kept, lost := [], {};
      ghost var gone: set<Prefix> := {};
      for i := 0 to |routes|
        invariant Elems(kept) == Elems(routes[..i]) * wantSet
        invariant kernel.refused >= old(kernel.refused) && (kernel.refused == old(kernel.refused) ==> lost == {})
        invariant lost !! gone && lost + gone == Elems(routes[..i]) - wantSet
        invariant kernel.routes == old(kernel.routes) - gone
        invariant kernel.addrs == old(kernel.addrs)
      {
        ElemsTake(routes, i);
        if routes[i] in wantSet {
          ElemsAppend(kept, routes[i]);
          kept := kept + [routes[i]];
        } else {
          var reply := kernel.DeleteRoute(routes[i]);
          if reply != Failed {
            lost, gone := lost - {routes[i]}, gone + {routes[i]};
          } else if routes[i] !in gone {
            lost := lost + {routes[i]};
          }
        }
      }
      assert routes[..|routes|] == routes;
    }

    method SyncRoutes(want: seq<Prefix>) returns (ok: bool, ghost lost: set<Prefix>)
      modifies this, kernel
      ensures kernel.refused >= old(kernel.refused) && (kernel.refused == old(kernel.refused) ==> ok && lost == {})
      ensures Phase(old(Elems(routes)), old(kernel.routes), Elems(want), ok, lost, Elems(routes), kernel.routes)
      ensures kernel.addrs == old(kernel.addrs) && addrs == old(addrs)
    {
      ghost var tracked := Elems(routes);
      var kept;
      kept, lost := DropRoutes(set p | p in want);
      ghost var cleared := kernel.routes;
      for i := 0 to |want|
        invariant kernel.refused >= old(kernel.refused) && (kernel.refused == old(kernel.refused) ==> lost == {})
        invariant addrs == old(addrs) && routes == old(routes) && kernel.addrs == old(kernel.addrs)
        invariant Elems(kept) == tracked * Elems(want) + Elems(want[..i])
        invariant kernel.routes == cleared + (Elems(want[..i]) - tracked)
      {
        ElemsTake(want, i);
        if want[i] !in routes {
          var reply := kernel.AddRoute(want[i]);
          if reply == Failed {
            return false, lost;
          }
          ElemsAppend(kept, want[i]);
          kept := kept + [want[i]];
        }
      }
      assert want[..|want|] == want;
      routes, ok := kept, true;
    }

    method Set(wantAddrs: seq<Prefix>, wantRoutes: seq<Prefix>) returns (ok: bool, ghost call: Call)
      modifies this, kernel
      ensures ok == Succeeds(call)
      ensures kernel.refused == old(kernel.refused) ==> ok && call.addrsLost == {} && call.routesLost == {}
      ensures LinuxSet(old(Tracked()), old(kernel.View()), Table(Elems(wantAddrs), Elems(wantRoutes)), call,
                       Tracked(), kernel.View())
    {
      hide Phase;
      ghost var lost, purged, lostRoutes;
      ok, lost, purged := SyncAddrs(wantAddrs);
      if !ok {
        return false, Call(false, lost, purged, false, {});
      }
      ok, lostRoutes := SyncRoutes(wantRoutes);
      call := Call(true, lost, purged, ok, lostRoutes);
    }

    /** Forgets everything, including what the kernel refused to delete. */
    method Cleanup() returns (ghost lostAddrs: set<Prefix>, ghost lostRoutes: set<Prefix>)
      modifies this, kernel
      ensures Tracked() == Table({}, {})
      ensures kernel.refused == old(kernel.refused) ==> lostAddrs == {} && lostRoutes == {}
      ensures lostAddrs <= old(Elems(addrs)) && lostRoutes <= old(Elems(routes))
      ensures kernel.addrs == old(kernel.addrs) - (old(Elems(addrs)) - lostAddrs)
      ensures kernel.routes == old(kernel.routes) - (old(Elems(routes)) - lostRoutes) || kernel.routes == {}
    {
      ghost var purged;
      var kept;
      kept, lostAddrs, purged := DropAddrs({});
      kept, lostRoutes := DropRoutes({});
      addrs, routes := [], [];
    }
  }
}
