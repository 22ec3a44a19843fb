/** The tray's peer menu: current peers mapped onto a fixed pool of slots, so that a peer keeps
    its slot for as long as it stays. */
module PeerMenu {
  import opened Decimal
  import opened Basics

  datatype PeerView = PeerView(key: string, title: string, meshIP: string)

  datatype Entry = Entry(key: string, title: string, tooltip: string, meshIP: string, visible: bool)

  const BLANK := Entry("", "", "", "", false)

  datatype Plan = Plan(
    title: string, emptyTitle: string, emptyVisible: bool, slots: seq<Entry>,
    overflowTitle: string, overflowVisible: bool)

  function EntryFor(key: string, peer: PeerView): Entry {
    Entry(key, peer.title, "Copy " + peer.meshIP, peer.meshIP, true)
  }

  // ---- duplicate keys ------------------------------------------------------------------

  function Duplicate(base: string, d: nat): string {
    base + ['\0'] + Print(d)
  }

  lemma DuplicatesDiffer(base: string, d: nat, e: nat)
    requires d != e
    ensures Duplicate(base, d) != Duplicate(base, e)
  {
    PrintRoundTrip(d);
    PrintRoundTrip(e);
    assert Duplicate(base, d)[|base| + 1..] == Print(d);
    assert Duplicate(base, e)[|base| + 1..] == Print(e);
  }

  /** The base key if it is free, otherwise the first free numbered duplicate of it. */
  ghost predicate IsUniqueKey(base: string, taken: set<string>, key: string) {
    && key !in taken
    && (if base !in taken then key == base
        else exists d: nat :: d >= 2 && key == base + ['\0'] + Print(d)
                              && forall e: nat :: 2 <= e < d ==> base + ['\0'] + Print(e) in taken)
  }

  /** Only as many duplicates can be taken as there are taken keys: the search ends. */
  lemma {:induction false} SearchIsBounded(base: string, taken: set<string>, d: nat)
    requires d >= 2 && forall e: nat :: 2 <= e < d ==> Duplicate(base, e) in taken
    ensures d - 2 <= |taken|
  {
    if d > 2 {
      var last := Duplicate(base, d - 1);
      forall e: nat | 2 <= e < d - 1
        ensures Duplicate(base, e) in taken - {last}
      {
        DuplicatesDiffer(base, e, d - 1);
      }
      SearchIsBounded(base, taken - {last}, d - 1);
    }
  }

  /** The unbounded loop of the source, with its termination proof. */
  method UniquePeerMenuKey(base: string, existing: map<string, PeerView>) returns (key: string)
    ensures IsUniqueKey(base, existing.Keys, key)
  {
    if base !in existing {
      return base;
    }
    var d := 2;
    SearchIsBounded(base, existing.Keys, d);
    while true
      invariant d >= 2 && forall e: nat :: 2 <= e < d ==> Duplicate(base, e) in existing.Keys
      invariant d - 2 <= |existing|
      decreases |existing| + 2 - d
    {
      key := Duplicate(base, d);
      if key !in existing {
        forall e: nat | 2 <= e < d ensures base + ['\0'] + Print(e) in existing.Keys {
          assert Duplicate(base, e) in existing.Keys;
        }
        return key;
      }
      d := d + 1;
      SearchIsBounded(base, existing.Keys, d);
    }
  }

  // ---- what a plan promises ------------------------------------------------------------

  function Elements(s: seq<string>): set<string> {
    set x | x in s
  }

  /** The menu keys of the shown peers, in peer order. */
  ghost predicate IsOrder(peers: seq<PeerView>, order: seq<string>) {
    && |order| == |peers|
    && forall i :: 0 <= i < |peers| ==> IsUniqueKey(peers[i].key, Elements(order[..i]), order[i])
  }

  /** Slot keys: no key in two slots, except the blank key of hidden slots. */
  predicate Distinct(keys: seq<string>) {
    forall i, j :: 0 <= i < j < |keys| && keys[i] == keys[j] ==> keys[i] == ""
  }

  predicate Named(peers: seq<PeerView>) {
    forall i :: 0 <= i < |peers| ==> peers[i].key != ""
  }

  function KeysOf(slots: seq<Entry>): seq<string> {
    seq(|slots|, i requires 0 <= i < |slots| => slots[i].key)
  }

  ghost function Shown(slots: seq<Entry>): set<int> {
    set s | 0 <= s < |slots| && slots[s].visible
  }

  /** Peer `i` occupies slot `s` and no other. */
  predicate Occupies(slots: seq<Entry>, key: string, peer: PeerView, s: nat) {
    && s < |slots| && slots[s].visible && slots[s].key == key && slots[s].title == peer.title
    && slots[s].meshIP == peer.meshIP && slots[s].tooltip == "Copy " + peer.meshIP
    && forall t :: 0 <= t < |slots| && slots[t].visible && slots[t].key == key ==> t == s
  }

  ghost predicate HasSlot(slots: seq<Entry>, key: string, peer: PeerView) {
    exists s: nat :: Occupies(slots, key, peer, s)
  }

  /** How the slots must look for the shown peers, given the previous slot keys. */
  ghost predicate Arranged(peers: seq<PeerView>, order: seq<string>, previous: seq<string>, slots: seq<Entry>)
    requires |order| == |peers|
  {
    && |slots| == |previous|
    // each shown peer occupies exactly one slot
    && (forall i :: 0 <= i < |order| ==> HasSlot(slots, order[i], peers[i]))
    // exactly as many slots are visible, the rest are blank
    && |Shown(slots)| == |peers|
    && (forall s :: 0 <= s < |slots| && !slots[s].visible ==> slots[s] == BLANK)
    && (forall s :: 0 <= s < |slots| && slots[s].visible ==> slots[s].key in order)
    // a surviving key keeps its slot
    && (forall s :: 0 <= s < |slots| && previous[s] in order ==> slots[s].key == previous[s])
    // a new key takes the lowest free slot
    && (forall s :: 0 <= s < |slots| && slots[s].visible && previous[s] !in order ==>
          forall t :: 0 <= t < s ==> slots[t].visible)
    && Distinct(KeysOf(slots))
  }

  // ---- the planner ---------------------------------------------------------------------

  lemma UniqueIsNamed(base: string, taken: set<string>, key: string)
    requires IsUniqueKey(base, taken, key)
    ensures base != "" ==> key != ""
  {
  }

  /** One more peer gets one more key. */
  lemma OrderAppend(peers: seq<PeerView>, order: seq<string>, key: string)
    requires |order| < |peers| && IsOrder(peers[..|order|], order) && AllDifferent(order)
    requires IsUniqueKey(peers[|order|].key, Elements(order), key)
    ensures IsOrder(peers[..|order| + 1], order + [key]) && AllDifferent(order + [key])
    ensures Elements(order + [key]) == Elements(order) + {key} && key !in order
    ensures peers[|order|].key != "" ==> key != ""
  {
    UniqueIsNamed(peers[|order|].key, Elements(order), key);
    hide Duplicate;
    var n, after := |order|, order + [key];
    forall i | 0 <= i < n + 1
      ensures IsUniqueKey(peers[..n + 1][i].key, Elements(after[..i]), after[i])
    {
      if i < n {
        assert after[..i] == order[..i] && peers[..n + 1][i] == peers[..n][i];
      } else {
        assert after[..i] == order;
      }
    }
  }

  method KeyPeers(peers: seq<PeerView>) returns (order: seq<string>, byKey: map<string, PeerView>)
    ensures IsOrder(peers, order) && AllDifferent(order)
    ensures byKey.Keys == Elements(order)
    ensures forall i :: 0 <= i < |order| ==> byKey[order[i]] == peers[i]
    ensures Named(peers) ==> "" !in order
  {
    order, byKey := [], map[];
    for n := 0 to |peers|
      invariant |order| == n && IsOrder(peers[..n], order) && AllDifferent(order)
      invariant byKey.Keys == Elements(order)
      invariant forall i :: 0 <= i < n ==> byKey[order[i]] == peers[i]
      invariant Named(peers) ==> "" !in order
    {
      var key := UniquePeerMenuKey(peers[n].key, byKey);
      OrderAppend(peers, order, key);
      byKey := byKey[key := peers[n]];
      order := order + [key];
    }
    assert peers[..|peers|] == peers;
  }

  /** Slots whose previous key is still shown keep it; all others are blank. */
  predicate Kept(byKey: map<string, PeerView>, previous: seq<string>, slots: seq<Entry>, n: nat)
    requires n <= |previous|
  {
    && |slots| == |previous|
    && (forall s :: 0 <= s < n && previous[s] in byKey ==> slots[s] == EntryFor(previous[s], byKey[previous[s]]))
    && (forall s :: 0 <= s < n && previous[s] !in byKey ==> slots[s] == BLANK)
    && (forall s :: n <= s < |slots| ==> slots[s] == BLANK)
  }

  method KeepSlots(byKey: map<string, PeerView>, previous: seq<string>)
    returns (slots: seq<Entry>, placed: set<string>)
    ensures Kept(byKey, previous, slots, |previous|)
    ensures placed == set s | 0 <= s < |previous| && previous[s] in byKey :: previous[s]
  {
    slots := seq(|previous|, i => BLANK);
    placed := {};
    for n := 0 to |previous|
      invariant Kept(byKey, previous, slots, n)
      invariant placed == set s | 0 <= s < n && previous[s] in byKey :: previous[s]
    {
      if previous[n] in byKey {
        slots := slots[n := EntryFor(previous[n], byKey[previous[n]])];
        placed := placed + {previous[n]};
      }
    }
  }

  /** The state while new keys are placed: `free` is where the search for a free slot stands. */
  predicate Filling(byKey: map<string, PeerView>, previous: seq<string>, slots: seq<Entry>, placed: set<string>, free: nat)
  {
    && |slots| == |previous| && free <= |slots|
    && placed <= byKey.Keys
    && (forall s :: 0 <= s < |slots| && !slots[s].visible ==> slots[s] == BLANK)
    && (forall s :: 0 <= s < |slots| && slots[s].visible ==>
          slots[s].key in placed && slots[s] == EntryFor(slots[s].key, byKey[slots[s].key]))
    && (forall s :: 0 <= s < |slots| && previous[s] in byKey ==> slots[s].visible && slots[s].key == previous[s])
    && (forall s :: 0 <= s < free ==> slots[s].visible)
    && (forall s :: 0 <= s < |slots| && slots[s].visible && previous[s] !in byKey ==> s <= free)
  }

  /** Every placed key sits in the slot that `home` says, and nowhere else. */
  predicate Housed(slots: seq<Entry>, placed: set<string>, home: map<string, nat>) {
    && home.Keys == placed
    && (forall k :: k in home ==> home[k] < |slots| && slots[home[k]].visible && slots[home[k]].key == k)
    && (forall s :: 0 <= s < |slots| && slots[s].visible ==> slots[s].key in home && home[slots[s].key] == s)
  }

  lemma KeptIsHoused(byKey: map<string, PeerView>, previous: seq<string>, slots: seq<Entry>, placed: set<string>)
    returns (home: map<string, nat>)
    requires Kept(byKey, previous, slots, |previous|) && Distinct(previous) && "" !in byKey
    requires placed == set s | 0 <= s < |previous| && previous[s] in byKey :: previous[s]
    ensures Housed(slots, placed, home)
  {
    home := map k | k in placed :: var s :| 0 <= s < |previous| && previous[s] in byKey && previous[s] == k; s;
  }

  /** With every slot visible there are at least as many placed keys as slots. */
  lemma {:induction false} FullPool(slots: seq<Entry>, n: nat, keys: set<string>, home: map<string, nat>)
    requires n <= |slots| && home.Keys >= keys
    requires forall s :: 0 <= s < n ==> slots[s].key in keys && home[slots[s].key] == s
    ensures n <= |keys|
  {
    if n > 0 {
      FullPool(slots, n - 1, keys - {slots[n - 1].key}, home);
    }
  }

  lemma {:induction false} ElementsCount(order: seq<string>)
    requires AllDifferent(order)
    ensures |Elements(order)| == |order|
  {
    if order != [] {
      var last := order[|order| - 1];
      ElementsCount(order[..|order| - 1]);
      assert Elements(order) == Elements(order[..|order| - 1]) + {last};
    }
  }

  /** While a key is still to be placed and the pool is no smaller than the menu, some slot is
      free: the search never runs off the end. */
  lemma FreeSlotExists(order: seq<string>, slots: seq<Entry>, placed: set<string>, home: map<string, nat>, key: string)
    requires AllDifferent(order) && |order| <= |slots|
    requires Housed(slots, placed, home) && placed <= Elements(order) && key in order && key !in placed
    ensures exists s :: 0 <= s < |slots| && !slots[s].visible
  {
    if forall s :: 0 <= s < |slots| ==> slots[s].visible {
      FullPool(slots, |slots|, placed, home);
      ElementsCount(order);
      SmallerSubset(placed, Elements(order), key);
    }
  }

  lemma SmallerSubset(a: set<string>, b: set<string>, x: string)
    requires a <= b && x in b && x !in a
    ensures |a| < |b|
  {
    assert a <= b - {x};
    SubsetSize(a, b - {x});
  }

  /** Placing a key in the free slot keeps the state of the search. */
  lemma PlaceFills(byKey: map<string, PeerView>, previous: seq<string>, slots: seq<Entry>, placed: set<string>,
                   free: nat, key: string)
    requires Filling(byKey, previous, slots, placed, free) && key in byKey
    requires free < |slots| && !slots[free].visible
    ensures Filling(byKey, previous, slots[free := EntryFor(key, byKey[key])], placed + {key}, free)
  {
  }

  lemma PlaceHouses(slots: seq<Entry>, placed: set<string>, home: map<string, nat>, free: nat, key: string, entry: Entry)
    requires Housed(slots, placed, home) && key !in placed && entry.visible && entry.key == key
    requires free < |slots| && !slots[free].visible
    ensures Housed(slots[free := entry], placed + {key}, home[key := free])
  {
  }

  /** Places the keys that had no slot. `home` is absent when the previous keys were not distinct. */
  method FillSlots(order: seq<string>, byKey: map<string, PeerView>, previous: seq<string>,
                   kept: seq<Entry>, already: set<string>, ghost home0: map<string, nat>, ghost good: bool)
    returns (slots: seq<Entry>, ghost placed': set<string>, ghost home: map<string, nat>, ghost free': nat)
    requires AllDifferent(order) && byKey.Keys == Elements(order) && |order| <= |previous|
    requires Filling(byKey, previous, kept, already, 0)
    requires good ==> Housed(kept, already, home0)
    ensures Filling(byKey, previous, slots, placed', free')
    ensures good ==> Housed(slots, placed', home) && placed' == Elements(order)
  {
    hide Housed;
    slots := kept;
    var placed := already;
    home := home0;
    var free := 0;
    for n := 0 to |order|
      invariant Filling(byKey, previous, slots, placed, free)
      invariant good ==> Housed(slots, placed, home)
      invariant good ==> forall i :: 0 <= i < n ==> order[i] in placed
    {
      var key := order[n];
      if key in placed {
        continue;
      }
      while free < |slots| && slots[free].visible
        invariant Filling(byKey, previous, slots, placed, free)
      {
        free := free + 1;
      }
      if good {
        FreeSlotExists(order, slots, placed, home, key);
      }
      if free == |slots| {
        assert !good;
        break;
      }
      PlaceFills(byKey, previous, slots, placed, free, key);
      if good {
        PlaceHouses(slots, placed, home, free, key, EntryFor(key, byKey[key]));
      }
      slots := slots[free := EntryFor(key, byKey[key])];
      placed := placed + {key};
      home := home[key := free];
    }
    placed' := placed;
    free' := free;
  }

  ghost function Homes(keys: set<string>, home: map<string, nat>): set<int>
    requires keys <= home.Keys
  {
    set k | k in keys :: home[k]
  }

  lemma {:induction false} HomesCount(keys: set<string>, home: map<string, nat>)
    requires keys <= home.Keys
    requires forall j, k :: j in keys && k in keys && home[j] == home[k] ==> j == k
    ensures |Homes(keys, home)| == |keys|
  {
    if keys != {} {
      var k :| k in keys;
      HomesCount(keys - {k}, home);
      assert Homes(keys, home) == Homes(keys - {k}, home) + {home[k]};
    }
  }

  lemma CountShown(slots: seq<Entry>, placed: set<string>, home: map<string, nat>)
    requires Housed(slots, placed, home)
    ensures |Shown(slots)| == |placed|
  {
    HomesCount(placed, home);
    assert Shown(slots) == Homes(placed, home);
  }

  lemma HousedIsDistinct(slots: seq<Entry>, placed: set<string>, home: map<string, nat>)
    requires Housed(slots, placed, home)
    requires forall s :: 0 <= s < |slots| && !slots[s].visible ==> slots[s] == BLANK
    ensures Distinct(KeysOf(slots))
  {
    forall i, j | 0 <= i < j < |slots| && slots[i].key == slots[j].key
      ensures slots[i].key == ""
    {
    }
  }

  lemma EachPeerHasASlot(peer: PeerView, key: string, byKey: map<string, PeerView>, previous: seq<string>,
                         slots: seq<Entry>, placed: set<string>, home: map<string, nat>, free: nat)
    returns (s: nat)
    requires Filling(byKey, previous, slots, placed, free) && Housed(slots, placed, home)
    requires key in placed && key in byKey && byKey[key] == peer
    ensures Occupies(slots, key, peer, s)
  {
    s := home[key];
  }

  lemma FillingArranges(peers: seq<PeerView>, order: seq<string>, byKey: map<string, PeerView>, previous: seq<string>,
                        slots: seq<Entry>, home: map<string, nat>, free: nat)
    requires |order| == |peers| && AllDifferent(order) && byKey.Keys == Elements(order)
    requires forall i :: 0 <= i < |order| ==> byKey[order[i]] == peers[i]
    requires Filling(byKey, previous, slots, Elements(order), free) && Housed(slots, Elements(order), home)
    ensures Arranged(peers, order, previous, slots)
  {
    hide KeysOf, Distinct, Shown, Occupies, Housed;
    var placed := Elements(order);
    forall i | 0 <= i < |order|
      ensures HasSlot(slots, order[i], peers[i])
    {
      assert order[i] in placed;
      var s := EachPeerHasASlot(peers[i], order[i], byKey, previous, slots, placed, home, free);
    }
    ElementsCount(order);
    CountShown(slots, placed, home);
    HousedIsDistinct(slots, placed, home);
    assert forall k :: k in placed <==> k in order;
    assert forall s :: 0 <= s < |slots| && previous[s] in order ==> slots[s].key == previous[s];
    assert forall s :: 0 <= s < |slots| && slots[s].visible && previous[s] !in order ==> s <= free;
  }

  const DASH := '\U{2014}'

  /** What every plan promises. */
  ghost predicate GoodPlan(connected: bool, peers: seq<PeerView>, previous: seq<string>, plan: Plan) {
    var empty := !connected || peers == [] || previous == [];
    var shown := peers[..Min(|peers|, |previous|)];
    && |plan.slots| == |previous|
    && plan.emptyTitle == (if connected then "No peers" else "Connect to view peers")
    && plan.emptyVisible == empty
    && plan.title == (if empty then "Peers" else "Peers (" + Print(|peers|) + ")")
    && plan.overflowVisible == (!empty && |peers| > |previous|)
    && plan.overflowTitle ==
         (if plan.overflowVisible
          then Print(|peers| - |previous|) + " more peers " + [DASH] + " open the dashboard to view all" else "")
    && (empty ==> forall s :: 0 <= s < |plan.slots| ==> plan.slots[s] == BLANK)
    && (!empty && Named(peers) && Distinct(previous) ==>
          exists order :: IsOrder(shown, order) && Arranged(shown, order, previous, plan.slots))
  }

  method PlanPeerMenu(connected: bool, peers: seq<PeerView>, previous: seq<string>) returns (plan: Plan)
    ensures GoodPlan(connected, peers, previous, plan)
  {
    hide IsOrder, Arranged;
    plan := Plan("Peers", "Connect to view peers", true, seq(|previous|, i => BLANK), "", false);
    if connected {
      plan := plan.(emptyTitle := "No peers");
    }
    if !connected || peers == [] || previous == [] {
      return plan;
    }
    plan := plan.(title := "Peers (" + Print(|peers|) + ")", emptyVisible := false);
    var visible := Min(|peers|, |previous|);
    var slots := PlaceVisible(peers[..visible], previous);
    plan := plan.(slots := slots);
    var overflow := |peers| - visible;
    if overflow > 0 {
      plan := plan.(overflowVisible := true,
                    overflowTitle := Print(overflow) + " more peers " + [DASH] + " open the dashboard to view all");
    }
  }

  /** The slots for the shown peers: keys, then surviving slots, then new ones. */
  method PlaceVisible(shown: seq<PeerView>, previous: seq<string>) returns (slots: seq<Entry>)
    requires |shown| <= |previous|
    ensures |slots| == |previous|
    ensures Named(shown) && Distinct(previous) ==>
              exists order :: IsOrder(shown, order) && Arranged(shown, order, previous, slots)
  {
    hide IsOrder, Arranged;
    var order, byKey := KeyPeers(shown);
    var kept, placed := KeepSlots(byKey, previous);
    ghost var good := Named(shown) && Distinct(previous);
    ghost var home := map[];
    if good {
      assert "" !in byKey;
      home := KeptIsHoused(byKey, previous, kept, placed);
    }
    var result, finalPlaced, finalHome, free := FillSlots(order, byKey, previous, kept, placed, home, good);
    slots := result;
    if good {
      FillingArranges(shown, order, byKey, previous, slots, finalHome, free);
    }
  }

  // ---- any sequence of refreshes -------------------------------------------------------

  datatype Refresh = Refresh(connected: bool, peers: seq<PeerView>)

  /** The slot keys before refresh `k`: blank at first, then those of the plan before. */
  function Before(pool: nat, plans: seq<Plan>, k: nat): seq<string>
    requires k <= |plans|
  {
    if k == 0 then seq(pool, i => "") else KeysOf(plans[k - 1].slots)
  }

  ghost predicate History(pool: nat, inputs: seq<Refresh>, plans: seq<Plan>) {
    && |inputs| == |plans|
    && forall k :: 0 <= k < |plans| ==>
         Named(inputs[k].peers) && GoodPlan(inputs[k].connected, inputs[k].peers, Before(pool, plans, k), plans[k])
  }

  lemma BlankKeys(slots: seq<Entry>)
    requires forall s :: 0 <= s < |slots| ==> slots[s] == BLANK
    ensures Distinct(KeysOf(slots)) && Shown(slots) == {}
  {
  }

  lemma BlankPool(pool: nat)
    ensures Distinct(seq(pool, i => ""))
  {
  }

  lemma KeysCount(slots: seq<Entry>)
    ensures |KeysOf(slots)| == |slots|
  {
  }

  lemma PlanKeepsDistinct(connected: bool, peers: seq<PeerView>, previous: seq<string>, plan: Plan)
    requires GoodPlan(connected, peers, previous, plan) && Named(peers) && Distinct(previous)
    ensures |plan.slots| == |previous| && Distinct(KeysOf(plan.slots))
    ensures |Shown(plan.slots)| == (if connected then Min(|peers|, |previous|) else 0)
  {
    hide IsOrder, Print;
    if !connected || peers == [] || previous == [] {
      BlankKeys(plan.slots);
    }
  }

  lemma {:induction false} KeysStayDistinct(pool: nat, inputs: seq<Refresh>, plans: seq<Plan>, k: nat)
    requires History(pool, inputs, plans) && k <= |plans|
    ensures |Before(pool, plans, k)| == pool && Distinct(Before(pool, plans, k))
  {
    hide GoodPlan, Distinct, KeysOf, Named;
    if k == 0 {
      BlankPool(pool);
    } else {
      KeysStayDistinct(pool, inputs, plans, k - 1);
      PlanKeepsDistinct(inputs[k - 1].connected, inputs[k - 1].peers, Before(pool, plans, k - 1), plans[k - 1]);
      assert |KeysOf(plans[k - 1].slots)| == |plans[k - 1].slots| by {
        KeysCount(plans[k - 1].slots);
      }
    }
  }

  /** Over any sequence of refreshes that starts from empty slots: the pool never grows, visible
      keys stay distinct, exactly min(peers, slots) slots are visible while connected and none
      otherwise, each shown peer has one slot, and a key that survives a refresh keeps its slot. */
  lemma MenuOverTime(pool: nat, inputs: seq<Refresh>, plans: seq<Plan>, k: nat)
    requires History(pool, inputs, plans) && k < |plans|
    ensures var peers, slots := inputs[k].peers, plans[k].slots;
            && |slots| == pool && Distinct(KeysOf(slots))
            && |Shown(slots)| == (if inputs[k].connected then Min(|peers|, pool) else 0)
            && (inputs[k].connected && peers != [] && pool > 0 ==>
                  exists order :: IsOrder(peers[..Min(|peers|, pool)], order)
                                  && Arranged(peers[..Min(|peers|, pool)], order, Before(pool, plans, k), slots))
  {
    hide IsOrder, Arranged, Print;
    KeysStayDistinct(pool, inputs, plans, k);
    PlanKeepsDistinct(inputs[k].connected, inputs[k].peers, Before(pool, plans, k), plans[k]);
  }
}
