/** What the anchor answers to a load, how far a load gets through the answers when its context may
    end along the way, and what it makes of them. */
module LoadReplies {
  import opened Basics
  import opened Options
  import ContextIds

  // ---- Answers and the context -------------------------------------------------------------

  /** A record in a reply: its public metadata, and its data if it could be read. `hard` tells an
      error that ends the load (a rate limit, a cancellation) from one that is only logged. `ends`
      says that the caller's context ends while this record is read. */
  datatype Entry<D> = Entry(recipient: string, recordId: string, parentId: string, data: Option<D>, hard: bool, ends: bool)

  /** `ends` says that the context ends during the query. */
  datatype Reply<D> = Refused(hard: bool, ends: bool) | Answer(entries: seq<Entry<D>>, ends: bool)

  /** What a query yields: on a context that is over, a cancellation. */
  function Seen<D>(over: bool, r: Reply<D>): Reply<D> {
    if over then Refused(true, true) else r
  }

  /** An entry at which a loop gives up: the context ends, or its error is hard. */
  predicate Stops<D>(e: Entry<D>) {
    e.ends || (e.data.None? && e.hard)
  }

  /** Where a loop that looks at the context after every entry stops, if it begins with `over`. */
  function Stop<D>(es: seq<Entry<D>>, over: bool): (k: nat)
    ensures k <= |es|
    ensures over ==> k == 0
    ensures !over ==> (forall i :: 0 <= i < k ==> !Stops(es[i])) && (k < |es| ==> Stops(es[k]))
  {
    if es == [] || over || Stops(es[0]) then 0 else 1 + Stop(es[1..], false)
  }

  /** The entries such a loop takes, including the one it stops at. */
  function Taken<D>(es: seq<Entry<D>>, over: bool): seq<Entry<D>> {
    if Stop(es, over) < |es| then es[..Stop(es, over) + 1] else es
  }

  /** The loop reports an error only if the entry it stops at could not be read. */
  predicate Fails<D>(es: seq<Entry<D>>, over: bool) {
    Stop(es, over) < |es| && es[Stop(es, over)].data.None?
  }

  /** The context is over when the loop ends. */
  predicate OverAfter<D>(es: seq<Entry<D>>, over: bool) {
    over || (Stop(es, over) < |es| && es[Stop(es, over)].ends)
  }

  /** Where a loop stops that looks at the context only at entries it cannot read. */
  function LooseStop<D>(es: seq<Entry<D>>, over: bool): (k: nat)
    ensures k <= |es|
  {
    if es == [] || (es[0].data.None? && (es[0].hard || over || es[0].ends)) then 0
    else 1 + LooseStop(es[1..], over || es[0].ends)
  }

  predicate LooseOver<D>(es: seq<Entry<D>>, over: bool) {
    if es == [] then over else LooseOver(es[1..], over || es[0].ends)
  }

  // ---- Replies, one by one -------------------------------------------------------------------

  function All<D>(r: Reply<D>): seq<Entry<D>> {
    if r.Answer? then r.entries else []
  }

  function Kept<D>(r: Reply<D>): seq<Entry<D>> {
    if r.Answer? then Taken(r.entries, r.ends) else []
  }

  /** The entries of a reply that a loop never gets to. */
  function Dropped<D>(r: Reply<D>): seq<Entry<D>> {
    All(r)[|Kept(r)|..]
  }

  /** The stage that reads this reply goes on. */
  predicate Passes<D>(r: Reply<D>) {
    if r.Refused? then !r.hard && !r.ends else !Fails(r.entries, r.ends)
  }

  predicate Ends<D>(r: Reply<D>) {
    if r.Refused? then r.ends else OverAfter(r.entries, r.ends)
  }

  /** Nothing in the reply ends the load or the context. */
  predicate Quiet<D>(r: Reply<D>) {
    !r.ends && if r.Refused? then !r.hard else forall i :: 0 <= i < |r.entries| ==> !Stops(r.entries[i])
  }

  predicate LoosePasses<D>(r: Reply<D>) {
    if r.Refused? then !r.hard && !r.ends else LooseStop(r.entries, r.ends) == |r.entries|
  }

  predicate LooseEnds<D>(r: Reply<D>) {
    if r.Refused? then r.ends else LooseOver(r.entries, r.ends)
  }

  lemma QuietIs<D>(r: Reply<D>)
    ensures Quiet(r) <==> Passes(r) && !Ends(r)
    ensures Quiet(r) ==> Kept(r) == All(r) && Dropped(r) == []
  {
  }

  lemma {:induction false} LooseQuiet<D>(es: seq<Entry<D>>, over: bool)
    ensures LooseOver(es, true)
    ensures LooseStop(es, over) == |es| && !LooseOver(es, over) <==>
              !over && forall i :: 0 <= i < |es| ==> !Stops(es[i])
  {
    if es != [] {
      LooseQuiet(es[1..], over || es[0].ends);
      if LooseStop(es, over) == |es| && !LooseOver(es, over) {
        assert forall i :: 0 < i < |es| ==> es[i] == es[1..][i - 1];
      }
    }
  }

  lemma LooseQuietIs<D>(r: Reply<D>)
    ensures Quiet(r) <==> LoosePasses(r) && !LooseEnds(r)
  {
    if r.Answer? {
      LooseQuiet(r.entries, r.ends);
    }
  }

  /** The context ends before the last entry. */
  predicate EndsEarly<D>(r: Reply<D>) {
    r.Answer? && |r.entries| > 1 && (r.ends || exists i :: 0 <= i < |r.entries| - 1 && r.entries[i].ends)
  }

  /** A reply that raises no error has entries dropped if and only if the context ends before its
      last entry. */
  lemma DroppedIff<D>(r: Reply<D>)
    requires Passes(r)
    ensures Dropped(r) != [] <==> EndsEarly(r)
    ensures All(r) == Kept(r) + Dropped(r)
  {
    if r.Answer? {
      var k := Stop(r.entries, r.ends);
      if k + 1 < |r.entries| {
        assert r.ends || Stops(r.entries[k]);
      }
    }
  }

  // ---- A stage that asks several queries --------------------------------------------------------

  function Asked<D>(contexts: seq<string>, replies: string -> Reply<D>): (rs: seq<Reply<D>>)
    ensures |rs| == |contexts|
  {
    seq(|contexts|, i requires 0 <= i < |contexts| => replies(contexts[i]))
  }

  /** A stage gets through its queries: each passes, and the context may end only in the last. */
  predicate Through<D>(rs: seq<Reply<D>>, over: bool) {
    && (rs != [] ==> !over)
    && (forall i :: 0 <= i < |rs| ==> Passes(rs[i]))
    && (forall i :: 0 <= i < |rs| - 1 ==> !Ends(rs[i]))
  }

  predicate OverThen<D>(rs: seq<Reply<D>>, over: bool) {
    if rs == [] then over else Ends(rs[|rs| - 1])
  }

  predicate AllQuiet<D>(rs: seq<Reply<D>>) {
    forall i :: 0 <= i < |rs| ==> Quiet(rs[i])
  }

  lemma ThroughIsQuiet<D>(rs: seq<Reply<D>>, over: bool)
    ensures Through(rs, over) && !OverThen(rs, over) <==> AllQuiet(rs) && !over
  {
    hide Passes, Ends, Quiet;
    forall i | 0 <= i < |rs|
      ensures Quiet(rs[i]) <==> Passes(rs[i]) && !Ends(rs[i])
    {
      QuietIs(rs[i]);
    }
  }

  lemma ThroughTake<D>(rs: seq<Reply<D>>, over: bool, i: nat)
    requires i < |rs|
    ensures Through(rs[..i + 1], over) <==> Through(rs[..i], over) && !OverThen(rs[..i], over) && Passes(rs[i])
    ensures OverThen(rs[..i + 1], over) == Ends(rs[i])
    ensures Through(rs, over) ==> Through(rs[..i + 1], over)
  {
    hide Passes, Ends;
    assert rs[..i + 1] == rs[..i] + [rs[i]];
  }

  // ---- What becomes of the records ---------------------------------------------------------------

  datatype NodeData = NodeData(name: string, expired: bool)

  datatype NodeView = NodeView(did: string, recordId: string, memberRecordId: string, data: Option<NodeData>)

  datatype MemberView = MemberView(did: string, recordId: string, name: Option<string>)

  type NodeTable = map<string, NodeView>
  type MemberTable = map<string, MemberView>

  function NodeOf(e: Entry<NodeData>, memberRecordId: string): NodeView {
    NodeView(e.recipient, e.recordId, memberRecordId, e.data)
  }

  function MemberOf(e: Entry<string>): MemberView {
    MemberView(e.recipient, e.recordId, e.data)
  }

  function PutNode(t: NodeTable, e: Entry<NodeData>, memberRecordId: string): NodeTable {
    if e.recipient == "" then t else t[e.recipient := NodeOf(e, memberRecordId)]
  }

  function PutNodes(t: NodeTable, es: seq<Entry<NodeData>>, memberRecordId: string): NodeTable {
    if es == [] then t
    else PutNode(PutNodes(t, es[..|es| - 1], memberRecordId), es[|es| - 1], memberRecordId)
  }

  function PutMember(t: MemberTable, e: Entry<string>): MemberTable {
    if e.recipient == "" then t else t[e.recipient := MemberOf(e)]
  }

  function PutMembers(t: MemberTable, es: seq<Entry<string>>): MemberTable {
    if es == [] then t else PutMember(PutMembers(t, es[..|es| - 1]), es[|es| - 1])
  }

  /** The nodes of several members, in the order of the queries. */
  function PutUnder(t: NodeTable, ids: seq<string>, rs: seq<Reply<NodeData>>): NodeTable
    requires |ids| == |rs|
  {
    if ids == [] then t
    else
      var n := |ids| - 1;
      PutNodes(PutUnder(t, ids[..n], rs[..n]), Kept(rs[n]), ids[n])
  }

  lemma PutUnderTake(t: NodeTable, ids: seq<string>, rs: seq<Reply<NodeData>>, i: nat)
    requires |ids| == |rs| && i < |ids|
    ensures PutUnder(t, ids[..i + 1], rs[..i + 1]) == PutNodes(PutUnder(t, ids[..i], rs[..i]), Kept(rs[i]), ids[i])
  {
    assert ids[..i + 1][..i] == ids[..i] && rs[..i + 1][..i] == rs[..i];
  }

  lemma PutNodesTake(t: NodeTable, es: seq<Entry<NodeData>>, memberRecordId: string, i: nat)
    requires i < |es|
    ensures PutNodes(t, es[..i + 1], memberRecordId) == PutNode(PutNodes(t, es[..i], memberRecordId), es[i], memberRecordId)
  {
    assert es[..i + 1][..i] == es[..i];
  }

  lemma PutMembersTake(t: MemberTable, es: seq<Entry<string>>, i: nat)
    requires i < |es|
    ensures PutMembers(t, es[..i + 1]) == PutMember(PutMembers(t, es[..i]), es[i])
  {
    assert es[..i + 1][..i] == es[..i];
  }

  /** Entry `i` is the last one for this recipient. */
  predicate LastFor<D>(es: seq<Entry<D>>, did: string, i: nat) {
    i < |es| && es[i].recipient == did && forall j :: i < j < |es| ==> es[j].recipient != did
  }

  predicate Lists<D>(es: seq<Entry<D>>, did: string) {
    did != "" && exists i :: 0 <= i < |es| && es[i].recipient == did
  }

  /** A DID that is listed shows its last entry, under the given member; any other shows what it
      showed before. */
  lemma {:induction false} LastNodeShows(t: NodeTable, es: seq<Entry<NodeData>>, memberRecordId: string, did: string)
    returns (i: nat)
    ensures var after := PutNodes(t, es, memberRecordId);
            if Lists(es, did)
            then && LastFor(es, did, i) && did in after && after[did].did == did && after[did].recordId == es[i].recordId
                 && after[did].memberRecordId == memberRecordId && after[did].data == es[i].data
            else (did in after <==> did in t) && (did in t ==> after[did] == t[did])
  {
    i := 0;
    if es != [] {
      var n := |es| - 1;
      i := LastNodeShows(t, es[..n], memberRecordId, did);
      if es[n].recipient == did {
        i := n;
      } else {
        assert Lists(es, did) ==> Lists(es[..n], did);
      }
    }
  }

  lemma {:induction false} LastMemberShows(t: MemberTable, es: seq<Entry<string>>, did: string) returns (i: nat)
    ensures var after := PutMembers(t, es);
            if Lists(es, did)
            then && LastFor(es, did, i) && did in after && after[did].did == did
                 && after[did].recordId == es[i].recordId && after[did].name == es[i].data
            else (did in after <==> did in t) && (did in t ==> after[did] == t[did])
  {
    i := 0;
    if es != [] {
      var n := |es| - 1;
      i := LastMemberShows(t, es[..n], did);
      if es[n].recipient == did {
        i := n;
      } else {
        assert Lists(es, did) ==> Lists(es[..n], did);
      }
    }
  }

  /** Reply `k` is the last one that lists this DID. */
  predicate LastListing(rs: seq<Reply<NodeData>>, did: string, k: nat) {
    k < |rs| && Lists(Kept(rs[k]), did) && forall j :: k < j < |rs| ==> !Lists(Kept(rs[j]), did)
  }

  /** A DID listed under some member shows the last entry of the last reply that lists it, with that
      member's record; any other shows what it showed before. */
  lemma {:induction false} LastUnderShows(t: NodeTable, ids: seq<string>, rs: seq<Reply<NodeData>>, did: string)
    returns (k: nat, i: nat)
    requires |ids| == |rs|
    ensures var after := PutUnder(t, ids, rs);
            if exists j :: 0 <= j < |rs| && Lists(Kept(rs[j]), did)
            then && LastListing(rs, did, k) && LastFor(Kept(rs[k]), did, i) && did in after
                 && after[did].did == did && after[did].recordId == Kept(rs[k])[i].recordId
                 && after[did].memberRecordId == ids[k] && after[did].data == Kept(rs[k])[i].data
            else (did in after <==> did in t) && (did in t ==> after[did] == t[did])
  {
    hide Kept, Lists, PutNodes;
    k, i := 0, 0;
    if ids != [] {
      var n := |ids| - 1;
      k, i := LastUnderShows(t, ids[..n], rs[..n], did);
      var last := LastNodeShows(PutUnder(t, ids[..n], rs[..n]), Kept(rs[n]), ids[n], did);
      if Lists(Kept(rs[n]), did) {
        k, i := n, last;
      } else {
        assert forall j :: 0 <= j < n ==> rs[..n][j] == rs[j];
      }
    }
  }

  // ---- Which queries are asked ---------------------------------------------------------------------

  /** One query for each member that has a record: `dids` lists those members once each. */
  ghost predicate QueriesMembers(t: MemberTable, dids: seq<string>, ids: seq<string>) {
    && |dids| == |ids| && AllDifferent(dids)
    && (forall d :: d in dids <==> d in t && t[d].recordId != "")
    && forall i :: 0 <= i < |ids| ==> ids[i] == t[dids[i]].recordId
  }

  /** One query for each node that has a record, in the context its write assigned. */
  ghost predicate QueriesNodes(network: string, t: NodeTable, dids: seq<string>, contexts: seq<string>) {
    && |dids| == |contexts| && AllDifferent(dids)
    && (forall d :: d in dids <==> d in t && t[d].recordId != "")
    && forall i :: 0 <= i < |contexts| ==>
         contexts[i] == ContextIds.NodeContext(network, t[dids[i]].memberRecordId, t[dids[i]].recordId)
  }

  /** A member's node is asked about in the context that its write assigned, under that member. */
  lemma MemberNodeAsked(t: NodeTable, ids: seq<string>, rs: seq<Reply<NodeData>>, did: string,
                        network: string, dids: seq<string>, contexts: seq<string>)
    returns (k: nat, i: nat, c: nat)
    requires |ids| == |rs| && exists j :: 0 <= j < |rs| && Lists(Kept(rs[j]), did)
    requires QueriesNodes(network, PutUnder(t, ids, rs), dids, contexts)
    ensures LastListing(rs, did, k) && LastFor(Kept(rs[k]), did, i)
    ensures var path := [network, ids[k], Kept(rs[k])[i].recordId];
            ContextIds.Plain(path) ==> c < |contexts| && contexts[c] == ContextIds.AtPath(path).contextId
  {
    hide PutUnder, Kept, Lists, ContextIds.AtPath;
    k, i := LastUnderShows(t, ids, rs, did);
    c := 0;
    var path := [network, ids[k], Kept(rs[k])[i].recordId];
    if ContextIds.Plain(path) {
      assert path[1] != "" && path[2] != "";
      c :| 0 <= c < |dids| && dids[c] == did;
      ContextIds.PathContext(network, ids[k], path[2]);
    }
  }

  function MemberContexts(network: string, ids: seq<string>): (cs: seq<string>)
    ensures |cs| == |ids|
  {
    seq(|ids|, i requires 0 <= i < |ids| => ContextIds.MemberContext(network, ids[i]))
  }

  /** No two nodes share a record. */
  predicate DistinctRecords(t: NodeTable) {
    forall d, e :: d in t && e in t && t[d].recordId == t[e].recordId && t[d].recordId != "" ==> d == e
  }

  // ---- Children of a record ------------------------------------------------------------------------

  /** The readable children of one record. */
  function Matching(es: seq<Entry<string>>, id: string): seq<string> {
    if es == [] then []
    else
      var n := |es| - 1;
      Matching(es[..n], id) + if es[n].data.Some? && es[n].parentId == id && id != "" then [es[n].data.value] else []
  }

  lemma {:induction false} MatchingAppend(a: seq<Entry<string>>, b: seq<Entry<string>>, id: string)
    ensures Matching(a + b, id) == Matching(a, id) + Matching(b, id)
  {
    if b == [] {
      assert a + b == a;
    } else {
      var n := |b| - 1;
      assert (a + b)[..|a| + n] == a + b[..n];
      MatchingAppend(a, b[..n], id);
    }
  }

  /** The readable children of one record that a stage gets from its replies, in their order. */
  function Gathered(rs: seq<Reply<string>>, id: string): seq<string> {
    if rs == [] then [] else Gathered(rs[..|rs| - 1], id) + Matching(Kept(rs[|rs| - 1]), id)
  }

  /** All readable children of one record in the replies. */
  function Available(rs: seq<Reply<string>>, id: string): seq<string> {
    if rs == [] then [] else Available(rs[..|rs| - 1], id) + Matching(All(rs[|rs| - 1]), id)
  }

  /** What a stage that gets through has not gathered. */
  function Lost(rs: seq<Reply<string>>): seq<Entry<string>> {
    if rs == [] then [] else Dropped(rs[|rs| - 1])
  }

  lemma {:induction false} QuietGathersAll(rs: seq<Reply<string>>, id: string)
    requires AllQuiet(rs)
    ensures Gathered(rs, id) == Available(rs, id)
  {
    hide Quiet, Kept, All;
    if rs != [] {
      QuietGathersAll(rs[..|rs| - 1], id);
      QuietIs(rs[|rs| - 1]);
    }
  }

  /** A stage that gets through gathers everything, but for what the last reply dropped. */
  lemma GatheredIsAvailable(rs: seq<Reply<string>>, id: string)
    requires Through(rs, false)
    ensures Gathered(rs, id) + Matching(Lost(rs), id) == Available(rs, id)
  {
    hide Passes, Ends, Quiet, Kept, All, Dropped, Matching;
    if rs != [] {
      var n := |rs| - 1;
      assert rs[..n + 1] == rs;
      assert AllQuiet(rs[..n]) by {
        forall i | 0 <= i < n ensures Quiet(rs[..n][i]) {
          QuietIs(rs[i]);
        }
      }
      QuietGathersAll(rs[..n], id);
      DroppedIff(rs[n]);
      MatchingAppend(Kept(rs[n]), Dropped(rs[n]), id);
    } else {
      NothingMatches(id);
    }
  }

  lemma NothingMatches(id: string)
    ensures Matching([], id) == []
  {
  }

  /** A record's endpoints after one more entry. */
  function PutEndpoint(eps: seq<string>, e: Entry<string>, id: string): seq<string> {
    if e.data.Some? && e.parentId == id && id != "" then eps + [e.data.value] else eps
  }

  function Extended(eps: seq<string>, es: seq<Entry<string>>, id: string): seq<string> {
    if es == [] then eps else PutEndpoint(Extended(eps, es[..|es| - 1], id), es[|es| - 1], id)
  }

  lemma ExtendedTake(es: seq<Entry<string>>, i: nat)
    requires i < |es|
    ensures forall eps: seq<string>, id: string ::
              Extended(eps, es[..i + 1], id) == PutEndpoint(Extended(eps, es[..i], id), es[i], id)
  {
    assert es[..i + 1][..i] == es[..i];
  }

  function ExtendedBy(eps: seq<string>, rs: seq<Reply<string>>, id: string): seq<string> {
    if rs == [] then eps else Extended(ExtendedBy(eps, rs[..|rs| - 1], id), Kept(rs[|rs| - 1]), id)
  }

  lemma ExtendedByTake(rs: seq<Reply<string>>, i: nat)
    requires i < |rs|
    ensures forall eps: seq<string>, id: string ::
              ExtendedBy(eps, rs[..i + 1], id) == Extended(ExtendedBy(eps, rs[..i], id), Kept(rs[i]), id)
  {
    assert rs[..i + 1][..i] == rs[..i];
  }

  lemma {:induction false} ExtendedIs(eps: seq<string>, es: seq<Entry<string>>, id: string)
    ensures Extended(eps, es, id) == eps + Matching(es, id)
  {
    if es != [] {
      ExtendedIs(eps, es[..|es| - 1], id);
    }
  }

  lemma {:induction false} ExtendedByIs(rs: seq<Reply<string>>, id: string)
    ensures ExtendedBy([], rs, id) == Gathered(rs, id)
  {
    hide Kept, Extended, Matching;
    if rs != [] {
      var n := |rs| - 1;
      ExtendedByIs(rs[..n], id);
      ExtendedIs(ExtendedBy([], rs[..n], id), Kept(rs[n]), id);
    }
  }

  /** A record's info after one more entry. */
  function PutInfo(info: Option<string>, e: Entry<string>, id: string): Option<string> {
    if e.data.Some? && e.parentId == id && id != "" then e.data else info
  }

  function Informed(info: Option<string>, es: seq<Entry<string>>, id: string): Option<string> {
    if es == [] then info else PutInfo(Informed(info, es[..|es| - 1], id), es[|es| - 1], id)
  }

  lemma InformedTake(es: seq<Entry<string>>, i: nat)
    requires i < |es|
    ensures forall o: Option<string>, id: string ::
              Informed(o, es[..i + 1], id) == PutInfo(Informed(o, es[..i], id), es[i], id)
  {
    assert es[..i + 1][..i] == es[..i];
  }

  /** A record's info after all replies: the last readable one of its own record. */
  function InformedBy(info: Option<string>, rs: seq<Reply<string>>, id: string): Option<string> {
    if rs == [] then info else Informed(InformedBy(info, rs[..|rs| - 1], id), Kept(rs[|rs| - 1]), id)
  }

  lemma InformedByTake(rs: seq<Reply<string>>, i: nat)
    requires i < |rs|
    ensures forall o: Option<string>, id: string ::
              InformedBy(o, rs[..i + 1], id) == Informed(InformedBy(o, rs[..i], id), Kept(rs[i]), id)
  {
    assert rs[..i + 1][..i] == rs[..i];
  }

  function Latest(s: seq<string>): Option<string> {
    if s == [] then None else Some(s[|s| - 1])
  }

  /** The last readable child of one record over all replies, none of which is cut short. */
  lemma {:induction false} InformedIsLatest(rs: seq<Reply<string>>, id: string)
    requires AllQuiet(rs)
    ensures InformedBy(None, rs, id) == Latest(Available(rs, id))
  {
    hide Quiet, Kept, All;
    if rs != [] {
      var n := |rs| - 1;
      InformedIsLatest(rs[..n], id);
      QuietIs(rs[n]);
      InformedIsLast(InformedBy(None, rs[..n], id), All(rs[n]), id);
    }
  }

  lemma {:induction false} InformedIsLast(info: Option<string>, es: seq<Entry<string>>, id: string)
    ensures var all := Matching(es, id);
            Informed(info, es, id) == if all == [] then info else Some(all[|all| - 1])
  {
    if es != [] {
      InformedIsLast(info, es[..|es| - 1], id);
    }
  }

  // ---- Relays and policy ---------------------------------------------------------------------------

  function Readable(es: seq<Entry<string>>): seq<string> {
    if es == [] then []
    else Readable(es[..|es| - 1]) + if es[|es| - 1].data.Some? then [es[|es| - 1].data.value] else []
  }

  function Count(es: seq<Entry<string>>): nat {
    if es == [] then 0 else Count(es[..|es| - 1]) + if es[|es| - 1].data.Some? then 1 else 0
  }

  /** Every readable entry, in order, and nothing else. */
  lemma {:induction false} ReadableIs(es: seq<Entry<string>>)
    ensures |Readable(es)| == Count(es)
    ensures forall i :: 0 <= i < |es| && es[i].data.Some? ==>
              Count(es[..i]) < Count(es) && Readable(es)[Count(es[..i])] == es[i].data.value
  {
    if es != [] {
      var n := |es| - 1;
      ReadableIs(es[..n]);
      forall i | 0 <= i < |es| && es[i].data.Some?
        ensures Count(es[..i]) < Count(es) && Readable(es)[Count(es[..i])] == es[i].data.value
      {
        if i < n {
          assert es[..n][..i] == es[..i];
        }
      }
    }
  }

  /** The last readable child of a record is its info. */
  lemma {:induction false} LastInfoShows(info: Option<string>, es: seq<Entry<string>>, id: string) returns (i: nat)
    ensures if exists j :: 0 <= j < |es| && IsChild(es[j], id)
            then i < |es| && IsChild(es[i], id) && Informed(info, es, id) == es[i].data && forall j :: i < j < |es| ==> !IsChild(es[j], id)
            else Informed(info, es, id) == info
  {
    i := 0;
    if es != [] {
      var n := |es| - 1;
      i := LastInfoShows(info, es[..n], id);
      if IsChild(es[n], id) {
        i := n;
      } else {
        assert forall j :: 0 <= j < n ==> es[..n][j] == es[j];
      }
    }
  }

  /** A readable record under the record with this id. */
  predicate IsChild(e: Entry<string>, id: string) {
    e.data.Some? && e.parentId == id && id != ""
  }

  /** What makes a reply quiet, field by field. */
  lemma QuietMeans<D>(r: Reply<D>)
    ensures Quiet(r) <==>
              && !r.ends && (r.Refused? ==> !r.hard)
              && (r.Answer? ==> forall i :: 0 <= i < |r.entries| ==>
                    !r.entries[i].ends && (r.entries[i].data.None? ==> !r.entries[i].hard))
  {
  }

  /** A readable newest policy is the policy afterwards; an unreadable or missing one changes nothing. */
  lemma NewestIs(old_: Option<string>, r: Reply<string>)
    ensures r.Answer? && |r.entries| > 0 && r.entries[0].data.Some? ==> Newest(old_, r) == Some(r.entries[0].data.value)
    ensures r.Refused? || |r.entries| == 0 || r.entries[0].data.None? ==> Newest(old_, r) == old_
  {
  }

  function Newest(old_: Option<string>, r: Reply<string>): Option<string> {
    if r.Answer? && r.entries != [] && r.entries[0].data.Some? then r.entries[0].data else old_
  }

  /** Only the first policy is read. */
  predicate AclPasses(r: Reply<string>) {
    if r.Refused? then !r.hard && !r.ends
    else r.entries == [] || r.entries[0].data.Some? || !(r.entries[0].hard || r.ends || r.entries[0].ends)
  }

  predicate AclEnds(r: Reply<string>) {
    r.ends || (r.Answer? && r.entries != [] && r.entries[0].ends)
  }

  /** The two child stages ask the same nodes, so whatever ends the context in the first makes the
      second fail. */
  lemma ChildStages(infoReplies: seq<Reply<string>>, endpointReplies: seq<Reply<string>>, over: bool)
    requires infoReplies == [] <==> endpointReplies == []
    ensures Through(infoReplies, over) && Through(endpointReplies, OverThen(infoReplies, over)) <==>
              && (infoReplies != [] ==> !over) && AllQuiet(infoReplies) && Through(endpointReplies, false)
  {
    hide Passes, Ends, Quiet, AllQuiet;
    ThroughIsQuiet(infoReplies, over);
    if infoReplies == [] {
      assert AllQuiet(infoReplies) by { NoneIsQuiet<string>(); }
    }
  }

  lemma NoneIsQuiet<D>()
    ensures AllQuiet<D>([])
  {
  }

  lemma SameNodesAsked(network: string, t: NodeTable, dids: seq<string>, contexts: seq<string>,
                       dids': seq<string>, contexts': seq<string>)
    requires QueriesNodes(network, t, dids, contexts) && QueriesNodes(network, t, dids', contexts')
    ensures contexts == [] <==> contexts' == []
    ensures |contexts| > 1 ==> |t| > 1
  {
    if contexts != [] {
      assert dids[0] in dids';
    }
    if contexts' != [] {
      assert dids'[0] in dids;
    }
    if |contexts| > 1 {
      assert dids[0] in dids && dids[1] in dids;
      assert |{dids[0], dids[1]}| == 2;
      assert {dids[0], dids[1]} <= t.Keys;
      SubsetSize({dids[0], dids[1]}, t.Keys);
    }
  }

  // ---- A whole load ----------------------------------------------------------------------------------

  datatype Replies = Replies(
    network: Option<string>, networkEnds: bool,
    nodes: Reply<NodeData>,
    members: Reply<string>,
    memberNodes: string -> Reply<NodeData>,
    relays: Reply<string>,
    acl: Reply<string>,
    infos: string -> Reply<string>,
    endpoints: string -> Reply<string>)

  /** The membership is not over; that of an unreadable record never is. */
  predicate InForce(data: Option<NodeData>) {
    data.Some? ==> !data.value.expired
  }

  /** A load that commits has met nothing that ends it: every reply was quiet. Only the policy, if no
      node has a record, and the last endpoint reply may see the context end. */
  predicate Commits(a: Replies, memberReplies: seq<Reply<NodeData>>, infoReplies: seq<Reply<string>>,
                    endpointReplies: seq<Reply<string>>) {
    && a.network.Some? && !a.networkEnds
    && a.nodes.Answer? && Quiet(a.nodes) && Quiet(a.members) && AllQuiet(memberReplies)
    && a.relays.Answer? && Quiet(a.relays)
    && AclPasses(a.acl) && (infoReplies != [] ==> !AclEnds(a.acl))
    && AllQuiet(infoReplies) && Through(endpointReplies, false)
  }

  /** A committed load has dropped endpoint entries if and only if its context ended in the last
      endpoint reply, before the last entry. Nothing else is ever dropped. */
  lemma CommittedDropsIff(a: Replies, memberReplies: seq<Reply<NodeData>>, infoReplies: seq<Reply<string>>,
                          endpointReplies: seq<Reply<string>>)
    requires Commits(a, memberReplies, infoReplies, endpointReplies)
    ensures Lost(endpointReplies) != [] <==> endpointReplies != [] && EndsEarly(endpointReplies[|endpointReplies| - 1])
    ensures Dropped(a.nodes) == [] && forall i :: 0 <= i < |memberReplies| ==> Dropped(memberReplies[i]) == []
    ensures forall i :: 0 <= i < |infoReplies| ==> Dropped(infoReplies[i]) == []
    ensures forall i :: 0 <= i < |endpointReplies| - 1 ==> Dropped(endpointReplies[i]) == []
  {
    hide Quiet, Passes, Ends, Dropped, EndsEarly, AclPasses, AclEnds;
    if endpointReplies != [] {
      DroppedIff(endpointReplies[|endpointReplies| - 1]);
    }
    QuietIs(a.nodes);
    QuietDrops(memberReplies);
    QuietDrops(infoReplies);
    forall i | 0 <= i < |endpointReplies| - 1 ensures Dropped(endpointReplies[i]) == [] {
      QuietIs(endpointReplies[i]);
    }
  }

  lemma QuietDrops<D>(rs: seq<Reply<D>>)
    requires AllQuiet(rs)
    ensures forall i :: 0 <= i < |rs| ==> Dropped(rs[i]) == []
  {
    forall i | 0 <= i < |rs| ensures Dropped(rs[i]) == [] {
      QuietIs(rs[i]);
    }
  }

  /** The stages before the members' nodes go through. */
  predicate Opens(a: Replies) {
    a.network.Some? && !a.networkEnds && a.nodes.Answer? && Quiet(a.nodes) && LoosePasses(a.members)
  }

  /** Stage by stage, what a load meets adds up to what a committed load has met. */
  lemma StagesCommit(a: Replies, memberReplies: seq<Reply<NodeData>>, infoReplies: seq<Reply<string>>,
                     endpointReplies: seq<Reply<string>>)
    ensures Commits(a, memberReplies, infoReplies, endpointReplies) <==>
              && Opens(a) && Through(memberReplies, LooseEnds(a.members)) && !OverThen(memberReplies, LooseEnds(a.members))
              && a.relays.Answer? && LoosePasses(a.relays) && !LooseEnds(a.relays) && AclPasses(a.acl)
              && (infoReplies != [] ==> !AclEnds(a.acl)) && AllQuiet(infoReplies) && Through(endpointReplies, false)
  {
    hide Quiet, LoosePasses, LooseEnds, Through, OverThen, AllQuiet, AclPasses, AclEnds;
    ThroughIsQuiet(memberReplies, LooseEnds(a.members));
    LooseQuietIs(a.members);
    LooseQuietIs(a.relays);
  }
}
