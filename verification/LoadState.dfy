/** Loading the mesh state as a transaction on shared objects: the client's maps are cleared and
    refilled in place, and put back from a shallow snapshot when anything fails. */
module LoadState {
  import opened Basics
  import opened Options
  import opened LoadReplies
  import ContextIds

  /** The caller's context. Once it is over it stays over, and every query fails. */
  class Context {
    var over: bool

    constructor (over: bool)
      ensures this.over == over
    {
      this.over := over;
    }

    method Query<D>(reply: Reply<D>) returns (r: Reply<D>)
      modifies this
      ensures r == Seen(old(over), reply) && over == r.ends
    {
      r := if over then Refused(true, true) else reply;
      over := r.ends;
    }

    method Reads<D>(e: Entry<D>)
      modifies this
      ensures over == (old(over) || e.ends)
    {
      over := over || e.ends;
    }
  }

  // ---- The shared objects ------------------------------------------------------------------

  class NodeRecord {
    var did: string
    var recordId: string
    var memberRecordId: string
    var data: Option<NodeData>
    var info: Option<string>
    var endpoints: seq<string>

    constructor (did: string, recordId: string, memberRecordId: string, data: Option<NodeData>)
      ensures View() == NodeView(did, recordId, memberRecordId, data) && info == None && endpoints == []
    {
      this.did, this.recordId, this.memberRecordId, this.data := did, recordId, memberRecordId, data;
      info, endpoints := None, [];
    }

    function View(): NodeView
      reads `did, `recordId, `memberRecordId, `data
    {
      NodeView(did, recordId, memberRecordId, data)
    }
  }

  class MemberRecord {
    var did: string
    var recordId: string
    var name: Option<string>

    constructor (did: string, recordId: string, name: Option<string>)
      ensures View() == MemberView(did, recordId, name)
    {
      this.did, this.recordId, this.name := did, recordId, name;
    }

    function View(): MemberView
      reads this
    {
      MemberView(did, recordId, name)
    }
  }

  class NodeMap {
    var entries: map<string, NodeRecord>

    constructor ()
      ensures entries == map[]
    {
      entries := map[];
    }

    ghost function View(): NodeTable
      reads this, entries.Values`did, entries.Values`recordId, entries.Values`memberRecordId, entries.Values`data
    {
      map d | d in entries :: entries[d].View()
    }

    /** No record has children yet. */
    ghost predicate Bare()
      reads this, entries.Values`info, entries.Values`endpoints
    {
      forall n :: n in entries.Values ==> n.info == None && n.endpoints == []
    }
  }

  class MemberMap {
    var entries: map<string, MemberRecord>

    constructor ()
      ensures entries == map[]
    {
      entries := map[];
    }

    ghost function View(): MemberTable
      reads this, entries.Values
    {
      map d | d in entries :: entries[d].View()
    }
  }

  method CloneNodes(source: NodeMap) returns (clone: NodeMap)
    ensures fresh(clone) && clone.entries == source.entries
  {
    clone := new NodeMap();
    var left := source.entries.Keys;
    while left != {}
      invariant left <= source.entries.Keys && fresh(clone) && source.entries == old(source.entries)
      invariant clone.entries.Keys == source.entries.Keys - left
      invariant forall k :: k in clone.entries ==> clone.entries[k] == source.entries[k]
    {
      var k :| k in left;
      clone.entries := clone.entries[k := source.entries[k]];
      left := left - {k};
    }
  }

  method CloneMembers(source: MemberMap) returns (clone: MemberMap)
    ensures fresh(clone) && clone.entries == source.entries
  {
    clone := new MemberMap();
    var left := source.entries.Keys;
    while left != {}
      invariant left <= source.entries.Keys && fresh(clone) && source.entries == old(source.entries)
      invariant clone.entries.Keys == source.entries.Keys - left
      invariant forall k :: k in clone.entries ==> clone.entries[k] == source.entries[k]
    {
      var k :| k in left;
      clone.entries := clone.entries[k := source.entries[k]];
      left := left - {k};
    }
  }

  datatype Snapshot = Snapshot(network: Option<string>, members: MemberMap, nodes: NodeMap, relays: seq<string>, acl: Option<string>)

  /** The five fields by content. */
  datatype Contents = Contents(network: Option<string>, members: map<string, MemberRecord>, nodes: map<string, NodeRecord>,
                               relays: seq<string>, acl: Option<string>)

  /** The queries of one load, in order: members by record id, and child contexts for infos and
      endpoints, each with the DIDs they stand for. */
  datatype Queries = Queries(members: seq<string>, memberDids: seq<string>, infos: seq<string>, infoDids: seq<string>,
                             endpoints: seq<string>, endpointDids: seq<string>)

  class Client {
    const networkRecordId: string
    const selfDid: string
    var network: Option<string>
    var members: MemberMap
    var nodes: NodeMap
    var relays: seq<string>
    var acl: Option<string>

    constructor (networkRecordId: string, selfDid: string)
      ensures this.networkRecordId == networkRecordId && this.selfDid == selfDid
      ensures fresh(members) && fresh(nodes) && members.entries == map[] && nodes.entries == map[]
    {
      this.networkRecordId, this.selfDid := networkRecordId, selfDid;
      network, relays, acl := None, [], None;
      members := new MemberMap();
      nodes := new NodeMap();
    }

    ghost function View(): Contents
      reads this, members, nodes
    {
      Contents(network, members.entries, nodes.entries, relays, acl)
    }

    method StateSnapshot() returns (s: Snapshot)
      ensures fresh(s.members) && fresh(s.nodes)
      ensures Contents(s.network, s.members.entries, s.nodes.entries, s.relays, s.acl) == View()
    {
      var m := CloneMembers(members);
      var n := CloneNodes(nodes);
      s := Snapshot(network, m, n, relays, acl);
    }

    method RestoreState(s: Snapshot)
      modifies this`network, this`members, this`nodes, this`relays, this`acl
      ensures View() == Contents(s.network, s.members.entries, s.nodes.entries, s.relays, s.acl)
      ensures members == s.members && nodes == s.nodes
    {
      network, members, nodes, relays, acl := s.network, s.members, s.nodes, s.relays, s.acl;
    }

    // ---- Nodes and members -----------------------------------------------------------------

    /** Puts a new record under the node's DID, whether or not its data could be read. */
    method LoadNodeEntry(e: Entry<NodeData>, memberRecordId: string) returns (failed: bool)
      modifies nodes`entries
      ensures failed == e.data.None?
      ensures nodes.View() == PutNode(old(nodes.View()), e, memberRecordId)
      ensures e.recipient != "" ==>
                && e.recipient in nodes.entries && fresh(nodes.entries[e.recipient])
                && nodes.entries[e.recipient].did == e.recipient && nodes.entries[e.recipient].recordId == e.recordId
                && nodes.entries[e.recipient].memberRecordId == memberRecordId && nodes.entries[e.recipient].data == e.data
      ensures forall d :: d in nodes.entries ==>
                || (d in old(nodes.entries) && nodes.entries[d] == old(nodes.entries)[d])
                || fresh(nodes.entries[d])
      ensures old(nodes.Bare()) ==> nodes.Bare()
    {
      failed := e.data.None?;
      if e.recipient != "" {
        var node := new NodeRecord(e.recipient, e.recordId, memberRecordId, e.data);
        nodes.entries := nodes.entries[e.recipient := node];
      }
    }

    /** Takes entries until one ends the loop; each DID then shows its last entry. */
    method LoadNodes(ctx: Context, es: seq<Entry<NodeData>>, memberRecordId: string) returns (failed: bool)
      modifies nodes`entries, ctx
      ensures failed == Fails(es, old(ctx.over)) && ctx.over == OverAfter(es, old(ctx.over))
      ensures nodes.View() == PutNodes(old(nodes.View()), Taken(es, old(ctx.over)), memberRecordId)
      ensures forall d :: d in nodes.entries ==>
                || (d in old(nodes.entries) && nodes.entries[d] == old(nodes.entries)[d])
                || fresh(nodes.entries[d])
      ensures old(nodes.Bare()) ==> nodes.Bare()
    {
      hide PutNodes, PutNode, Stop, NodeMap.View, NodeMap.Bare;
      ghost var before := nodes.View();
      PutNothing(before, es, memberRecordId);
      for i := 0 to |es|
        invariant i > 0 ==> !old(ctx.over)
        invariant ctx.over == old(ctx.over)
        invariant forall j :: 0 <= j < i ==> !Stops(es[j])
        invariant nodes.View() == PutNodes(before, es[..i], memberRecordId)
        invariant forall d :: d in nodes.entries ==>
                    || (d in old(nodes.entries) && nodes.entries[d] == old(nodes.entries)[d])
                    || fresh(nodes.entries[d])
        invariant old(nodes.Bare()) ==> nodes.Bare()
      {
        PutNodesTake(before, es, memberRecordId, i);
        var err := LoadNodeEntry(es[i], memberRecordId);
        ctx.Reads(es[i]);
        if ctx.over || (err && es[i].hard) {
          assert Stop(es, old(ctx.over)) == i;
          return err;
        }
      }
      assert es[..|es|] == es;
      return false;
    }

    method LoadMemberEntry(e: Entry<string>)
      modifies members`entries
      ensures members.View() == PutMember(old(members.View()), e)
      ensures e.recipient != "" ==>
                && e.recipient in members.entries && members.entries[e.recipient].did == e.recipient
                && members.entries[e.recipient].recordId == e.recordId && members.entries[e.recipient].name == e.data
      ensures forall d :: d in members.entries ==>
                || (d in old(members.entries) && members.entries[d] == old(members.entries)[d])
                || fresh(members.entries[d])
    {
      if e.recipient != "" {
        var member := new MemberRecord(e.recipient, e.recordId, e.data);
        members.entries := members.entries[e.recipient := member];
      }
    }

    /** Refills the members, unless they cannot be queried: then the old ones stay. */
    method LoadMembers(ctx: Context, reply: Reply<string>) returns (failed: bool)
      modifies members`entries, ctx
      ensures !failed <==> !old(ctx.over) && LoosePasses(reply)
      ensures !failed ==> ctx.over == LooseEnds(reply)
      ensures !failed ==> members.View() == MembersAfter(reply, old(members.View()))
      ensures !failed && reply.Refused? ==> members.entries == old(members.entries)
      ensures forall d :: d in members.entries ==>
                || (d in old(members.entries) && members.entries[d] == old(members.entries)[d])
                || fresh(members.entries[d])
    {
      hide PutMembers, PutMember, LooseStop, LooseOver;
      var r := ctx.Query(reply);
      if r.Refused? {
        return r.hard || ctx.over;
      }
      var es := r.entries;
      members.entries := map[];
      PutNobody(es);
      for i := 0 to |es|
        invariant LooseStop(es, r.ends) == i + LooseStop(es[i..], ctx.over)
        invariant LooseOver(es, r.ends) == LooseOver(es[i..], ctx.over)
        invariant members.View() == PutMembers(map[], es[..i])
        invariant forall d :: d in members.entries ==> fresh(members.entries[d])
      {
        LooseNext(es, i, ctx.over);
        ctx.Reads(es[i]);
        if es[i].data.None? && (es[i].hard || ctx.over) {
          return true;
        }
        PutMembersTake(map[], es, i);
        LoadMemberEntry(es[i]);
      }
      assert es[..|es|] == es;
      LooseDone(ctx.over, es);
      return false;
    }

    /** One query for each member that has a record. */
    method MemberNodeParentQueries() returns (ids: seq<string>, dids: seq<string>)
      ensures QueriesMembers(members.View(), dids, ids)
    {
      ids, dids := [], [];
      var left := members.entries.Keys;
      while left != {}
        invariant left <= members.entries.Keys
        invariant |dids| == |ids| && AllDifferent(dids)
        invariant forall d :: d in dids <==> d in members.entries && d !in left && members.entries[d].recordId != ""
        invariant forall i :: 0 <= i < |ids| ==> ids[i] == members.entries[dids[i]].recordId
      {
        var d :| d in left;
        if members.entries[d].recordId != "" {
          ids, dids := ids + [members.entries[d].recordId], dids + [d];
        }
        left := left - {d};
      }
    }

    /** The nodes of one member: a refusal that is not hard is only logged. */
    method LoadUnder(ctx: Context, reply: Reply<NodeData>, memberRecordId: string) returns (failed: bool)
      modifies nodes`entries, ctx
      ensures !failed <==> !old(ctx.over) && Passes(reply)
      ensures !failed ==> ctx.over == Ends(reply)
      ensures !failed ==> nodes.View() == PutNodes(old(nodes.View()), Kept(reply), memberRecordId)
      ensures forall d :: d in nodes.entries ==>
                || (d in old(nodes.entries) && nodes.entries[d] == old(nodes.entries)[d])
                || fresh(nodes.entries[d])
      ensures old(nodes.Bare()) ==> nodes.Bare()
    {
      hide PutNodes, Fails, OverAfter, Taken, NodeMap.View, NodeMap.Bare;
      var r := ctx.Query(reply);
      if r.Refused? {
        PutNothing(nodes.View(), [], memberRecordId);
        return r.hard || ctx.over;
      }
      failed := LoadNodes(ctx, r.entries, memberRecordId);
    }

    method LoadMemberNodes(ctx: Context, replies: string -> Reply<NodeData>)
      returns (failed: bool, ids: seq<string>, ghost dids: seq<string>)
      modifies nodes`entries, ctx
      ensures QueriesMembers(members.View(), dids, ids)
      ensures var rs := Asked(MemberContexts(networkRecordId, ids), replies);
              && (!failed <==> Through(rs, old(ctx.over)))
              && (!failed ==> ctx.over == OverThen(rs, old(ctx.over)))
              && (!failed ==> nodes.View() == PutUnder(old(nodes.View()), ids, rs))
      ensures forall d :: d in nodes.entries ==>
                || (d in old(nodes.entries) && nodes.entries[d] == old(nodes.entries)[d])
                || fresh(nodes.entries[d])
      ensures old(nodes.Bare()) ==> nodes.Bare()
    {
      hide PutUnder, PutNodes, Passes, Ends, Kept, Through, OverThen, QueriesMembers, NodeMap.View, NodeMap.Bare, MemberMap.View;
      ids, dids := MemberNodeParentQueries();
      ghost var rs, over := Asked(MemberContexts(networkRecordId, ids), replies), ctx.over;
      ghost var before := nodes.View();
      UnderNothing(before, ids, rs, over);
      for i := 0 to |ids|
        invariant Through(rs[..i], over) && ctx.over == OverThen(rs[..i], over)
        invariant nodes.View() == PutUnder(before, ids[..i], rs[..i])
        invariant forall d :: d in nodes.entries ==>
                    || (d in old(nodes.entries) && nodes.entries[d] == old(nodes.entries)[d])
                    || fresh(nodes.entries[d])
        invariant old(nodes.Bare()) ==> nodes.Bare()
      {
        PutUnderTake(before, ids, rs, i);
        ThroughTake(rs, over, i);
        var err := LoadUnder(ctx, replies(ContextIds.MemberContext(networkRecordId, ids[i])), ids[i]);
        if err {
          return true, ids, dids;
        }
      }
      assert ids[..|ids|] == ids && rs[..|ids|] == rs;
      return false, ids, dids;
    }

    // ---- Relays and policy -----------------------------------------------------------------

    method LoadRelays(ctx: Context, reply: Reply<string>) returns (failed: bool)
      modifies this`relays, ctx
      ensures !failed <==> !old(ctx.over) && reply.Answer? && LoosePasses(reply)
      ensures !failed ==> ctx.over == LooseEnds(reply) && relays == Readable(reply.entries)
    {
      hide LooseStop, LooseOver, Readable;
      var r := ctx.Query(reply);
      if r.Refused? {
        return true;
      }
      var es := r.entries;
      relays := [];
      ReadableNext(es);
      for i := 0 to |es|
        invariant LooseStop(es, r.ends) == i + LooseStop(es[i..], ctx.over)
        invariant LooseOver(es, r.ends) == LooseOver(es[i..], ctx.over)
        invariant relays == Readable(es[..i])
      {
        LooseNext(es, i, ctx.over);
        ctx.Reads(es[i]);
        if es[i].data.Some? {
          relays := relays + [es[i].data.value];
        } else if es[i].hard || ctx.over {
          return true;
        }
      }
      assert es[..|es|] == es;
      LooseDone(ctx.over, es);
      return false;
    }

    /** Takes the newest policy if it can be read; otherwise the old one stays. */
    method LoadAcl(ctx: Context, reply: Reply<string>) returns (failed: bool)
      modifies this`acl, ctx
      ensures !failed <==> !old(ctx.over) && AclPasses(reply)
      ensures !failed ==> ctx.over == AclEnds(reply) && acl == Newest(old(acl), reply)
      ensures !failed && reply.Answer? && |reply.entries| > 0 && reply.entries[0].data.Some? ==> acl == reply.entries[0].data
      ensures failed ==> acl == old(acl)
    {
      var r := ctx.Query(reply);
      if r.Refused? {
        return r.hard || ctx.over;
      }
      if |r.entries| > 0 {
        ctx.Reads(r.entries[0]);
        if r.entries[0].data.None? {
          return r.entries[0].hard || ctx.over;
        }
        acl := Some(r.entries[0].data.value);
      }
      return false;
    }

    // ---- Children of the nodes -------------------------------------------------------------

    /** One query for each node with a record, in the context its write assigned. */
    method NodeChildRecordQueries() returns (contexts: seq<string>, dids: seq<string>)
      ensures QueriesNodes(networkRecordId, nodes.View(), dids, contexts)
    {
      contexts, dids := [], [];
      var left := nodes.entries.Keys;
      while left != {}
        invariant left <= nodes.entries.Keys
        invariant |dids| == |contexts| && AllDifferent(dids)
        invariant forall d :: d in dids <==> d in nodes.entries && d !in left && nodes.entries[d].recordId != ""
        invariant forall i :: 0 <= i < |contexts| ==>
                    contexts[i] == ContextIds.NodeContext(networkRecordId, nodes.entries[dids[i]].memberRecordId,
                                                          nodes.entries[dids[i]].recordId)
      {
        var d :| d in left;
        var node := nodes.entries[d];
        if node.recordId != "" {
          contexts := contexts + [ContextIds.NodeContext(networkRecordId, node.memberRecordId, node.recordId)];
          dids := dids + [d];
        }
        left := left - {d};
      }
    }

    /** Finds the node whose record is the parent of a child record. */
    method ParentNode(parentId: string) returns (node: NodeRecord?)
      ensures node != null ==> node in nodes.entries.Values && node.recordId == parentId && parentId != ""
      ensures node == null ==> forall d :: d in nodes.entries ==> nodes.entries[d].recordId != parentId || parentId == ""
    {
      var left := nodes.entries.Keys;
      while left != {}
        invariant left <= nodes.entries.Keys
        invariant forall d :: d in nodes.entries && d !in left ==> nodes.entries[d].recordId != parentId || parentId == ""
      {
        var d :| d in left;
        if nodes.entries[d].recordId != "" && nodes.entries[d].recordId == parentId {
          return nodes.entries[d];
        }
        left := left - {d};
      }
      return null;
    }

    method LoadNodeInfoEntry(e: Entry<string>) returns (failed: bool)
      modifies nodes.entries.Values`info
      ensures failed == e.data.None?
      ensures DistinctRecords(nodes.View()) ==> forall n :: n in nodes.entries.Values ==>
                n.info == PutInfo(old(n.info), e, n.recordId)
    {
      if e.data.None? {
        return true;
      }
      var node := ParentNode(e.parentId);
      if node != null {
        OneOwner(nodes, node);
        node.info := e.data;
      }
      return false;
    }

    method LoadEndpointEntry(e: Entry<string>) returns (failed: bool)
      modifies nodes.entries.Values`endpoints
      ensures failed == e.data.None?
      ensures DistinctRecords(nodes.View()) ==> forall n :: n in nodes.entries.Values ==>
                n.endpoints == PutEndpoint(old(n.endpoints), e, n.recordId)
    {
      var node := ParentNode(e.parentId);
      if e.data.None? {
        return true;
      }
      if node != null {
        OneOwner(nodes, node);
        node.endpoints := node.endpoints + [e.data.value];
      }
      return false;
    }

    method LoadInfoEntries(ctx: Context, es: seq<Entry<string>>) returns (failed: bool)
      modifies nodes.entries.Values`info, ctx
      ensures failed == Fails(es, old(ctx.over)) && ctx.over == OverAfter(es, old(ctx.over))
      ensures DistinctRecords(nodes.View()) ==> forall n :: n in nodes.entries.Values ==>
                n.info == Informed(old(n.info), Taken(es, old(ctx.over)), n.recordId)
    {
      hide Informed, Stop, DistinctRecords, NodeMap.View;
      NoInfo(es);
      for i := 0 to |es|
        invariant ctx.over == old(ctx.over) && (i > 0 ==> !ctx.over)
        invariant forall j :: 0 <= j < i ==> !Stops(es[j])
        invariant DistinctRecords(nodes.View()) ==> forall n :: n in nodes.entries.Values ==>
                    n.info == Informed(old(n.info), es[..i], n.recordId)
      {
        InformedTake(es, i);
        var err := LoadNodeInfoEntry(es[i]);
        ctx.Reads(es[i]);
        if ctx.over || (err && es[i].hard) {
          assert Stop(es, old(ctx.over)) == i;
          return err;
        }
      }
      assert es[..|es|] == es;
      return false;
    }

    method LoadEndpointEntries(ctx: Context, es: seq<Entry<string>>) returns (failed: bool)
      modifies nodes.entries.Values`endpoints, ctx
      ensures failed == Fails(es, old(ctx.over)) && ctx.over == OverAfter(es, old(ctx.over))
      ensures DistinctRecords(nodes.View()) ==> forall n :: n in nodes.entries.Values ==>
                n.endpoints == Extended(old(n.endpoints), Taken(es, old(ctx.over)), n.recordId)
    {
      hide Extended, Stop, DistinctRecords, NodeMap.View;
      NoEndpoint(es);
      for i := 0 to |es|
        invariant ctx.over == old(ctx.over) && (i > 0 ==> !ctx.over)
        invariant forall j :: 0 <= j < i ==> !Stops(es[j])
        invariant DistinctRecords(nodes.View()) ==> forall n :: n in nodes.entries.Values ==>
                    n.endpoints == Extended(old(n.endpoints), es[..i], n.recordId)
      {
        ExtendedTake(es, i);
        var err := LoadEndpointEntry(es[i]);
        ctx.Reads(es[i]);
        if ctx.over || (err && es[i].hard) {
          assert Stop(es, old(ctx.over)) == i;
          return err;
        }
      }
      assert es[..|es|] == es;
      return false;
    }

    method LoadInfoReply(ctx: Context, reply: Reply<string>) returns (failed: bool)
      modifies nodes.entries.Values`info, ctx
      ensures !failed <==> !old(ctx.over) && Passes(reply)
      ensures !failed ==> ctx.over == Ends(reply)
      ensures !failed && DistinctRecords(nodes.View()) ==> forall n :: n in nodes.entries.Values ==>
                n.info == Informed(old(n.info), Kept(reply), n.recordId)
    {
      hide Informed, Fails, OverAfter, Taken, DistinctRecords, NodeMap.View;
      var r := ctx.Query(reply);
      if r.Refused? {
        NoInfo([]);
        return r.hard || ctx.over;
      }
      failed := LoadInfoEntries(ctx, r.entries);
    }

    method LoadEndpointReply(ctx: Context, reply: Reply<string>) returns (failed: bool)
      modifies nodes.entries.Values`endpoints, ctx
      ensures !failed <==> !old(ctx.over) && Passes(reply)
      ensures !failed ==> ctx.over == Ends(reply)
      ensures !failed && DistinctRecords(nodes.View()) ==> forall n :: n in nodes.entries.Values ==>
                n.endpoints == Extended(old(n.endpoints), Kept(reply), n.recordId)
    {
      hide Extended, Fails, OverAfter, Taken, DistinctRecords, NodeMap.View;
      var r := ctx.Query(reply);
      if r.Refused? {
        NoEndpoint([]);
        return r.hard || ctx.over;
      }
      failed := LoadEndpointEntries(ctx, r.entries);
    }

    method LoadNodeInfos(ctx: Context, replies: string -> Reply<string>)
      returns (failed: bool, contexts: seq<string>, ghost dids: seq<string>)
      modifies nodes.entries.Values`info, ctx
      ensures QueriesNodes(networkRecordId, nodes.View(), dids, contexts)
      ensures var rs := Asked(contexts, replies);
              && (!failed <==> Through(rs, old(ctx.over)))
              && (!failed ==> ctx.over == OverThen(rs, old(ctx.over)))
              && (!failed && DistinctRecords(nodes.View()) ==> forall n :: n in nodes.entries.Values ==>
                    n.info == InformedBy(old(n.info), rs, n.recordId))
    {
      hide Informed, InformedBy, Passes, Ends, Kept, Through, OverThen, DistinctRecords, NodeMap.View, QueriesNodes;
      contexts, dids := NodeChildRecordQueries();
      ghost var rs, over := Asked(contexts, replies), ctx.over;
      NoReplies(rs, over);
      for i := 0 to |contexts|
        invariant Through(rs[..i], over) && ctx.over == OverThen(rs[..i], over)
        invariant DistinctRecords(nodes.View()) ==> forall n :: n in nodes.entries.Values ==>
                    n.info == InformedBy(old(n.info), rs[..i], n.recordId)
      {
        InformedByTake(rs, i);
        ThroughTake(rs, over, i);
        var err := LoadInfoReply(ctx, replies(contexts[i]));
        if err {
          return true, contexts, dids;
        }
      }
      assert rs[..|contexts|] == rs;
      return false, contexts, dids;
    }

    method LoadEndpoints(ctx: Context, replies: string -> Reply<string>)
      returns (failed: bool, contexts: seq<string>, ghost dids: seq<string>)
      modifies nodes.entries.Values`endpoints, ctx
      ensures QueriesNodes(networkRecordId, nodes.View(), dids, contexts)
      ensures var rs := Asked(contexts, replies);
              && (!failed <==> Through(rs, old(ctx.over)))
              && (!failed ==> ctx.over == OverThen(rs, old(ctx.over)))
              && (!failed && DistinctRecords(nodes.View()) ==> forall n :: n in nodes.entries.Values ==>
                    n.endpoints == ExtendedBy(old(n.endpoints), rs, n.recordId))
    {
      hide Extended, ExtendedBy, Passes, Ends, Kept, Through, OverThen, DistinctRecords, NodeMap.View, QueriesNodes;
      contexts, dids := NodeChildRecordQueries();
      ghost var rs, over := Asked(contexts, replies), ctx.over;
      NoReplies(rs, over);
      for i := 0 to |contexts|
        invariant Through(rs[..i], over) && ctx.over == OverThen(rs[..i], over)
        invariant DistinctRecords(nodes.View()) ==> forall n :: n in nodes.entries.Values ==>
                    n.endpoints == ExtendedBy(old(n.endpoints), rs[..i], n.recordId)
      {
        ExtendedByTake(rs, i);
        ThroughTake(rs, over, i);
        var err := LoadEndpointReply(ctx, replies(contexts[i]));
        if err {
          return true, contexts, dids;
        }
      }
      assert rs[..|contexts|] == rs;
      return false, contexts, dids;
    }

    // ---- The whole load --------------------------------------------------------------------

    ghost function MemberReplies(replies: Replies, ids: seq<string>): seq<Reply<NodeData>>
    {
      Asked(MemberContexts(networkRecordId, ids), replies.memberNodes)
    }

    /** The node table that the replies amount to, with the members asked in this order. */
    ghost function NodesAfter(replies: Replies, ids: seq<string>): NodeTable
    {
      PutUnder(PutNodes(map[], All(replies.nodes), ""), ids, MemberReplies(replies, ids))
    }

    /** The first four stages: network, nodes, members and their nodes. */
    method LoadTopology(ctx: Context, replies: Replies) returns (ok: bool, ids: seq<string>, ghost dids: seq<string>)
      modifies this`network, members`entries, nodes`entries, ctx
      ensures ok ==> !old(ctx.over) && Opens(replies)
      ensures ids == [] || (Opens(replies) && !old(ctx.over))
      ensures !old(ctx.over) && Opens(replies) ==>
                && members.View() == MembersAfter(replies.members, old(members.View()))
                && QueriesMembers(members.View(), dids, ids)
                && (ok <==> Through(MemberReplies(replies, ids), LooseEnds(replies.members)))
      ensures ok ==> ctx.over == OverThen(MemberReplies(replies, ids), LooseEnds(replies.members))
      ensures ok ==> network == replies.network
      ensures ok && replies.members.Refused? ==> members.entries == old(members.entries)
      ensures ok ==> nodes.View() == NodesAfter(replies, ids)
      ensures ok ==> nodes.Bare() && forall d :: d in nodes.entries ==> fresh(nodes.entries[d])
    {
      hide PutUnder, PutNodes, PutMembers, Through, OverThen, LoosePasses, LooseEnds, Passes, Ends, Kept, QueriesMembers,
        NodeMap.View, MemberMap.View;
      QuietIs(replies.nodes);
      ids, dids := [], [];
      if ctx.over {
        return false, ids, dids;
      }
      ctx.over := replies.networkEnds;
      if replies.network.None? {
        return false, ids, dids;
      }
      network := replies.network;
      var failed := LoadOwnerNodes(ctx, replies.nodes);
      if failed {
        return false, ids, dids;
      }
      failed := LoadMembers(ctx, replies.members);
      if failed {
        return false, ids, dids;
      }
      failed, ids, dids := LoadMemberNodes(ctx, replies.memberNodes);
      ok := !failed;
    }

    /** The nodes directly under the network; here any refusal ends the load. */
    method LoadOwnerNodes(ctx: Context, reply: Reply<NodeData>) returns (failed: bool)
      modifies nodes`entries, ctx
      ensures !failed <==> !old(ctx.over) && reply.Answer? && Passes(reply)
      ensures !failed ==> ctx.over == Ends(reply) && nodes.View() == PutNodes(map[], Kept(reply), "")
      ensures !failed ==> nodes.Bare() && forall d :: d in nodes.entries ==> fresh(nodes.entries[d])
    {
      hide PutNodes, Fails, OverAfter, Taken;
      var r := ctx.Query(reply);
      if r.Refused? {
        return true;
      }
      nodes.entries := map[];
      assert nodes.View() == map[];
      failed := LoadNodes(ctx, r.entries, "");
    }

    /** What a committed load leaves in the five fields. */
    ghost predicate Loaded(replies: Replies, q: Queries, oldMembers: MemberTable, oldAcl: Option<string>)
      reads this, members, members.entries.Values, nodes, nodes.entries.Values
    {
      var memberReplies := MemberReplies(replies, q.members);
      var infoReplies, endpointReplies := Asked(q.infos, replies.infos), Asked(q.endpoints, replies.endpoints);
      && Commits(replies, memberReplies, infoReplies, endpointReplies)
      && network == replies.network && relays == Readable(replies.relays.entries) && acl == Newest(oldAcl, replies.acl)
      && members.View() == MembersAfter(replies.members, oldMembers)
      && QueriesMembers(members.View(), q.memberDids, q.members)
      && nodes.View() == NodesAfter(replies, q.members)
      && QueriesNodes(networkRecordId, nodes.View(), q.infoDids, q.infos)
      && QueriesNodes(networkRecordId, nodes.View(), q.endpointDids, q.endpoints)
      && (DistinctRecords(nodes.View()) ==> HaveChildren(infoReplies, endpointReplies))
      && selfDid in nodes.View() && InForce(nodes.View()[selfDid].data)
    }

    /** Every record has the latest readable info of its own and, but for what the last reply
        dropped, exactly the readable endpoints of its own, in order. */
    ghost predicate HaveChildren(infoReplies: seq<Reply<string>>, endpointReplies: seq<Reply<string>>)
      reads `nodes, nodes, nodes.entries.Values`info, nodes.entries.Values`endpoints, nodes.entries.Values`recordId
    {
      forall n :: n in nodes.entries.Values ==>
        && n.info == Latest(Available(infoReplies, n.recordId))
        && n.endpoints + Matching(Lost(endpointReplies), n.recordId) == Available(endpointReplies, n.recordId)
    }

    /** The last two stages: what hangs below the nodes. */
    method LoadChildren(ctx: Context, replies: Replies)
      returns (ok: bool, infos: seq<string>, ghost infoDids: seq<string>, endpoints: seq<string>, ghost endpointDids: seq<string>)
      requires nodes.Bare()
      modifies nodes.entries.Values`info, nodes.entries.Values`endpoints, ctx
      ensures QueriesNodes(networkRecordId, nodes.View(), infoDids, infos)
      ensures endpoints == [] || QueriesNodes(networkRecordId, nodes.View(), endpointDids, endpoints)
      ensures ok <==>
        && (infos != [] ==> !old(ctx.over))
        && AllQuiet(Asked(infos, replies.infos)) && Through(Asked(endpoints, replies.endpoints), false)
      ensures ok ==>
        && QueriesNodes(networkRecordId, nodes.View(), endpointDids, endpoints)
        && (DistinctRecords(nodes.View()) ==> HaveChildren(Asked(infos, replies.infos), Asked(endpoints, replies.endpoints)))
    {
      hide Through, OverThen, AllQuiet, InformedBy, ExtendedBy, DistinctRecords, QueriesNodes, NodeMap.View, HaveChildren;
      var failed;
      failed, infos, infoDids := LoadNodeInfos(ctx, replies.infos);
      ghost var infoReplies := Asked(infos, replies.infos);
      endpoints, endpointDids := [], [];
      if failed {
        ThroughIsQuiet(infoReplies, old(ctx.over));
        NothingStops(infoReplies, old(ctx.over));
        return false, infos, infoDids, endpoints, endpointDids;
      }
      failed, endpoints, endpointDids := LoadEndpoints(ctx, replies.endpoints);
      ghost var endpointReplies := Asked(endpoints, replies.endpoints);
      SameNodesAsked(networkRecordId, nodes.View(), endpointDids, endpoints, infoDids, infos);
      ChildStages(infoReplies, endpointReplies, old(ctx.over));
      ok := !failed;
      if ok && DistinctRecords(nodes.View()) {
        ChildrenAreThere(infoReplies, endpointReplies);
      }
    }

    lemma ChildrenAreThere(infoReplies: seq<Reply<string>>, endpointReplies: seq<Reply<string>>)
      requires AllQuiet(infoReplies) && Through(endpointReplies, false)
      requires forall n :: n in nodes.entries.Values ==>
                 n.info == InformedBy(None, infoReplies, n.recordId) && n.endpoints == ExtendedBy([], endpointReplies, n.recordId)
      ensures HaveChildren(infoReplies, endpointReplies)
    {
      hide AllQuiet, Through, InformedBy, ExtendedBy, Available, Lost, Matching, Latest;
      forall n | n in nodes.entries.Values
        ensures && n.info == Latest(Available(infoReplies, n.recordId))
                && n.endpoints + Matching(Lost(endpointReplies), n.recordId) == Available(endpointReplies, n.recordId)
      {
        InformedIsLatest(infoReplies, n.recordId);
        ExtendedByIs(endpointReplies, n.recordId);
        GatheredIsAvailable(endpointReplies, n.recordId);
      }
    }

    /** The first six stages: everything but the children of the nodes. */
    method LoadTables(ctx: Context, replies: Replies) returns (ok: bool, ids: seq<string>, ghost dids: seq<string>)
      modifies this`network, this`relays, this`acl, members`entries, nodes`entries, ctx
      ensures ids == [] || QueriesMembers(MembersAfter(replies.members, old(members.View())), dids, ids)
      ensures ok <==> !old(ctx.over) && Tables(replies, ids)
      ensures ok ==>
        && ctx.over == AclEnds(replies.acl)
        && network == replies.network && relays == Readable(replies.relays.entries) && acl == Newest(old(acl), replies.acl)
        && members.View() == MembersAfter(replies.members, old(members.View()))
        && QueriesMembers(members.View(), dids, ids)
        && nodes.View() == NodesAfter(replies, ids)
      ensures ok ==> nodes.Bare() && forall d :: d in nodes.entries ==> fresh(nodes.entries[d])
      ensures ok && replies.members.Refused? ==> members.entries == old(members.entries)
    {
      hide Opens, PutUnder, PutNodes, Through, OverThen, LoosePasses, LooseEnds, AclPasses, AclEnds, Readable,
        QueriesMembers, NodeMap.View, NodeMap.Bare, MemberMap.View, MembersAfter, Newest;
      ok, ids, dids := LoadTopology(ctx, replies);
      if !ok {
        return;
      }
      var failed := LoadRelays(ctx, replies.relays);
      if failed {
        ok := false;
        return;
      }
      failed := LoadAcl(ctx, replies.acl);
      ok := !failed;
    }

    /** What the first six stages have met. */
    ghost predicate Tables(replies: Replies, ids: seq<string>) {
      var rs := MemberReplies(replies, ids);
      && Opens(replies) && Through(rs, LooseEnds(replies.members)) && !OverThen(rs, LooseEnds(replies.members))
      && replies.relays.Answer? && LoosePasses(replies.relays) && !LooseEnds(replies.relays) && AclPasses(replies.acl)
    }

    /** The queries made, in the stages that were reached, are those the replies call for. */
    ghost predicate Made(replies: Replies, q: Queries, oldMembers: MemberTable) {
      var t := NodesAfter(replies, q.members);
      && (q.members == [] || QueriesMembers(MembersAfter(replies.members, oldMembers), q.memberDids, q.members))
      && (q.infos == [] || QueriesNodes(networkRecordId, t, q.infoDids, q.infos))
      && (q.endpoints == [] || QueriesNodes(networkRecordId, t, q.endpointDids, q.endpoints))
    }

    /** The replies to the queries made are such that the load commits: nothing ended it, and this
        node is listed with a membership in force. */
    ghost predicate Admits(replies: Replies, q: Queries) {
      && Commits(replies, MemberReplies(replies, q.members), Asked(q.infos, replies.infos), Asked(q.endpoints, replies.endpoints))
      && selfDid in NodesAfter(replies, q.members) && InForce(NodesAfter(replies, q.members)[selfDid].data)
    }

    /** All stages, on the client's own maps. */
    method Load(ctx: Context, replies: Replies) returns (ok: bool, ghost q: Queries)
      modifies this`network, this`relays, this`acl, members`entries, nodes`entries, ctx
      ensures Made(replies, q, old(members.View()))
      ensures ok <==> !old(ctx.over) && Admits(replies, q)
      ensures ok ==> Loaded(replies, q, old(members.View()), old(acl))
      ensures ok ==> forall d :: d in nodes.entries ==> fresh(nodes.entries[d])
      ensures ok && replies.members.Refused? ==> members.entries == old(members.entries)
    {
      hide Opens, NodesAfter, Through, OverThen, LoosePasses, LooseEnds, AclPasses, AclEnds, AllQuiet, Readable,
        QueriesMembers, QueriesNodes, NodeMap.View, NodeMap.Bare, MemberMap.View, HaveChildren, DistinctRecords, Commits,
        MembersAfter, Newest, InForce;
      var ids, infos, endpoints;
      ghost var dids, infoDids, endpointDids;
      ok, ids, dids := LoadTables(ctx, replies);
      if !ok {
        q := Queries(ids, dids, [], [], [], []);
        StagesCommit(replies, MemberReplies(replies, ids), Asked([], replies.infos), Asked([], replies.endpoints));
        return false, q;
      }
      assert forall n :: n in nodes.entries.Values ==> fresh(n);
      ok, infos, infoDids, endpoints, endpointDids := LoadChildren(ctx, replies);
      q := Queries(ids, dids, infos, infoDids, endpoints, endpointDids);
      StagesCommit(replies, MemberReplies(replies, ids), Asked(infos, replies.infos), Asked(endpoints, replies.endpoints));
      if !ok {
        return false, q;
      }
      SelfShown(nodes, selfDid);
      ok := selfDid in nodes.entries && InForce(nodes.entries[selfDid].data);
    }

    /** All or nothing. On any error the five fields hold exactly what they held before; on success
        they hold what the replies say. It succeeds exactly when the replies to the queries it made
        admit it. Either way no record that existed before is touched. */
    method LoadState(ctx: Context, replies: Replies) returns (ok: bool, ghost q: Queries)
      modifies this`network, this`members, this`nodes, this`relays, this`acl, members`entries, nodes`entries, ctx
      ensures Made(replies, q, old(members.View()))
      ensures ok <==> !old(ctx.over) && Admits(replies, q)
      ensures !ok ==> View() == old(View()) && fresh(members) && fresh(nodes)
      ensures ok ==> members == old(members) && nodes == old(nodes)
      ensures ok ==> Loaded(replies, q, old(members.View()), old(acl))
      ensures ok ==> forall d :: d in nodes.entries ==> fresh(nodes.entries[d])
      ensures ok && replies.members.Refused? ==> members.entries == old(members.entries)
      ensures forall d :: d in old(nodes.entries) ==> unchanged(old(nodes.entries)[d])
      ensures forall d :: d in old(members.entries) ==> unchanged(old(members.entries)[d])
    {
      hide Loaded, Made, Admits, MemberMap.View;
      var previous := StateSnapshot();
      ok, q := Load(ctx, replies);
      if !ok {
        RestoreState(previous);
      }
    }

    method Nodes() returns (m: NodeMap)
      ensures fresh(m) && m.entries == nodes.entries
    {
      m := CloneNodes(nodes);
    }

    method Members() returns (m: MemberMap)
      ensures fresh(m) && m.entries == members.entries
    {
      m := CloneMembers(members);
    }

    /** Maps handed out stay as they were, records included, through any number of later loads. */
    method HandOutAndReload(loads: seq<Replies>) returns (seenNodes: NodeMap, seenMembers: MemberMap)
      modifies this`network, this`members, this`nodes, this`relays, this`acl, members`entries, nodes`entries
      ensures seenNodes.entries == old(nodes.entries) && seenMembers.entries == old(members.entries)
      ensures forall d :: d in seenNodes.entries ==> unchanged(seenNodes.entries[d])
      ensures forall d :: d in seenMembers.entries ==> unchanged(seenMembers.entries[d])
    {
      hide Loaded, Made, Admits, MemberMap.View;
      seenNodes := Nodes();
      seenMembers := Members();
      for i := 0 to |loads|
        invariant seenNodes != nodes && seenMembers != members
        invariant nodes == old(nodes) || fresh(nodes)
        invariant members == old(members) || fresh(members)
        invariant seenNodes.entries == old(nodes.entries) && seenMembers.entries == old(members.entries)
      {
        var ctx := new Context(false);
        var _, _ := LoadState(ctx, loads[i]);
      }
    }
  }

  lemma PutNothing(t: NodeTable, es: seq<Entry<NodeData>>, memberRecordId: string)
    ensures PutNodes(t, es[..0], memberRecordId) == t
  {
  }

  lemma PutNobody(es: seq<Entry<string>>)
    ensures PutMembers(map[], es[..0]) == map[]
  {
  }

  lemma UnderNothing(t: NodeTable, ids: seq<string>, rs: seq<Reply<NodeData>>, over: bool)
    requires |ids| == |rs|
    ensures PutUnder(t, ids[..0], rs[..0]) == t
    ensures Through(rs[..0], over) && OverThen(rs[..0], over) == over
    ensures rs[..|ids|] == rs
  {
  }

  lemma LooseNext<D>(es: seq<Entry<D>>, i: nat, over: bool)
    requires i < |es|
    ensures var stops := es[i].data.None? && (es[i].hard || over || es[i].ends);
            LooseStop(es[i..], over) == if stops then 0 else 1 + LooseStop(es[i + 1..], over || es[i].ends)
    ensures LooseOver(es[i..], over) == LooseOver(es[i + 1..], over || es[i].ends)
  {
    assert es[i..][0] == es[i] && es[i..][1..] == es[i + 1..];
  }

  lemma LooseDone<D>(over: bool, es: seq<Entry<D>>)
    ensures LooseStop(es[|es|..], over) == 0 && LooseOver(es[|es|..], over) == over
  {
  }

  lemma ReadableNext(es: seq<Entry<string>>)
    ensures Readable(es[..0]) == []
    ensures forall i :: 0 <= i < |es| ==>
              Readable(es[..i + 1]) == Readable(es[..i]) + if es[i].data.Some? then [es[i].data.value] else []
  {
    forall i | 0 <= i < |es|
      ensures Readable(es[..i + 1]) == Readable(es[..i]) + if es[i].data.Some? then [es[i].data.value] else []
    {
      assert es[..i + 1][..i] == es[..i];
    }
  }

  /** With distinct records, a record with an id is the only one under it. */
  lemma OneOwner(nodes: NodeMap, node: NodeRecord)
    requires node in nodes.entries.Values && node.recordId != ""
    ensures DistinctRecords(nodes.View()) ==>
              forall n :: n in nodes.entries.Values && n.recordId == node.recordId ==> n == node
  {
    if DistinctRecords(nodes.View()) {
      forall n | n in nodes.entries.Values && n.recordId == node.recordId
        ensures n == node
      {
        var d :| d in nodes.entries && nodes.entries[d] == n;
        var e :| e in nodes.entries && nodes.entries[e] == node;
        assert nodes.View()[d].recordId == nodes.View()[e].recordId;
      }
    }
  }

  lemma NoInfo(es: seq<Entry<string>>)
    ensures forall o: Option<string>, id: string :: Informed(o, es[..0], id) == o
    ensures forall o: Option<string>, id: string :: Informed(o, [], id) == o
  {
  }

  lemma NoEndpoint(es: seq<Entry<string>>)
    ensures forall eps: seq<string>, id: string :: Extended(eps, es[..0], id) == eps
    ensures forall eps: seq<string>, id: string :: Extended(eps, [], id) == eps
  {
  }

  lemma NoReplies(rs: seq<Reply<string>>, over: bool)
    ensures Through(rs[..0], over) && OverThen(rs[..0], over) == over
    ensures forall o: Option<string>, id: string :: InformedBy(o, rs[..0], id) == o
    ensures forall eps: seq<string>, id: string :: ExtendedBy(eps, rs[..0], id) == eps
  {
  }

  function MembersAfter(reply: Reply<string>, before: MemberTable): MemberTable {
    if reply.Answer? then PutMembers(map[], reply.entries) else before
  }

  lemma NothingStops(rs: seq<Reply<string>>, over: bool)
    ensures rs == [] ==> Through(rs, over)
    ensures Through<string>([], false)
  {
  }

  lemma SelfShown(nodes: NodeMap, self: string)
    ensures self in nodes.View() <==> self in nodes.entries
    ensures self in nodes.entries ==> nodes.View()[self].data == nodes.entries[self].data
  {
  }

  // ---- A committed load that drops an endpoint ---------------------------------------------

  const FIRST := Entry("", "", "r", Some("10.0.0.1:1"), false, true)
  const SECOND := Entry("", "", "r", Some("10.0.0.2:1"), false, false)

  /** One node, "me", with two endpoints; the context ends while the first of them is read. */
  function CutReplies(): Replies {
    var none: Reply<string> := Answer([], false);
    Replies(Some("net"), false, Answer([Entry("me", "r", "", Some(NodeData("me", false)), false, false)], false), none,
            (c: string) => Answer([], false), none, none, (c: string) => none,
            (c: string) => Answer([FIRST, SECOND], false))
  }

  const ME := NodeView("me", "r", "", Some(NodeData("me", false)))

  lemma CutNodes()
    ensures PutNodes(map[], CutReplies().nodes.entries, "") == map["me" := ME]
  {
    var es := CutReplies().nodes.entries;
    assert es[..0] == [];
    assert es[0].recipient == "me";
  }

  lemma CutMembers(dids: seq<string>, ids: seq<string>)
    requires ids == [] || QueriesMembers(MembersAfter(CutReplies().members, map[]), dids, ids)
    ensures ids == []
  {
    assert dids != [] ==> dids[0] in dids;
  }

  lemma CutPasses(contexts: seq<string>)
    requires |contexts| <= 1
    ensures Through(Asked(contexts, CutReplies().endpoints), false)
  {
    assert Stop([FIRST, SECOND], false) == 0;
  }

  /** Whatever it asks for, this load commits. */
  lemma CutAdmits(c: Client, q: Queries)
    requires c.networkRecordId == "net" && c.selfDid == "me" && c.Made(CutReplies(), q, map[])
    ensures c.Admits(CutReplies(), q) && q.members == [] && c.NodesAfter(CutReplies(), q.members) == map["me" := ME]
  {
    hide QueriesMembers, QueriesNodes, PutNodes, Through;
    CutMembers(q.memberDids, q.members);
    CutNodes();
    var t := c.NodesAfter(CutReplies(), q.members);
    assert t == map["me" := ME] && |t| == 1;
    if q.endpoints != [] {
      SameNodesAsked("net", t, q.endpointDids, q.endpoints, q.endpointDids, q.endpoints);
    }
    CutPasses(q.endpoints);
  }

  lemma CutChildren(contexts: seq<string>, dids: seq<string>, t: NodeTable)
    requires QueriesNodes("net", t, dids, contexts) && t == map["me" := ME]
    ensures |contexts| == 1
    ensures Available(Asked(contexts, CutReplies().endpoints), "r") == ["10.0.0.1:1", "10.0.0.2:1"]
    ensures Matching(Lost(Asked(contexts, CutReplies().endpoints)), "r") == ["10.0.0.2:1"]
  {
    assert "me" in dids;
    SameNodesAsked("net", t, dids, contexts, dids, contexts);
    assert |t| == 1;
    var rs := Asked(contexts, CutReplies().endpoints);
    var r := rs[0];
    assert r == Answer([FIRST, SECOND], false);
    assert rs[..0] == [];
    assert Stop(r.entries, false) == 0;
    assert Dropped(r) == [SECOND];
    assert [SECOND][..0] == [] && r.entries[..1] == [FIRST] && [FIRST][..0] == [];
    assert Matching([FIRST], "r") == ["10.0.0.1:1"];
    assert Matching(r.entries, "r") == ["10.0.0.1:1", "10.0.0.2:1"];
    assert Available([], "r") == [];
  }

  /** The load commits, and the node has one of its two readable endpoints. */
  method CommittedLoadDrops() returns (c: Client, ok: bool)
    ensures ok && fresh(c) && "me" in c.nodes.entries
    ensures c.nodes.entries["me"].endpoints == ["10.0.0.1:1"]
  {
    hide Commits, QueriesMembers, QueriesNodes, PutUnder, PutNodes, Available, Lost, Matching, MembersAfter, Readable, Newest;
    c := new Client("net", "me");
    var ctx := new Context(false);
    ghost var q;
    assert c.members.View() == map[];
    ok, q := c.LoadState(ctx, CutReplies());
    CutAdmits(c, q);
    CutChildren(q.endpoints, q.endpointDids, c.nodes.View());
    ghost var n := c.nodes.entries["me"];
    assert c.nodes.View()["me"].recordId == "r";
    assert n in c.nodes.entries.Values;
    DropLast(n.endpoints, "10.0.0.1:1", "10.0.0.2:1");
  }

  lemma DropLast(s: seq<string>, a: string, b: string)
    requires s + [b] == [a, b]
    ensures s == [a]
  {
    assert |s| == 1;
    assert (s + [b])[0] == s[0];
  }
}
