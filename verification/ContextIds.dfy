/** Record, context and parent identifiers: how a write assigns them, how an update recovers the
    parent context, and how the control client rebuilds them for its queries. */
module ContextIds {

  /** The position of the last slash, or -1. */
  function LastSlash(s: string): (k: int)
    ensures -1 <= k < |s|
    ensures k >= 0 ==> s[k] == '/'
    ensures forall i :: k < i < |s| ==> s[i] != '/'
  {
    if s == [] then -1
    else if s[|s| - 1] == '/' then |s| - 1
    else LastSlash(s[..|s| - 1])
  }

  predicate SlashFree(s: string) {
    '/' !in s
  }

  function LastSegment(s: string): string {
    s[LastSlash(s) + 1..]
  }

  datatype Record = Record(id: string, contextId: string, parentId: string)

  /** A write under a parent context. An empty record id means an initial write, whose id is the
      content identifier `cid`. */
  function Build(parent: string, recordId: string, cid: string): Record {
    var id := if recordId == "" then cid else recordId;
    Record(id,
           if parent != "" then parent + "/" + id else id,
           if parent != "" then LastSegment(parent) else "")
  }

  /** The parent context an update derives from the record. */
  function ParentContext(r: Record): string {
    if r.contextId != "" && r.contextId != r.id && LastSlash(r.contextId) >= 0
    then r.contextId[..LastSlash(r.contextId)]
    else ""
  }

  function Update(r: Record, cid: string): Record {
    Build(ParentContext(r), r.id, cid)
  }

  function Updated(r: Record, cids: seq<string>): Record {
    if cids == [] then r else Update(Updated(r, cids[..|cids| - 1]), cids[|cids| - 1])
  }

  lemma AppendKeepsTail(p: string, id: string)
    ensures LastSlash(p + "/" + id) == |p| + 1 + LastSlash(id)
  {
    hide LastSlash;
    var s := p + "/" + id;
    var k := LastSlash(s);
    assert s[|p|] == '/';
    assert forall i :: 0 <= i < |id| ==> s[|p| + 1 + i] == id[i];
    if LastSlash(id) >= 0 {
      assert s[|p| + 1 + LastSlash(id)] == '/';
    }
    if k > |p| {
      assert id[k - |p| - 1] == '/';
    }
  }

  /** An update keeps the identifiers of a written record if and only if it is a root record or its
      id has no slash. */
  lemma UpdateKeeps(parent: string, recordId: string, cid: string, cid': string)
    requires recordId != "" || cid != ""
    ensures var r := Build(parent, recordId, cid);
            && (Update(r, cid') == r <==> parent == "" || SlashFree(r.id))
            && (Update(r, cid').contextId == r.contextId <==> parent == "" || SlashFree(r.id))
  {
    hide LastSlash;
    var r := Build(parent, recordId, cid);
    if parent != "" {
      AppendKeepsTail(parent, r.id);
      var k := LastSlash(r.contextId);
      assert LastSlash(r.id) == -1 <==> SlashFree(r.id);
      assert |ParentContext(r)| == k;
      if SlashFree(r.id) {
        assert ParentContext(r) == parent;
      } else {
        assert |Update(r, cid').contextId| == k + 1 + |r.id| > |r.contextId|;
      }
    }
  }

  /** The record at the end of a path of ids from the root, each written under the one before. */
  function AtPath(path: seq<string>): Record
    requires path != []
  {
    Build(if |path| == 1 then "" else AtPath(path[..|path| - 1]).contextId, path[|path| - 1], "")
  }

  predicate Plain(path: seq<string>) {
    path != [] && forall i :: 0 <= i < |path| ==> path[i] != "" && SlashFree(path[i])
  }

  lemma {:induction false} AtPathIds(path: seq<string>)
    requires Plain(path)
    ensures AtPath(path).id == path[|path| - 1] && AtPath(path).contextId != ""
    ensures AtPath(path).parentId == if |path| == 1 then "" else path[|path| - 2]
    ensures LastSegment(AtPath(path).contextId) == path[|path| - 1]
  {
    var n := |path| - 1;
    var r := AtPath(path);
    if n == 0 {
      assert LastSlash(r.contextId) == -1;
    } else {
      AtPathIds(path[..n]);
      var parent := AtPath(path[..n]).contextId;
      AppendKeepsTail(parent, path[n]);
      assert LastSlash(path[n]) == -1;
      assert r.contextId[|parent| + 1..] == path[n];
    }
  }

  /** At every nesting depth, any chain of updates leaves the identifiers as first written, with
      the parent id naming the record one level up. */
  lemma {:induction false} UpdatesKeepIdentity(path: seq<string>, cids: seq<string>)
    requires Plain(path)
    ensures Updated(AtPath(path), cids) == AtPath(path)
    ensures AtPath(path).parentId == if |path| == 1 then "" else path[|path| - 2]
  {
    AtPathIds(path);
    if cids != [] {
      var n := |path| - 1;
      UpdatesKeepIdentity(path, cids[..|cids| - 1]);
      var parent := if n == 0 then "" else AtPath(path[..n]).contextId;
      UpdateKeeps(parent, path[n], "", cids[|cids| - 1]);
    }
  }

  /** An id with a slash: the first update already moves the record. */
  lemma SlashMovesRecord()
    ensures Update(Build("net", "a/b", ""), "").contextId == "net/a/a/b"
    ensures Build("net", "a/b", "").contextId == "net/a/b"
  {
    var id := "a/b";
    assert "net" + "/" + id == "net/a/b" == "net/a" + "/" + "b";
    assert LastSlash("net/a" + "/" + "b") == 5 by {
      AppendKeepsTail("net/a", "b");
    }
    assert "net/a/b"[..5] == "net/a";
    assert "net/a" + "/" + id == "net/a/a/b";
  }

  // ---- The control client's queries ----------------------------------------------------

  /** The context in which the nodes of a member are queried. */
  function MemberContext(network: string, memberRecordId: string): string {
    network + "/" + memberRecordId
  }

  /** The context in which the children of a node are queried. */
  function NodeContext(network: string, memberRecordId: string, nodeRecordId: string): string {
    if memberRecordId != "" then network + "/" + memberRecordId + "/" + nodeRecordId else network + "/" + nodeRecordId
  }

  /** The path of a node record: under its member, or directly under the network. */
  function NodePath(network: string, memberRecordId: string, nodeRecordId: string): seq<string> {
    if memberRecordId != "" then [network, memberRecordId, nodeRecordId] else [network, nodeRecordId]
  }

  lemma RootHasNoSlash(path: seq<string>)
    requires Plain(path)
    ensures |path| == 1 <==> SlashFree(AtPath(path).contextId)
  {
    var n := |path| - 1;
    if n > 0 {
      AtPathIds(path[..n]);
      var parent := AtPath(path[..n]).contextId;
      assert AtPath(path).contextId[|parent|] == '/';
    }
  }

  lemma StepDown(path: seq<string>)
    requires Plain(path) && |path| > 1
    ensures AtPath(path).contextId == AtPath(path[..|path| - 1]).contextId + "/" + path[|path| - 1]
  {
    AtPathIds(path[..|path| - 1]);
  }

  lemma SameTail(p: string, x: string, q: string, y: string)
    requires SlashFree(x) && SlashFree(y) && p + "/" + x == q + "/" + y
    ensures p == q && x == y
  {
    AppendKeepsTail(p, x);
    AppendKeepsTail(q, y);
    assert LastSlash(x) == -1 == LastSlash(y);
    var s := p + "/" + x;
    assert p == s[..|p|] && x == s[|p| + 1..];
    assert q == s[..|q|] && y == s[|q| + 1..];
  }

  /** A path is recovered from its context id, so no two records share one. */
  lemma {:induction false} ContextIdentifies(a: seq<string>, b: seq<string>)
    requires Plain(a) && Plain(b) && AtPath(a).contextId == AtPath(b).contextId
    ensures a == b
    decreases |a|
  {
    hide AtPath, SlashFree;
    RootHasNoSlash(a);
    RootHasNoSlash(b);
    var m, n := |a| - 1, |b| - 1;
    if m > 0 {
      StepDown(a);
      StepDown(b);
      SameTail(AtPath(a[..m]).contextId, a[m], AtPath(b[..n]).contextId, b[n]);
      ContextIdentifies(a[..m], b[..n]);
      assert a == a[..m] + [a[m]] && b == b[..n] + [b[n]];
    } else {
      RootContext(a[0]);
      RootContext(b[0]);
      assert a == [a[0]] && b == [b[0]];
    }
  }

  lemma RootContext(id: string)
    requires id != ""
    ensures AtPath([id]).contextId == id
  {
  }

  /** The contexts the client queries are the context ids the writes assigned, and they tell node
      records apart. */
  lemma QueriesMatchRecords(network: string, member: string, node: string, member': string, node': string)
    requires Plain(NodePath(network, member, node)) && Plain(NodePath(network, member', node'))
    ensures NodeContext(network, member, node) == AtPath(NodePath(network, member, node)).contextId
    ensures member != "" ==> MemberContext(network, member) == AtPath([network, member]).contextId
    ensures NodeContext(network, member, node) == NodeContext(network, member', node') <==> member == member' && node == node'
  {
    hide AtPath, NodeContext, MemberContext, SlashFree;
    PathContext(network, member, node);
    PathContext(network, member', node');
    if NodeContext(network, member, node) == NodeContext(network, member', node') {
      var a, b := NodePath(network, member, node), NodePath(network, member', node');
      ContextIdentifies(a, b);
      assert a[|a| - 1] == b[|b| - 1] && a[|a| - 2] == b[|b| - 2];
    }
  }

  lemma PathContext(network: string, member: string, node: string)
    requires Plain(NodePath(network, member, node))
    ensures NodeContext(network, member, node) == AtPath(NodePath(network, member, node)).contextId
    ensures member != "" ==> MemberContext(network, member) == AtPath([network, member]).contextId
  {
    var path := NodePath(network, member, node);
    assert path[0] != "" && path[1] != "";
    assert AtPath([network]).contextId == network;
    assert path[..1] == [network];
    if member != "" {
      assert path[..2] == [network, member] && [network, member][..1] == [network];
    }
  }
}
