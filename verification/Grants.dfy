/** Permission grants: what a wallet's answer may contain, and what a stored grant is later picked for. */
module Grants {
  import opened Options

  // ---- Scopes as JSON ------------------------------------------------------------------

  datatype Json = Null | Text(text: string) | Other

  datatype Member = Member(key: string, value: Json)

  /** The members of a scope object, in document order. */
  type Object = seq<Member>

  /** Indexing the object as a generic map: the last member of that name. */
  function Lookup(o: Object, f: string): Option<Json> {
    if o == [] then None
    else if o[|o| - 1].key == f then Some(o[|o| - 1].value)
    else Lookup(o[..|o| - 1], f)
  }

  function Lower(c: char): char {
    if 'A' <= c <= 'Z' then c - 'A' + 'a' else c
  }

  /** Decoding into a struct accepts any capitalisation of the field's name. */
  predicate Names(key: string, f: string) {
    |key| == |f| && forall i :: 0 <= i < |f| ==> Lower(key[i]) == Lower(f[i])
  }

  /** Decoding into a string field of a struct: the last text wins, null changes nothing and
      anything else is an error. A field that never occurs stays empty. */
  function Decode(o: Object, f: string): Option<string> {
    if o == [] then Some("")
    else
      var before, last := Decode(o[..|o| - 1], f), o[|o| - 1];
      if !Names(last.key, f) || before.None? || last.value.Null? then before
      else if last.value.Text? then Some(last.value.text)
      else None
  }

  datatype Scope = Scope(iface: string, method_: string, protocol: string, protocolPath: string, contextId: string)

  const FIELDS := ["interface", "method", "protocol", "protocolPath", "contextId"]

  function DecodeScope(o: Object): Option<Scope> {
    var i, m, p := Decode(o, "interface"), Decode(o, "method"), Decode(o, "protocol");
    var pp, c := Decode(o, "protocolPath"), Decode(o, "contextId");
    if i.None? || m.None? || p.None? || pp.None? || c.None? then None
    else Some(Scope(i.value, m.value, p.value, pp.value, c.value))
  }

  function Field(key: string, text: string): Object {
    [Member(key, Text(text))]
  }

  function Optional(key: string, text: string): Object {
    if text == "" then [] else Field(key, text)
  }

  /** A requested scope as the generic map it is compared as: empty targets are left out. */
  function Encode(s: Scope): Object {
    Field("interface", s.iface) + Field("method", s.method_) + Optional("protocol", s.protocol)
    + Optional("contextId", s.contextId) + Optional("protocolPath", s.protocolPath)
  }

  // ---- Validating the answer -------------------------------------------------------------

  /** A grant message. `readable` says that both layers decode, the signer is named and the grantee
      and expiry date are there; `grantor` is the signer's DID and `expires` the parsed date. */
  datatype Grant = Grant(readable: bool, id: string, grantee: string, grantor: Option<string>,
                         expires: Option<int>, delegated: bool, scope: Option<Object>)

  datatype Revocation = Revocation(revocationGrantId: string, grantId: string)

  const PERMISSIONS_PROTOCOL := "https://identity.foundation/dwn/permissions"

  predicate IsScopeSubset(granted: Object, requested: Object) {
    && Lookup(granted, "interface") == Lookup(requested, "interface")
    && Lookup(granted, "method") == Lookup(requested, "method")
    && forall i :: 0 <= i < |requested| ==>
         Lookup(granted, requested[i].key).Some? && Lookup(granted, requested[i].key) == Lookup(requested, requested[i].key)
  }

  /** The grant this id revokes: the last entry that names it. */
  function Revoked(revocations: seq<Revocation>, id: string): Option<string> {
    if revocations == [] then None
    else if revocations[|revocations| - 1].revocationGrantId == id then Some(revocations[|revocations| - 1].grantId)
    else Revoked(revocations[..|revocations| - 1], id)
  }

  /** The entry that counts is the last one with that id. */
  lemma {:induction false} RevokedIsLast(revocations: seq<Revocation>, id: string) returns (i: nat)
    ensures if exists j :: 0 <= j < |revocations| && revocations[j].revocationGrantId == id
            then && i < |revocations| && revocations[i].revocationGrantId == id
                 && Revoked(revocations, id) == Some(revocations[i].grantId)
                 && forall j :: i < j < |revocations| ==> revocations[j].revocationGrantId != id
            else Revoked(revocations, id) == None
  {
    i := 0;
    if revocations != [] {
      var n := |revocations| - 1;
      if revocations[n].revocationGrantId == id {
        i := n;
      } else {
        i := RevokedIsLast(revocations[..n], id);
        assert forall j :: 0 <= j < n ==> revocations[..n][j] == revocations[j];
      }
    }
  }

  predicate IsSessionRevocation(o: Object, revoked: string) {
    && Lookup(o, "interface") == Some(Text("Records"))
    && Lookup(o, "method") == Some(Text("Write"))
    && Lookup(o, "protocol") == Some(Text(PERMISSIONS_PROTOCOL))
    && Lookup(o, "contextId") == Some(Text(revoked))
  }

  predicate Requested(o: Object, requested: seq<Scope>) {
    exists i :: 0 <= i < |requested| && IsScopeSubset(o, Encode(requested[i]))
  }

  predicate Acceptable(g: Grant, delegate: string, requested: seq<Scope>, revocations: seq<Revocation>) {
    && g.readable && g.scope.Some?
    && g.grantee == delegate
    && (|| (Revoked(revocations, g.id).Some? && IsSessionRevocation(g.scope.value, Revoked(revocations, g.id).value))
        || Requested(g.scope.value, requested))
  }

  method IsRequestedScope(o: Object, requested: seq<Scope>) returns (r: bool)
    ensures r <==> Requested(o, requested)
  {
    for i := 0 to |requested|
      invariant forall j :: 0 <= j < i ==> !IsScopeSubset(o, Encode(requested[j]))
    {
      if IsScopeSubset(o, Encode(requested[i])) {
        return true;
      }
    }
    return false;
  }

  method RevokedIds(revocations: seq<Revocation>) returns (ids: map<string, string>)
    ensures forall id :: id in ids <==> Revoked(revocations, id).Some?
    ensures forall id :: id in ids ==> Revoked(revocations, id) == Some(ids[id])
  {
    ids := map[];
    for i := 0 to |revocations|
      invariant forall id :: id in ids <==> Revoked(revocations[..i], id).Some?
      invariant forall id :: id in ids ==> Revoked(revocations[..i], id) == Some(ids[id])
    {
      assert revocations[..i + 1][..i] == revocations[..i];
      ids := ids[revocations[i].revocationGrantId := revocations[i].grantId];
    }
    assert revocations[..|revocations|] == revocations;
  }

  /** The answer is accepted exactly when every grant in it is acceptable. */
  method ValidateGrants(grants: seq<Grant>, delegate: string, requested: seq<Scope>, revocations: seq<Revocation>)
    returns (ok: bool)
    ensures ok <==> forall i :: 0 <= i < |grants| ==> Acceptable(grants[i], delegate, requested, revocations)
  {
    var ids := RevokedIds(revocations);
    for i := 0 to |grants|
      invariant forall j :: 0 <= j < i ==> Acceptable(grants[j], delegate, requested, revocations)
    {
      var g := grants[i];
      if !g.readable || g.scope.None? || g.grantee != delegate {
        return false;
      }
      if g.id in ids && IsSessionRevocation(g.scope.value, ids[g.id]) {
        continue;
      }
      var inside := IsRequestedScope(g.scope.value, requested);
      if !inside {
        return false;
      }
    }
    return true;
  }

  // ---- Selecting a grant for an operation ------------------------------------------------

  /** A message about to be sent: its type and target. */
  datatype Operation = Operation(messageType: string, protocol: string, protocolPath: string, contextId: string)

  datatype Match = Match(op: Operation, grantor: string, grantee: string, now: int, allowDelegated: bool)

  predicate InterfaceMethodMatches(s: Scope, messageType: string) {
    match messageType
    case "RecordsRead" => s.iface == "Records" && s.method_ == "Read"
    case "RecordsQuery" => s.iface == "Records" && s.method_ == "Read"
    case "RecordsWrite" => s.iface == "Records" && s.method_ == "Write"
    case "RecordsDelete" => s.iface == "Records" && s.method_ == "Delete"
    case "ProtocolsQuery" => s.iface == "Protocols" && s.method_ == "Query"
    case "ProtocolsConfigure" => s.iface == "Protocols" && s.method_ == "Configure"
    case _ => false
  }

  predicate TargetMatches(s: Scope, op: Operation) {
    && (s.protocol != "" ==> s.protocol == op.protocol)
    && (s.protocolPath != "" ==> s.protocolPath == op.protocolPath)
    && (s.contextId != "" ==> s.contextId == op.contextId)
  }

  predicate Allows(s: Scope, op: Operation) {
    InterfaceMethodMatches(s, op.messageType) && TargetMatches(s, op)
  }

  /** The grant as selection reads it, or nothing if it does not parse. */
  function Parse(g: Grant): Option<Scope> {
    if !g.readable || g.id == "" || g.grantor.None? then None
    else
      var s := DecodeScope(if g.scope.Some? then g.scope.value else []);
      if s.None? || s.value.iface == "" || s.value.method_ == "" then None else s
  }

  predicate Matches(g: Grant, m: Match) {
    && Parse(g).Some?
    && (m.grantor != "" ==> g.grantor == Some(m.grantor))
    && (m.grantee != "" ==> g.grantee == m.grantee)
    && g.expires.Some? && m.now < g.expires.value
    && Allows(Parse(g).value, m.op)
  }

  predicate EligiblePlain(g: Grant, m: Match) {
    Matches(g, m) && (g.delegated ==> m.allowDelegated)
  }

  predicate EligibleDelegated(g: Grant, m: Match) {
    Matches(g, m) && g.delegated
  }

  lemma Tail(a: string, b: string, t: string)
    requires a + b == t
    ensures |a| <= |t| && b == t[|a|..]
  {
    assert t[|a|..] == b;
  }

  /** The message types a scope can be good for spell its interface and method; a query counts as a
      read. */
  predicate Spells(s: Scope, messageType: string) {
    if messageType == "RecordsQuery" then s.iface == "Records" && s.method_ == "Read"
    else
      && messageType in {"RecordsRead", "RecordsWrite", "RecordsDelete", "ProtocolsQuery", "ProtocolsConfigure"}
      && (s.iface == "Records" || s.iface == "Protocols") && s.iface + s.method_ == messageType
  }

  lemma TypesSpell(s: Scope, messageType: string)
    ensures InterfaceMethodMatches(s, messageType) <==> Spells(s, messageType)
  {
    if s.iface + s.method_ == messageType {
      Tail(s.iface, s.method_, messageType);
      assert "RecordsRead"[7..] == "Read" && "RecordsWrite"[7..] == "Write" && "RecordsDelete"[7..] == "Delete";
      assert "ProtocolsQuery"[9..] == "Query" && "ProtocolsConfigure"[9..] == "Configure";
      assert s.iface == "" || messageType[0] == s.iface[0];
    }
    assert "Records" + "Read" == "RecordsRead" && "Records" + "Write" == "RecordsWrite";
    assert "Records" + "Delete" == "RecordsDelete";
    assert "Protocols" + "Query" == "ProtocolsQuery" && "Protocols" + "Configure" == "ProtocolsConfigure";
  }

  /** A matching grant parses, is from and for whom it must be, is not over, spells the message type
      and is for its target; and any such grant matches. */
  lemma MatchesMeans(g: Grant, m: Match)
    ensures Matches(g, m) <==>
              && g.readable && g.id != "" && g.grantor.Some?
              && (m.grantor == "" || g.grantor.value == m.grantor) && (m.grantee == "" || g.grantee == m.grantee)
              && g.expires.Some? && m.now < g.expires.value
              && var s := DecodeScope(if g.scope.Some? then g.scope.value else []);
                 && s.Some? && s.value.iface != "" && s.value.method_ != "" && Spells(s.value, m.op.messageType)
                 && s.value.protocol in {"", m.op.protocol} && s.value.protocolPath in {"", m.op.protocolPath}
                 && s.value.contextId in {"", m.op.contextId}
  {
    hide Spells, InterfaceMethodMatches;
    var s := DecodeScope(if g.scope.Some? then g.scope.value else []);
    if s.Some? {
      TypesSpell(s.value, m.op.messageType);
    }
  }

  /** The finders prefer a grant whose interface and method spell the message type. All matching
      grants spell it, or none does. */
  lemma PreferenceIsUniform(g: Grant, h: Grant, m: Match)
    requires Matches(g, m) && Matches(h, m)
    ensures Parse(g).value.iface + Parse(g).value.method_ == m.op.messageType
       <==> Parse(h).value.iface + Parse(h).value.method_ == m.op.messageType
  {
    var s, t := Parse(g).value, Parse(h).value;
    assert s.iface == t.iface && s.method_ == t.method_;
  }

  lemma SpelledByMatch(g: Grant, m: Match)
    requires Matches(g, m)
    ensures Spells(Parse(g).value, m.op.messageType)
  {
    hide Spells, InterfaceMethodMatches;
    TypesSpell(Parse(g).value, m.op.messageType);
  }

  /** Despite the preference, the result is the first eligible grant in list order. */
  method FindPermissionGrantID(grants: seq<Grant>, m: Match) returns (id: string)
    ensures id == "" ==> forall i :: 0 <= i < |grants| && Matches(grants[i], m) ==> grants[i].delegated && !m.allowDelegated
    ensures id != "" ==> exists i :: 0 <= i < |grants| && EligiblePlain(grants[i], m) && grants[i].id == id
                                     && (grants[i].delegated ==> m.allowDelegated)
                                     && Spells(Parse(grants[i]).value, m.op.messageType)
                                     && forall j :: 0 <= j < i ==> !EligiblePlain(grants[j], m)
  {
    hide Allows, Spells;
    var fallback := "";
    ghost var first := 0;
    for i := 0 to |grants|
      invariant fallback == "" ==> forall j :: 0 <= j < i ==> !EligiblePlain(grants[j], m)
      invariant fallback != "" ==>
          && first < i && EligiblePlain(grants[first], m) && grants[first].id == fallback
          && Spells(Parse(grants[first]).value, m.op.messageType)
          && Parse(grants[first]).value.iface + Parse(grants[first]).value.method_ != m.op.messageType
          && forall j :: 0 <= j < first ==> !EligiblePlain(grants[j], m)
    {
      var g := grants[i];
      var s := Parse(g);
      if s.None? || (g.delegated && !m.allowDelegated) || !Matches(g, m) {
        continue;
      }
      SpelledByMatch(g, m);
      if fallback != "" {
        PreferenceIsUniform(grants[first], g, m);
      }
      if s.value.iface + s.value.method_ == m.op.messageType {
        return g.id;
      }
      if fallback == "" {
        fallback, first := g.id, i;
      }
    }
    return fallback;
  }

  method FindDelegatedGrant(grants: seq<Grant>, m: Match) returns (r: Option<Grant>)
    ensures r.None? ==> forall i :: 0 <= i < |grants| && Matches(grants[i], m) ==> !grants[i].delegated
    ensures r.Some? ==> exists i :: 0 <= i < |grants| && EligibleDelegated(grants[i], m) && grants[i] == r.value
                                    && grants[i].delegated
                                    && Spells(Parse(grants[i]).value, m.op.messageType)
                                    && forall j :: 0 <= j < i ==> !EligibleDelegated(grants[j], m)
  {
    hide Allows, Spells;
    var fallback: Option<Grant> := None;
    ghost var first := 0;
    for i := 0 to |grants|
      invariant fallback.None? ==> forall j :: 0 <= j < i ==> !EligibleDelegated(grants[j], m)
      invariant fallback.Some? ==>
          && first < i && EligibleDelegated(grants[first], m) && grants[first] == fallback.value
          && Spells(Parse(grants[first]).value, m.op.messageType)
          && Parse(grants[first]).value.iface + Parse(grants[first]).value.method_ != m.op.messageType
          && forall j :: 0 <= j < first ==> !EligibleDelegated(grants[j], m)
    {
      var g := grants[i];
      var s := Parse(g);
      if s.None? || !g.delegated || !Matches(g, m) {
        continue;
      }
      SpelledByMatch(g, m);
      if fallback.Some? {
        PreferenceIsUniform(grants[first], g, m);
      }
      if s.value.iface + s.value.method_ == m.op.messageType {
        return Some(g);
      }
      if fallback.None? {
        fallback, first := Some(g), i;
      }
    }
    return fallback;
  }

  // ---- Validation bounds selection ---------------------------------------------------------

  /** The last key that decoding takes for field `f` is spelled exactly `f`. */
  predicate LastIsExact(keys: seq<string>, f: string) {
    if keys == [] then true
    else if Names(keys[|keys| - 1], f) then keys[|keys| - 1] == f
    else LastIsExact(keys[..|keys| - 1], f)
  }

  function Keys(o: Object): seq<string> {
    seq(|o|, i requires 0 <= i < |o| => o[i].key)
  }

  /** Every field that occurs under its exact name has no other spelling after it. */
  predicate ExactlySpelled(keys: seq<string>) {
    forall i :: 0 <= i < |FIELDS| && FIELDS[i] in keys ==> LastIsExact(keys, FIELDS[i])
  }

  lemma {:induction false} DecodedIsLooked(o: Object, f: string, text: string)
    requires LastIsExact(Keys(o), f) && Lookup(o, f) == Some(Text(text)) && Decode(o, f).Some?
    ensures Decode(o, f) == Some(text)
  {
    var n := |o| - 1;
    assert Keys(o)[..n] == Keys(o[..n]);
    if o[n].key != f {
      DecodedIsLooked(o[..n], f, text);
    }
  }

  function Zip(keys: seq<string>, texts: seq<string>): Object
    requires |keys| == |texts|
  {
    seq(|keys|, i requires 0 <= i < |keys| => Member(keys[i], Text(texts[i])))
  }

  lemma {:induction false} ZipDecodes(keys: seq<string>, texts: seq<string>, f: string)
    requires |keys| == |texts| && f in keys
    ensures Decode(Zip(keys, texts), f).Some? && Lookup(Zip(keys, texts), f).Some?
         && Lookup(Zip(keys, texts), f).value.Text?
  {
    ZipDecodesAll(keys, texts, f);
    var n := |keys| - 1;
    assert Zip(keys, texts)[..n] == Zip(keys[..n], texts[..n]);
    if keys[n] != f {
      assert keys == keys[..n] + [keys[n]];
      ZipDecodes(keys[..n], texts[..n], f);
    }
  }

  lemma {:induction false} ZipDecodesAll(keys: seq<string>, texts: seq<string>, f: string)
    requires |keys| == |texts|
    ensures Decode(Zip(keys, texts), f).Some?
  {
    if keys != [] {
      var n := |keys| - 1;
      assert Zip(keys, texts)[..n] == Zip(keys[..n], texts[..n]);
      ZipDecodesAll(keys[..n], texts[..n], f);
    }
  }

  function Want(key: string): string {
    if Names(key, "interface") then "Records" else if Names(key, "method") then "Write" else "other"
  }

  /** Texts that tell the exact spelling of `f` from every other, and otherwise let records be written. */
  function Telling(keys: seq<string>, f: string): (texts: seq<string>)
    ensures |texts| == |keys|
  {
    seq(|keys|, i requires 0 <= i < |keys| => if keys[i] == f then "exact" else Want(keys[i]))
  }

  lemma WantSame(k: string, f: string)
    requires Names(k, f)
    ensures Want(k) == Want(f)
  {
  }

  lemma {:induction false} TellingTells(keys: seq<string>, f: string)
    requires f in keys && !LastIsExact(keys, f)
    ensures Decode(Zip(keys, Telling(keys, f)), f) == Some(Want(f))
  {
    hide Want;
    var n, o := |keys| - 1, Zip(keys, Telling(keys, f));
    assert o[..n] == Zip(keys[..n], Telling(keys[..n], f));
    assert keys == keys[..n] + [keys[n]];
    if Names(keys[n], f) {
      ZipDecodesAll(keys[..n], Telling(keys[..n], f), f);
      WantSame(keys[n], f);
    } else {
      assert Names(f, f);
      TellingTells(keys[..n], f);
    }
  }

  lemma {:induction false} TellingLooks(keys: seq<string>, f: string, g: string)
    requires g in keys
    ensures Lookup(Zip(keys, Telling(keys, f)), g) == Some(Text(if g == f then "exact" else Want(g)))
  {
    hide Want;
    var n, o := |keys| - 1, Zip(keys, Telling(keys, f));
    assert o[..n] == Zip(keys[..n], Telling(keys[..n], f));
    assert keys == keys[..n] + [keys[n]];
    if keys[n] != g {
      TellingLooks(keys[..n], f, g);
    }
  }

  lemma {:induction false} TellingDecodes(keys: seq<string>, f: string, g: string)
    requires g in keys && !Names(f, g)
    ensures Decode(Zip(keys, Telling(keys, f)), g) == Some(Want(g))
  {
    hide Want;
    var n, o := |keys| - 1, Zip(keys, Telling(keys, f));
    assert o[..n] == Zip(keys[..n], Telling(keys[..n], f));
    assert keys == keys[..n] + [keys[n]];
    if Names(keys[n], g) {
      ZipDecodesAll(keys[..n], Telling(keys[..n], f), g);
      WantSame(keys[n], g);
    } else {
      assert Names(g, g);
      TellingDecodes(keys[..n], f, g);
    }
  }

  lemma ExactIsUnwanted(f: string)
    ensures Want(f) != "exact"
  {
    assert "Write"[0] != "exact"[0] && "other"[0] != "exact"[0];
  }

  predicate SameReading(o: Object, f: string) {
    Decode(o, f).Some? && Lookup(o, f) == Some(Text(Decode(o, f).value))
  }

  /** Validation and selection read one value for a field, whatever the values, if and only if the
      last key that decoding takes for it has its exact spelling. */
  lemma ReadersAgree(keys: seq<string>, f: string)
    requires f in keys
    ensures LastIsExact(keys, f) <==>
            forall texts: seq<string> | |texts| == |keys| :: SameReading(Zip(keys, texts), f)
  {
    if LastIsExact(keys, f) {
      forall texts: seq<string> | |texts| == |keys|
        ensures SameReading(Zip(keys, texts), f)
      {
        ZipDecodes(keys, texts, f);
        assert Keys(Zip(keys, texts)) == keys;
        DecodedIsLooked(Zip(keys, texts), f, Lookup(Zip(keys, texts), f).value.text);
      }
    } else {
      TellingTells(keys, f);
      TellingLooks(keys, f, f);
      ExactIsUnwanted(f);
      assert |Telling(keys, f)| == |keys|;
    }
  }

  /** `s` constrains whatever `r` constrains, in the same way. */
  predicate Narrows(s: Scope, r: Scope) {
    && s.iface == r.iface && s.method_ == r.method_
    && (r.protocol != "" ==> s.protocol == r.protocol)
    && (r.protocolPath != "" ==> s.protocolPath == r.protocolPath)
    && (r.contextId != "" ==> s.contextId == r.contextId)
  }

  lemma {:induction false} SubsetHas(o: Object, requested: Object, f: string)
    requires IsScopeSubset(o, requested) && Lookup(requested, f).Some?
    ensures Lookup(o, f) == Lookup(requested, f)
  {
    var i := LookupFound(requested, f);
  }

  lemma LookedIsThere(o: Object, f: string)
    requires Lookup(o, f).Some?
    ensures f in Keys(o)
  {
    var i := LookupFound(o, f);
    assert Keys(o)[i] == f;
  }

  lemma {:induction false} LookupFound(o: Object, f: string) returns (i: nat)
    requires Lookup(o, f).Some?
    ensures i < |o| && o[i].key == f
  {
    i := |o| - 1;
    if o[i].key != f {
      i := LookupFound(o[..i], f);
    }
  }

  lemma {:induction false} LookupSplit(a: Object, b: Object, f: string)
    ensures Lookup(a + b, f) == if Lookup(b, f).Some? then Lookup(b, f) else Lookup(a, f)
  {
    if b == [] {
      assert a + b == a;
    } else {
      var n := |b| - 1;
      assert (a + b)[..|a| + n] == a + b[..n];
      LookupSplit(a, b[..n], f);
    }
  }

  lemma FieldLookup(key: string, text: string, f: string)
    ensures Lookup(Field(key, text), f) == if key == f then Some(Text(text)) else None
  {
    assert Field(key, text)[..0] == [];
  }

  lemma OptionalLookup(key: string, text: string, f: string)
    ensures Lookup(Optional(key, text), f) == if key == f && text != "" then Some(Text(text)) else None
  {
    FieldLookup(key, text, f);
  }

  /** What a requested scope demands of a field: always an interface and a method, and the targets
      that are not empty. */
  function Demand(r: Scope, f: string): Option<Json> {
    match f
    case "interface" => Some(Text(r.iface))
    case "method" => Some(Text(r.method_))
    case "protocol" => if r.protocol != "" then Some(Text(r.protocol)) else None
    case "protocolPath" => if r.protocolPath != "" then Some(Text(r.protocolPath)) else None
    case "contextId" => if r.contextId != "" then Some(Text(r.contextId)) else None
    case _ => None
  }

  lemma EncodeDemands(r: Scope, f: string)
    ensures Lookup(Encode(r), f) == Demand(r, f)
  {
    hide Lookup, Field, Optional;
    var i, m, p := Field("interface", r.iface), Field("method", r.method_), Optional("protocol", r.protocol);
    var c, pp := Optional("contextId", r.contextId), Optional("protocolPath", r.protocolPath);
    LookupSplit(i, m, f);
    LookupSplit(i + m, p, f);
    LookupSplit(i + m + p, c, f);
    LookupSplit(i + m + p + c, pp, f);
    FieldLookup("interface", r.iface, f);
    FieldLookup("method", r.method_, f);
    OptionalLookup("protocol", r.protocol, f);
    OptionalLookup("contextId", r.contextId, f);
    OptionalLookup("protocolPath", r.protocolPath, f);
    assert "interface"[0] != "contextId"[0];
  }

  /** A field that a requested scope demands is read the same by selection. */
  lemma DemandIsRead(o: Object, r: Scope, k: nat)
    requires k < |FIELDS| && ExactlySpelled(Keys(o)) && IsScopeSubset(o, Encode(r)) && Decode(o, FIELDS[k]).Some?
    ensures Demand(r, FIELDS[k]).Some? ==> Demand(r, FIELDS[k]) == Some(Text(Decode(o, FIELDS[k]).value))
  {
    hide Encode, IsScopeSubset;
    var f := FIELDS[k];
    EncodeDemands(r, f);
    if Demand(r, f).Some? {
      SubsetHas(o, Encode(r), f);
      LookedIsThere(o, f);
      DecodedIsLooked(o, f, Demand(r, f).value.text);
    }
  }

  lemma SubsetNarrows(o: Object, r: Scope, s: Scope)
    requires ExactlySpelled(Keys(o)) && IsScopeSubset(o, Encode(r)) && DecodeScope(o) == Some(s)
    ensures Narrows(s, r)
  {
    hide Encode, IsScopeSubset, ExactlySpelled, Decode;
    DemandIsRead(o, r, 0);
    DemandIsRead(o, r, 1);
    DemandIsRead(o, r, 2);
    DemandIsRead(o, r, 3);
    DemandIsRead(o, r, 4);
  }

  /** Narrowing is what it takes to allow no more. */
  lemma NarrowAllowsLess(s: Scope, r: Scope, op: Operation)
    requires Narrows(s, r) && Allows(s, op)
    ensures Allows(r, op)
  {
  }

  /** A session-revocation grant is good for writing to the permissions protocol, in the context of
      the grant it revokes, or in any context when that id is empty. */
  predicate RevokesOnly(op: Operation, revoked: string) {
    && op.messageType == "RecordsWrite" && op.protocol == PERMISSIONS_PROTOCOL
    && (revoked != "" ==> op.contextId == revoked)
  }

  lemma RevocationIsRead(o: Object, revoked: string, s: Scope)
    requires ExactlySpelled(Keys(o)) && IsSessionRevocation(o, revoked) && DecodeScope(o) == Some(s)
    ensures s.iface == "Records" && s.method_ == "Write" && s.protocol == PERMISSIONS_PROTOCOL && s.contextId == revoked
  {
    hide Decode, LastIsExact, Lookup;
    LookedIsThere(o, FIELDS[0]);
    LookedIsThere(o, FIELDS[1]);
    LookedIsThere(o, FIELDS[2]);
    LookedIsThere(o, FIELDS[4]);
    DecodedIsLooked(o, "interface", "Records");
    DecodedIsLooked(o, "method", "Write");
    DecodedIsLooked(o, "protocol", PERMISSIONS_PROTOCOL);
    DecodedIsLooked(o, "contextId", revoked);
  }

  lemma RevocationAllows(s: Scope, revoked: string, op: Operation)
    requires s.iface == "Records" && s.method_ == "Write" && s.protocol == PERMISSIONS_PROTOCOL && s.contextId == revoked
    requires Allows(s, op)
    ensures RevokesOnly(op, revoked)
  {
    assert "Write"[0] != "Read"[0];
    assert |PERMISSIONS_PROTOCOL| > 0;
  }

  predicate AllowedBy(requested: seq<Scope>, op: Operation) {
    exists i :: 0 <= i < |requested| && Allows(requested[i], op)
  }

  /** What the grant is selected for was requested, or revokes the session it was issued for. */
  predicate Warranted(g: Grant, requested: seq<Scope>, revocations: seq<Revocation>, op: Operation) {
    || AllowedBy(requested, op)
    || (Revoked(revocations, g.id).Some? && RevokesOnly(op, Revoked(revocations, g.id).value))
  }

  /** Whatever an accepted grant can be selected for is warranted, provided its scope spells its
      fields exactly. */
  lemma GrantScopeSoundness(g: Grant, delegate: string, requested: seq<Scope>, revocations: seq<Revocation>, m: Match)
    requires Acceptable(g, delegate, requested, revocations) && ExactlySpelled(Keys(g.scope.value))
    requires Matches(g, m)
    ensures Warranted(g, requested, revocations, m.op) && g.grantee == delegate
  {
    hide Allows, IsScopeSubset, ExactlySpelled, IsSessionRevocation, RevokesOnly, Revoked, Encode, DecodeScope;
    var o, s := g.scope.value, Parse(g).value;
    var named := Revoked(revocations, g.id);
    if named.Some? && IsSessionRevocation(o, named.value) {
      RevocationIsRead(o, named.value, s);
      RevocationAllows(s, named.value, m.op);
    } else {
      var i :| 0 <= i < |requested| && IsScopeSubset(o, Encode(requested[i]));
      SubsetNarrows(o, requested[i], s);
      NarrowAllowsLess(s, requested[i], m.op);
    }
  }

  // ---- Exactly which spellings are safe ----------------------------------------------------

  /** Only a scope with both names can be accepted at all. */
  predicate SafeSpelling(keys: seq<string>) {
    "interface" in keys && "method" in keys ==> ExactlySpelled(keys)
  }

  predicate Sound(g: Grant, delegate: string, requested: seq<Scope>, revocations: seq<Revocation>, m: Match) {
    Acceptable(g, delegate, requested, revocations) && Matches(g, m) ==> Warranted(g, requested, revocations, m.op)
  }

  lemma AcceptedHasNames(g: Grant, delegate: string, requested: seq<Scope>, revocations: seq<Revocation>)
    requires Acceptable(g, delegate, requested, revocations)
    ensures "interface" in Keys(g.scope.value) && "method" in Keys(g.scope.value)
  {
    hide Encode, Lookup, Revoked, Keys;
    var o := g.scope.value;
    if i :| 0 <= i < |requested| && IsScopeSubset(o, Encode(requested[i])) {
      EncodeDemands(requested[i], "interface");
      EncodeDemands(requested[i], "method");
    }
    LookedIsThere(o, "interface");
    LookedIsThere(o, "method");
  }

  lemma {:induction false} MemberIsLooked(o: Object, i: nat)
    requires i < |o|
    ensures Lookup(o, o[i].key).Some?
  {
    var n := |o| - 1;
    if i < n && o[n].key != o[i].key {
      MemberIsLooked(o[..n], i);
    }
  }

  /** Meeting every demand is enough to pass. */
  lemma DemandsSuffice(o: Object, r: Scope)
    requires forall j :: 0 <= j < |FIELDS| && Demand(r, FIELDS[j]).Some? ==> Lookup(o, FIELDS[j]) == Demand(r, FIELDS[j])
    ensures IsScopeSubset(o, Encode(r))
  {
    hide Lookup, Encode;
    var e := Encode(r);
    EncodeDemands(r, FIELDS[0]);
    EncodeDemands(r, FIELDS[1]);
    forall i | 0 <= i < |e|
      ensures Lookup(o, e[i].key).Some? && Lookup(o, e[i].key) == Lookup(e, e[i].key)
    {
      MemberIsLooked(e, i);
      EncodeDemands(r, e[i].key);
      assert e[i].key in FIELDS;
    }
  }

  /** A scope that demands the text "exact" of field `f` and otherwise lets records be written. */
  function Demanding(f: string): Scope {
    Scope(if f == "interface" then "exact" else "Records",
          if f == "method" then "exact" else "Write",
          if f == "protocol" then "exact" else "",
          if f == "protocolPath" then "exact" else "",
          if f == "contextId" then "exact" else "")
  }

  lemma FieldsDiffer(i: nat, j: nat)
    requires i < |FIELDS| && j < |FIELDS| && i != j
    ensures !Names(FIELDS[i], FIELDS[j])
  {
    assert Lower("interface"[0]) != Lower("contextId"[0]);
  }

  lemma TellingPasses(keys: seq<string>, k: nat)
    requires k < |FIELDS| && FIELDS[k] in keys && "interface" in keys && "method" in keys
    ensures IsScopeSubset(Zip(keys, Telling(keys, FIELDS[k])), Encode(Demanding(FIELDS[k])))
  {
    hide Zip, Telling, Lookup, IsScopeSubset;
    var f := FIELDS[k];
    TellingLooks(keys, f, f);
    TellingLooks(keys, f, "interface");
    TellingLooks(keys, f, "method");
    assert Want("interface") == "Records";
    assert Want("method") == "Write";
    DemandsSuffice(Zip(keys, Telling(keys, f)), Demanding(f));
  }

  lemma TellingScope(keys: seq<string>, k: nat) returns (s: Scope)
    requires k < |FIELDS| && FIELDS[k] in keys && "interface" in keys && "method" in keys
    requires !LastIsExact(keys, FIELDS[k])
    ensures DecodeScope(Zip(keys, Telling(keys, FIELDS[k]))) == Some(s)
    ensures s.iface == "Records" && s.method_ == "Write"
    ensures k == 2 ==> s.protocol == "other"
    ensures k == 3 ==> s.protocolPath == "other"
    ensures k == 4 ==> s.contextId == "other"
  {
    hide Zip, Telling, Decode, LastIsExact;
    var f := FIELDS[k];
    var texts := Telling(keys, f);
    TellingSize(keys, f);
    ZipDecodesAll(keys, texts, "interface");
    ZipDecodesAll(keys, texts, "method");
    ZipDecodesAll(keys, texts, "protocol");
    ZipDecodesAll(keys, texts, "protocolPath");
    ZipDecodesAll(keys, texts, "contextId");
    s := DecodeScope(Zip(keys, texts)).value;
    TellingTells(keys, f);
    assert Want("interface") == "Records";
    assert Want("method") == "Write";
    if k != 0 {
      FieldsDiffer(k, 0);
      TellingDecodes(keys, f, "interface");
    }
    if k != 1 {
      FieldsDiffer(k, 1);
      TellingDecodes(keys, f, "method");
    }
    if k > 1 {
      FieldsDiffer(k, 0);
      FieldsDiffer(k, 1);
    }
  }

  lemma TellingSize(keys: seq<string>, f: string)
    ensures |Telling(keys, f)| == |keys| && Keys(Zip(keys, Telling(keys, f))) == keys
  {
  }

  /** An unsafe spelling: some values under it pass as one thing and are selected for another. */
  lemma UnsafeSpelling(keys: seq<string>, k: nat) returns (g: Grant, r: Scope, m: Match)
    requires k < |FIELDS| && FIELDS[k] in keys && "interface" in keys && "method" in keys
    requires !LastIsExact(keys, FIELDS[k])
    ensures g.scope.Some? && Keys(g.scope.value) == keys && !Sound(g, "did:me", [r], [], m)
  {
    hide Zip, Telling, Decode, LastIsExact, IsScopeSubset, Encode, DecodeScope, Keys;
    var f := FIELDS[k];
    var o := Zip(keys, Telling(keys, f));
    TellingSize(keys, f);
    TellingPasses(keys, k);
    var s := TellingScope(keys, k);
    g := Grant(true, "id", "did:me", Some("did:you"), Some(1), false, Some(o));
    r := Demanding(f);
    assert Requested(o, [r]) by { assert IsScopeSubset(o, Encode([r][0])); }
    m := Match(Operation("RecordsWrite", s.protocol, s.protocolPath, s.contextId), "", "", 0, false);
    assert Matches(g, m);
    assert !Allows(r, m.op) by {
      assert "exact"[0] != "Write"[0] && "exact"[0] != "other"[0];
    }
    assert !Sound(g, "did:me", [r], [], m);
  }

  /** For every grant whose scope has these keys to be sound, whatever its values and whatever was
      requested, it is necessary and sufficient that the spelling is safe. */
  lemma SpellingDecides(keys: seq<string>)
    ensures SafeSpelling(keys) <==>
            forall g: Grant, delegate: string, requested: seq<Scope>, revocations: seq<Revocation>, m: Match ::
              g.scope.Some? && Keys(g.scope.value) == keys ==> Sound(g, delegate, requested, revocations, m)
  {
    hide Acceptable, Matches, Warranted, ExactlySpelled, Keys;
    if SafeSpelling(keys) {
      forall g: Grant, delegate: string, requested: seq<Scope>, revocations: seq<Revocation>, m: Match
        | g.scope.Some? && Keys(g.scope.value) == keys && Acceptable(g, delegate, requested, revocations) && Matches(g, m)
        ensures Warranted(g, requested, revocations, m.op)
      {
        AcceptedHasNames(g, delegate, requested, revocations);
        GrantScopeSoundness(g, delegate, requested, revocations, m);
      }
    } else {
      var k := BadField(keys);
      var g, r, m := UnsafeSpelling(keys, k);
    }
  }

  lemma BadField(keys: seq<string>) returns (k: nat)
    requires !ExactlySpelled(keys)
    ensures k < |FIELDS| && FIELDS[k] in keys && !LastIsExact(keys, FIELDS[k])
  {
    k :| 0 <= k < |FIELDS| && FIELDS[k] in keys && !LastIsExact(keys, FIELDS[k]);
  }

  /** For one: a second, capitalised "Protocol" key. */
  lemma MisspelledFieldWidens()
    ensures !SafeSpelling(["interface", "method", "protocol", "Protocol"])
  {
    var keys := ["interface", "method", "protocol", "Protocol"];
    assert keys[0] == "interface" && keys[1] == "method" && keys[2] == FIELDS[2];
    assert keys[3][0] != FIELDS[2][0];
    assert Names(keys[3], FIELDS[2]);
    assert !LastIsExact(keys, FIELDS[2]);
  }
}
