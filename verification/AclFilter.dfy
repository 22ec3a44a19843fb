/** From ACL policy to packet filter. The policy has a direct meaning, in terms of groups, DIDs,
    wildcards and ports; the compiled filter has another, in terms of address patterns and port
    ranges. The compiler preserves meaning, packet by packet. */
module AclFilter {
  import opened Options
  import opened Decimal

  const LAST_PORT := 65535

  /** A packet, seen by the filter: the address patterns that cover its source and destination
      (how patterns cover addresses is the packet filter's business), port and IP protocol. */
  datatype Packet = Packet(srcPatterns: iset<string>, dstPatterns: iset<string>, dstPort: nat, ipProto: int)

  /** The wildcard covers every address, and ports are 16 bits wide. */
  ghost predicate Real(p: Packet) {
    "*" in p.srcPatterns && "*" in p.dstPatterns && p.dstPort <= LAST_PORT
  }

  // ---- compiled filters ----------------------------------------------------------------

  datatype PortRange = PortRange(first: nat, last: nat)
  datatype NetPortRange = NetPortRange(ip: string, ports: PortRange)
  datatype FilterRule = FilterRule(srcIPs: seq<string>, dstPorts: seq<NetPortRange>, ipProto: seq<int>)

  predicate InRange(r: PortRange, port: nat) {
    r.first <= port <= r.last
  }

  ghost predicate Covered(ips: seq<string>, patterns: iset<string>) {
    exists i :: 0 <= i < |ips| && ips[i] in patterns
  }

  predicate ProtoAdmits(protos: seq<int>, proto: int) {
    protos == [] || proto in protos
  }

  ghost predicate DstAdmits(dst: seq<NetPortRange>, p: Packet) {
    exists i :: 0 <= i < |dst| && dst[i].ip in p.dstPatterns && InRange(dst[i].ports, p.dstPort)
  }

  ghost predicate RuleAdmits(r: FilterRule, p: Packet) {
    Covered(r.srcIPs, p.srcPatterns) && DstAdmits(r.dstPorts, p) && ProtoAdmits(r.ipProto, p.ipProto)
  }

  ghost predicate FilterAdmits(rules: seq<FilterRule>, p: Packet) {
    exists i :: 0 <= i < |rules| && RuleAdmits(rules[i], p)
  }

  const ALLOW_ALL := [FilterRule(["*"], [NetPortRange("*", PortRange(0, LAST_PORT))], [])]

  lemma AllowAllAdmits(p: Packet)
    requires Real(p)
    ensures FilterAdmits(ALLOW_ALL, p)
  {
    assert ALLOW_ALL[0].srcIPs[0] in p.srcPatterns;
    assert ALLOW_ALL[0].dstPorts[0].ip in p.dstPatterns && InRange(ALLOW_ALL[0].dstPorts[0].ports, p.dstPort);
    assert RuleAdmits(ALLOW_ALL[0], p);
  }

  // ---- the policy's own meaning --------------------------------------------------------

  datatype Rule = Rule(action: string, src: seq<string>, dst: seq<string>, proto: string, dstPorts: seq<string>)
  datatype Policy = Policy(defaultAction: string, groups: map<string, seq<string>>, rules: seq<Rule>)

  /** Mesh addresses by DID, for the nodes that have one, recorded or allocated. */
  type Directory = map<string, string>

  /** `pattern` is one of the address patterns that matcher `m` stands for: the wildcard, the
      addresses of a group's members, the address of a DID, or an address pattern as it is. */
  predicate Denotes(policy: Policy, dir: Directory, m: string, pattern: string) {
    if m == "*" then pattern == "*"
    else if "group:" < m then
      m[6..] in policy.groups && exists did :: did in policy.groups[m[6..]] && did in dir && dir[did] == pattern
    else if "did:" < m then m in dir && dir[m] == pattern
    else pattern == m
  }

  /** Some matcher in the list covers the address: matchers that resolve to nothing match nothing. */
  ghost predicate ListCovers(policy: Policy, dir: Directory, ms: seq<string>, patterns: iset<string>) {
    exists m, pattern :: m in ms && Denotes(policy, dir, m, pattern) && pattern in patterns
  }

  ghost predicate Resolves(policy: Policy, dir: Directory, ms: seq<string>) {
    exists m, pattern :: m in ms && Denotes(policy, dir, m, pattern)
  }

  predicate IsPort(s: string, n: nat) {
    1 <= |s| <= 5 && IsDecimal(s) && Value(s) == n && n <= LAST_PORT
  }

  /** A port, or two ports in order around a dash. */
  ghost predicate IsPortRange(s: string, r: PortRange) {
    || (IsPort(s, r.first) && r.last == r.first)
    || (r.first <= r.last
        && exists a, b :: s == a + "-" + b && IsPort(a, r.first) && IsPort(b, r.last))
  }

  ghost predicate Parses(s: string) {
    exists r :: IsPortRange(s, r)
  }

  /** Some listed port or range holds the port; with none that parses, every port is meant. */
  ghost predicate PortsAdmit(ports: seq<string>, port: nat) {
    || (exists s, r :: s in ports && IsPortRange(s, r) && InRange(r, port))
    || (forall s :: s in ports ==> !Parses(s))
  }

  predicate ProtoMeans(proto: string, n: int) {
    match proto
    case "tcp" => n == 6
    case "udp" => n == 17
    case "icmp" => n == 1 || n == 58
    case _ => true
  }

  ghost predicate Accepts(policy: Policy, dir: Directory, r: Rule, p: Packet) {
    && r.action == "accept"
    && ListCovers(policy, dir, r.src, p.srcPatterns)
    && ListCovers(policy, dir, r.dst, p.dstPatterns)
    && PortsAdmit(r.dstPorts, p.dstPort)
    && ProtoMeans(r.proto, p.ipProto)
  }

  /** An accept rule produces a filter rule when both of its sides resolve to something. */
  ghost predicate Compiles(policy: Policy, dir: Directory, r: Rule) {
    r.action == "accept" && Resolves(policy, dir, r.src) && Resolves(policy, dir, r.dst)
  }

  /** What the policy admits: whatever an accept rule admits; and everything, when no rule
      compiles and the default action is to accept. */
  ghost predicate PolicyAdmits(policy: Policy, dir: Directory, p: Packet) {
    || (exists r :: r in policy.rules && Accepts(policy, dir, r, p))
    || (policy.defaultAction == "accept" && forall r :: r in policy.rules ==> !Compiles(policy, dir, r))
  }

  // ---- ports ---------------------------------------------------------------------------

  method ParsePort(s: string) returns (port: Option<nat>)
    ensures port.Some? ==> IsPort(s, port.value)
    ensures port.None? ==> forall n :: !IsPort(s, n)
  {
    if |s| == 0 || |s| > 5 {
      return None;
    }
    var n: nat := 0;
    for i := 0 to |s|
      invariant forall k :: 0 <= k < i ==> IsDigit(s[k])
      invariant n == Value(s[..i])
    {
      if s[i] < '0' || s[i] > '9' {
        return None;
      }
      ValueOfAppend(s[..i], s[i]);
      assert s[..i + 1] == s[..i] + [s[i]];
      n := n * 10 + Digit(s[i]);
    }
    assert s[..|s|] == s;
    if n > LAST_PORT {
      return None;
    }
    return Some(n);
  }

  lemma FirstDash(s: string, i: nat, a: string, b: string)
    requires i < |s| && s[i] == '-' && '-' !in s[..i] && '-' !in a
    requires s == a + "-" + b
    ensures a == s[..i] && b == s[i + 1..]
  {
    assert s[|a|] == '-';
  }

  lemma PortHasNoDash(s: string, n: nat)
    requires IsPort(s, n)
    ensures '-' !in s
  {
  }

  method ParsePortRange(s: string) returns (r: Option<PortRange>)
    ensures r.Some? ==> IsPortRange(s, r.value)
    ensures r.None? ==> !Parses(s)
  {
    for i := 0 to |s|
      invariant '-' !in s[..i]
    {
      if s[i] == '-' {
        var first := ParsePort(s[..i]);
        var last := ParsePort(s[i + 1..]);
        if first.Some? && last.Some? && first.value <= last.value {
          assert s == s[..i] + "-" + s[i + 1..];
          return Some(PortRange(first.value, last.value));
        }
        DashDecides(s, i);
        return None;
      }
    }
    assert s[..|s|] == s;
    var port := ParsePort(s);
    if port.Some? {
      return Some(PortRange(port.value, port.value));
    }
    return None;
  }

  /** At the first dash there is only one way to read a range. */
  lemma DashDecides(s: string, i: nat)
    requires i < |s| && s[i] == '-' && '-' !in s[..i]
    ensures forall r :: IsPortRange(s, r) ==>
              IsPort(s[..i], r.first) && IsPort(s[i + 1..], r.last) && r.first <= r.last
  {
    forall r | IsPortRange(s, r)
      ensures IsPort(s[..i], r.first) && IsPort(s[i + 1..], r.last) && r.first <= r.last
    {
      if IsPort(s, r.first) {
        PortHasNoDash(s, r.first);
      }
      var a, b :| s == a + "-" + b && IsPort(a, r.first) && IsPort(b, r.last);
      PortHasNoDash(a, r.first);
      FirstDash(s, i, a, b);
    }
  }

  ghost predicate RangesMean(ports: seq<string>, ranges: seq<PortRange>) {
    && (forall r :: r in ranges ==> exists s :: s in ports && IsPortRange(s, r))
    && (forall s :: s in ports && Parses(s) ==> exists r :: r in ranges && IsPortRange(s, r))
  }

  method ParsePortRanges(ports: seq<string>) returns (ranges: seq<PortRange>)
    ensures RangesMean(ports, ranges)
  {
    ranges := [];
    for n := 0 to |ports|
      invariant RangesMean(ports[..n], ranges)
    {
      var r := ParsePortRange(ports[n]);
      assert ports[..n + 1] == ports[..n] + [ports[n]];
      ghost var before := ranges;
      if r.Some? {
        ranges := ranges + [r.value];
        assert r.value in ranges;
      }
      assert forall x :: x in before ==> x in ranges;
    }
    assert ports[..|ports|] == ports;
  }

  lemma {:induction false} PortRangeIsUnique(s: string, q: PortRange, r: PortRange)
    requires IsPortRange(s, q) && IsPortRange(s, r)
    ensures q == r
  {
    forall a, b | s == a + "-" + b
      ensures '-' in s
    {
      assert s[|a|] == '-';
    }
    if '-' in s {
      DashDecides(s, DashAt(s));
    }
  }

  function DashAt(s: string): (i: nat)
    requires '-' in s
    ensures i < |s| && s[i] == '-' && '-' !in s[..i]
  {
    if s[0] == '-' then 0
    else
      var i := DashAt(s[1..]) + 1;
      assert s[..i] == [s[0]] + s[1..][..i - 1];
      i
  }

  /** Parsed ranges, or all ports when none parses, admit exactly the ports that are meant. */
  lemma RangesAdmit(ports: seq<string>, ranges: seq<PortRange>, port: nat)
    requires RangesMean(ports, ranges) && port <= LAST_PORT
    ensures var effective := if ranges == [] then [PortRange(0, LAST_PORT)] else ranges;
            PortsAdmit(ports, port) <==> exists r :: r in effective && InRange(r, port)
  {
    if ranges == [] {
      assert InRange([PortRange(0, LAST_PORT)][0], port);
    } else {
      assert ranges[0] in ranges;
      forall s, r | s in ports && IsPortRange(s, r) && InRange(r, port)
        ensures r in ranges
      {
        assert Parses(s);
        var q :| q in ranges && IsPortRange(s, q);
        PortRangeIsUnique(s, q, r);
      }
    }
  }

  // ---- matchers ------------------------------------------------------------------------

  predicate IsGroup(m: string) {
    |m| > 6 && m[..6] == "group:"
  }

  predicate IsDid(m: string) {
    |m| > 4 && m[..4] == "did:"
  }

  function GroupMembers(policy: Policy, m: string): seq<string>
    requires IsGroup(m)
  {
    if m[6..] in policy.groups then policy.groups[m[6..]] else []
  }

  /** A resolved list: the patterns that the matchers denote, or the wildcard alone when it is
      among them. */
  ghost predicate ResolvesTo(policy: Policy, dir: Directory, ms: seq<string>, result: seq<string>) {
    if "*" in ms then result == ["*"]
    else forall pattern :: pattern in result <==> exists m :: m in ms && Denotes(policy, dir, m, pattern)
  }

  method ResolveMatchers(policy: Policy, dir: Directory, ms: seq<string>) returns (result: seq<string>)
    ensures ResolvesTo(policy, dir, ms, result)
  {
    result := [];
    for n := 0 to |ms|
      invariant "*" !in ms[..n]
      invariant forall pattern :: pattern in result <==> exists m :: m in ms[..n] && Denotes(policy, dir, m, pattern)
    {
      var m := ms[n];
      assert ms[..n + 1] == ms[..n] + [m];
      if m == "*" {
        return ["*"];
      }
      var more := ResolveOne(policy, dir, m);
      result := result + more;
    }
    assert ms[..|ms|] == ms;
  }

  method ResolveOne(policy: Policy, dir: Directory, m: string) returns (result: seq<string>)
    requires m != "*"
    ensures forall pattern :: pattern in result <==> Denotes(policy, dir, m, pattern)
  {
    if IsGroup(m) {
      var members := GroupMembers(policy, m);
      result := [];
      for n := 0 to |members|
        invariant forall pattern :: pattern in result <==>
                    exists did :: did in members[..n] && did in dir && dir[did] == pattern
      {
        assert members[..n + 1] == members[..n] + [members[n]];
        if members[n] in dir {
          result := result + [dir[members[n]]];
        }
      }
      assert members[..|members|] == members;
    } else if IsDid(m) {
      result := if m in dir then [dir[m]] else [];
    } else {
      result := [m];
    }
  }

  /** The resolved list covers an address exactly when some matcher does: the wildcard absorbs. */
  lemma ResolvedCovers(policy: Policy, dir: Directory, ms: seq<string>, result: seq<string>, patterns: iset<string>)
    requires ResolvesTo(policy, dir, ms, result) && "*" in patterns
    ensures Covered(result, patterns) <==> ListCovers(policy, dir, ms, patterns)
    ensures result != [] <==> Resolves(policy, dir, ms)
  {
    if "*" in ms {
      assert Denotes(policy, dir, "*", "*");
      assert result[0] in patterns;
    } else {
      if Covered(result, patterns) {
        var i :| 0 <= i < |result| && result[i] in patterns;
        assert result[i] in result;
      }
      if ListCovers(policy, dir, ms, patterns) {
        var m, pattern :| m in ms && Denotes(policy, dir, m, pattern) && pattern in patterns;
        assert pattern in result;
      }
      if result != [] {
        assert result[0] in result;
      }
      if Resolves(policy, dir, ms) {
        var m, pattern :| m in ms && Denotes(policy, dir, m, pattern);
        assert pattern in result;
      }
    }
  }

  // ---- the compiler --------------------------------------------------------------------

  function ProtoNumbers(proto: string): seq<int> {
    match proto
    case "tcp" => [6]
    case "udp" => [17]
    case "icmp" => [1, 58]
    case _ => []
  }

  /** Every destination with every port range. */
  ghost predicate IsProduct(ips: seq<string>, ranges: seq<PortRange>, dst: seq<NetPortRange>) {
    forall d :: d in dst <==> d.ip in ips && d.ports in ranges
  }

  method Product(ips: seq<string>, ranges: seq<PortRange>) returns (dst: seq<NetPortRange>)
    ensures IsProduct(ips, ranges, dst)
  {
    dst := [];
    for i := 0 to |ips|
      invariant IsProduct(ips[..i], ranges, dst)
    {
      ghost var before := dst;
      for j := 0 to |ranges|
        invariant forall d :: d in dst <==> d in before || (d.ip == ips[i] && d.ports in ranges[..j])
      {
        assert ranges[..j + 1] == ranges[..j] + [ranges[j]];
        dst := dst + [NetPortRange(ips[i], ranges[j])];
      }
      assert ranges[..|ranges|] == ranges;
      assert ips[..i + 1] == ips[..i] + [ips[i]];
    }
    assert ips[..|ips|] == ips;
  }

  lemma ProductAdmits(ips: seq<string>, ranges: seq<PortRange>, dst: seq<NetPortRange>, p: Packet)
    requires IsProduct(ips, ranges, dst)
    ensures DstAdmits(dst, p) <==> Covered(ips, p.dstPatterns) && exists r :: r in ranges && InRange(r, p.dstPort)
  {
    if DstAdmits(dst, p) {
      var i :| 0 <= i < |dst| && dst[i].ip in p.dstPatterns && InRange(dst[i].ports, p.dstPort);
      assert dst[i] in dst;
    }
    if Covered(ips, p.dstPatterns) && exists r :: r in ranges && InRange(r, p.dstPort) {
      var i :| 0 <= i < |ips| && ips[i] in p.dstPatterns;
      var r :| r in ranges && InRange(r, p.dstPort);
      assert NetPortRange(ips[i], r) in dst;
    }
  }

  /** One accept rule: a filter rule with the same meaning, or none when a side resolves to nothing. */
  method CompileRule(policy: Policy, dir: Directory, r: Rule) returns (compiled: Option<FilterRule>)
    requires r.action == "accept"
    ensures compiled.Some? <==> Compiles(policy, dir, r)
    ensures compiled.Some? ==> forall p :: Real(p) ==> (RuleAdmits(compiled.value, p) <==> Accepts(policy, dir, r, p))
    ensures compiled.None? ==> forall p :: Real(p) ==> !Accepts(policy, dir, r, p)
  {
    var src := ResolveMatchers(policy, dir, r.src);
    forall p | Real(p)
      ensures Covered(src, p.srcPatterns) <==> ListCovers(policy, dir, r.src, p.srcPatterns)
      ensures src != [] <==> Resolves(policy, dir, r.src)
    {
      ResolvedCovers(policy, dir, r.src, src, p.srcPatterns);
    }
    ResolvedCovers(policy, dir, r.src, src, iset{"*"});
    if src == [] {
      return None;
    }
    var dst := ResolveMatchers(policy, dir, r.dst);
    ResolvedCovers(policy, dir, r.dst, dst, iset{"*"});
    if dst == [] {
      forall p | Real(p)
        ensures !Accepts(policy, dir, r, p)
      {
        ResolvedCovers(policy, dir, r.dst, dst, p.dstPatterns);
      }
      return None;
    }
    var ranges := ParsePortRanges(r.dstPorts);
    var effective := ranges;
    if effective == [] {
      effective := [PortRange(0, LAST_PORT)];
    }
    var product := Product(dst, effective);
    compiled := Some(FilterRule(src, product, ProtoNumbers(r.proto)));
    forall p | Real(p)
      ensures RuleAdmits(compiled.value, p) <==> Accepts(policy, dir, r, p)
    {
      ResolvedCovers(policy, dir, r.dst, dst, p.dstPatterns);
      RangesAdmit(r.dstPorts, ranges, p.dstPort);
      ProductAdmits(dst, effective, product, p);
    }
  }

  ghost predicate Means(policy: Policy, dir: Directory, n: nat, rules: seq<FilterRule>)
    requires n <= |policy.rules|
  {
    && (rules != [] <==> exists k :: 0 <= k < n && Compiles(policy, dir, policy.rules[k]))
    && forall p :: Real(p) ==>
         (FilterAdmits(rules, p) <==> exists k :: 0 <= k < n && Accepts(policy, dir, policy.rules[k], p))
  }

  /** The filter admits a packet exactly when the policy does. Rules with any other action
      contribute nothing; with no compiled rule the filter allows all or nothing, by default action. */
  method BuildFilterRules(acl: Option<Policy>, dir: Directory) returns (filter: seq<FilterRule>)
    ensures acl.None? ==> filter == ALLOW_ALL
    ensures acl.Some? ==> forall p :: Real(p) ==> (FilterAdmits(filter, p) <==> PolicyAdmits(acl.value, dir, p))
    ensures acl.Some? && (forall r :: r in acl.value.rules ==> !Compiles(acl.value, dir, r)) ==>
              filter == if acl.value.defaultAction == "accept" then ALLOW_ALL else []
  {
    if acl.None? {
      return ALLOW_ALL;
    }
    var policy := acl.value;
    var rules: seq<FilterRule> := [];
    for n := 0 to |policy.rules|
      invariant Means(policy, dir, n, rules)
    {
      var r := policy.rules[n];
      if r.action != "accept" {
        MeansSkip(policy, dir, n, rules);
        continue;
      }
      var compiled := CompileRule(policy, dir, r);
      if compiled.None? {
        MeansSkip(policy, dir, n, rules);
        continue;
      }
      MeansAppend(policy, dir, n, rules, compiled.value);
      rules := rules + [compiled.value];
    }
    MeansAll(policy, dir, rules);
    if rules == [] && policy.defaultAction == "accept" {
      return ALLOW_ALL;
    }
    return rules;
  }

  lemma MeansSkip(policy: Policy, dir: Directory, n: nat, rules: seq<FilterRule>)
    requires n < |policy.rules| && Means(policy, dir, n, rules)
    requires !Compiles(policy, dir, policy.rules[n])
    requires forall p :: Real(p) ==> !Accepts(policy, dir, policy.rules[n], p)
    ensures Means(policy, dir, n + 1, rules)
  {
    hide Compiles, Accepts, FilterAdmits, Real;
  }

  lemma MeansAppend(policy: Policy, dir: Directory, n: nat, rules: seq<FilterRule>, compiled: FilterRule)
    requires n < |policy.rules| && Means(policy, dir, n, rules)
    requires Compiles(policy, dir, policy.rules[n])
    requires forall p :: Real(p) ==> (RuleAdmits(compiled, p) <==> Accepts(policy, dir, policy.rules[n], p))
    ensures Means(policy, dir, n + 1, rules + [compiled])
  {
    hide Compiles, Accepts, RuleAdmits, Real;
    forall p | Real(p)
      ensures FilterAdmits(rules + [compiled], p) <==>
                exists k :: 0 <= k < n + 1 && Accepts(policy, dir, policy.rules[k], p)
    {
      FilterAppend(rules, compiled, p);
    }
  }

  lemma FilterAppend(rules: seq<FilterRule>, r: FilterRule, p: Packet)
    ensures FilterAdmits(rules + [r], p) <==> FilterAdmits(rules, p) || RuleAdmits(r, p)
  {
    hide RuleAdmits;
    if FilterAdmits(rules, p) {
      var i :| 0 <= i < |rules| && RuleAdmits(rules[i], p);
      assert (rules + [r])[i] == rules[i];
    }
    if RuleAdmits(r, p) {
      assert (rules + [r])[|rules|] == r;
    }
  }

  lemma MeansAll(policy: Policy, dir: Directory, rules: seq<FilterRule>)
    requires Means(policy, dir, |policy.rules|, rules)
    ensures rules == [] <==> forall r :: r in policy.rules ==> !Compiles(policy, dir, r)
    ensures forall p :: Real(p) ==>
              (FilterAdmits(if rules == [] && policy.defaultAction == "accept" then ALLOW_ALL else rules, p)
               <==> PolicyAdmits(policy, dir, p))
  {
    hide Compiles, Accepts, Real, FilterAdmits;
    forall p | Real(p)
      ensures FilterAdmits(if rules == [] && policy.defaultAction == "accept" then ALLOW_ALL else rules, p)
              <==> PolicyAdmits(policy, dir, p)
    {
      AllowAllAdmits(p);
    }
  }
}
