/** Installed routes and the diagnostics that judge them: internal/singbox/routes.go and
    internal/networkdiag/diagnostics.go. Prefix texts are the prefixes themselves; `before` is the order of
    their texts, any strict total order. */
module Routes {
  import opened Wrappers
  import opened Addresses
  import opened Ordering

  /** The address part of a network spec, as parsed: None is a text that does not parse. */
  datatype NetworkSpec = NetworkSpec(
    podCidrs: seq<Option<Network>>,
    serviceCidrs: seq<Option<Network>>,
    serviceIps: seq<Option<Address>>)

  datatype RouteError = InvalidPodCidr(index: nat) | InvalidServiceCidr(index: nat) | InvalidServiceIp(index: nat)
                      | NoRoutes

  type TextOrder = (Prefix, Prefix) -> bool

  /** netip.PrefixFrom(ip, ip.BitLen()). */
  function HostPrefix(ip: Address): (p: Network)
    ensures forall a: Address :: p.Contains(a) <==> a == ip
  {
    assert forall a: Address :: ip.bits <= a.bits && a.family == ip.family ==> a.bits[..|ip.bits|] == a.bits;
    Prefix(ip.family, ip.bits)
  }

  function HostPrefixes(ips: seq<Option<Address>>): (ps: seq<Option<Network>>)
    ensures |ps| == |ips|
    ensures forall i :: 0 <= i < |ips| ==> ps[i] == if ips[i].Some? then Some(HostPrefix(ips[i].value)) else None
  {
    if ips == [] then []
    else [if ips[0].Some? then Some(HostPrefix(ips[0].value)) else None] + HostPrefixes(ips[1..])
  }

  /** Where routes come from: Pod CIDRs, then Service CIDRs or, without any, one host route per Service IP. */
  function Sources(spec: NetworkSpec): (ps: seq<Option<Network>>) {
    spec.podCidrs + if spec.serviceCidrs == [] then HostPrefixes(spec.serviceIps) else spec.serviceCidrs
  }

  ghost predicate AllParsed(ps: seq<Option<Network>>) {
    forall i :: 0 <= i < |ps| ==> ps[i].Some?
  }

  ghost function ParsedSet(ps: seq<Option<Network>>): (s: set<Prefix>) {
    set i | 0 <= i < |ps| && ps[i].Some? :: ps[i].value
  }

  /** Adds the parsed prefixes to a route set, stopping at the first that does not parse. */
  method Collect(ps: seq<Option<Network>>, routeSet: set<Prefix>) returns (bad: Option<nat>, routes: set<Prefix>)
    ensures bad.None? <==> AllParsed(ps)
    ensures bad.Some? ==> bad.value < |ps| && ps[bad.value].None? && AllParsed(ps[..bad.value])
    ensures bad.None? ==> routes == routeSet + ParsedSet(ps)
  {
    routes := routeSet;
    var i := 0;
    while i < |ps|
      invariant 0 <= i <= |ps|
      invariant AllParsed(ps[..i])
      invariant routes == routeSet + ParsedSet(ps[..i])
    {
      if ps[i].None? {
        return Some(i), routes;
      }
      assert ps[..i + 1] == ps[..i] + [ps[i]];
      ParsedSetNext(ps[..i], ps[i].value);
      routes := routes + {ps[i].value};
      i := i + 1;
    }
    assert ps[..i] == ps;
    bad := None;
  }

  lemma ParsedSetNext(ps: seq<Option<Network>>, p: Network)
    ensures ParsedSet(ps + [Some(p)]) == ParsedSet(ps) + {p}
  {
    var all := ps + [Some(p)];
    assert all[|ps|] == Some(p);
    assert forall i :: 0 <= i < |ps| ==> all[i] == ps[i];
  }

  lemma ParsedSetJoin(a: seq<Option<Network>>, b: seq<Option<Network>>)
    ensures ParsedSet(a + b) == ParsedSet(a) + ParsedSet(b)
  {
    assert forall i :: 0 <= i < |b| ==> (a + b)[|a| + i] == b[i];
    assert forall i :: 0 <= i < |a| ==> (a + b)[i] == a[i];
  }

  lemma SortedKeys(keys: seq<Prefix>, before: TextOrder)
    requires StrictTotal(before)
    requires forall i, j :: 0 <= i < j < |keys| ==> keys[i] != keys[j]
    ensures StrictlySorted(Sort(keys, before), before)
    ensures forall x :: x in Sort(keys, before) <==> x in keys
  {
    SortStrict(keys, before);
    SortElements(keys, before);
  }

  /** The list for a set of routes: sorted by text, each once. */
  ghost predicate Lists(routes: seq<Prefix>, s: set<Prefix>, before: TextOrder) {
    StrictlySorted(routes, before) && forall x :: x in routes <==> x in s
  }

  /** clusterRoutes. */
  method ClusterRoutes(spec: NetworkSpec, before: TextOrder) returns (r: Result<seq<Prefix>, RouteError>)
    requires StrictTotal(before)
    ensures r.Ok? <==> AllParsed(Sources(spec)) && Sources(spec) != []
    ensures r.Ok? ==> Lists(r.value, ParsedSet(Sources(spec)), before)
    ensures r == Err(NoRoutes) <==> Sources(spec) == []
    ensures r.Err? && r.error.InvalidPodCidr? ==>
              r.error.index < |spec.podCidrs| && spec.podCidrs[r.error.index].None?
  {
    ParsedSetJoin(spec.podCidrs, Sources(spec)[|spec.podCidrs|..]);
    var bad, pods := Collect(spec.podCidrs, {});
    if bad.Some? {
      assert Sources(spec)[bad.value].None?;
      return Err(InvalidPodCidr(bad.value));
    }
    var bad2, services := Collect(spec.serviceCidrs, pods);
    if bad2.Some? {
      assert Sources(spec)[|spec.podCidrs| + bad2.value].None?;
      return Err(InvalidServiceCidr(bad2.value));
    }
    var routeSet := services;
    if |spec.serviceCidrs| == 0 {
      var hosts := HostPrefixes(spec.serviceIps);
      var bad3, all := Collect(hosts, services);
      if bad3.Some? {
        assert Sources(spec)[|spec.podCidrs| + bad3.value].None?;
        return Err(InvalidServiceIp(bad3.value));
      }
      routeSet := all;
    }
    AllFromParts(spec);
    assert routeSet == ParsedSet(Sources(spec));
    if Sources(spec) != [] {
      assert Sources(spec)[0].value in routeSet;
    }
    if routeSet == {} {
      return Err(NoRoutes);
    }
    var keys := Keys(routeSet);
    SortedKeys(keys, before);
    return Ok(Sort(keys, before));
  }

  lemma AllFromParts(spec: NetworkSpec)
    requires AllParsed(spec.podCidrs)
    requires AllParsed(if spec.serviceCidrs == [] then HostPrefixes(spec.serviceIps) else spec.serviceCidrs)
    ensures AllParsed(Sources(spec))
  {
  }

  /** discoveryRoutes: the diagnostics' own list of the same routes. */
  method DiscoveryRoutes(spec: NetworkSpec, before: TextOrder) returns (result: seq<Prefix>)
    requires StrictTotal(before)
    ensures Lists(result, ParsedSet(Sources(spec)), before)
  {
    var values := Sources(spec);
    var seen: set<Prefix> := {};
    var kept: seq<Prefix> := [];
    var i := 0;
    while i < |values|
      invariant 0 <= i <= |values|
      invariant seen == ParsedSet(values[..i])
      invariant forall x :: x in kept <==> x in seen
      invariant forall j, k :: 0 <= j < k < |kept| ==> kept[j] != kept[k]
    {
      assert values[..i + 1] == values[..i] + [values[i]];
      if values[i].Some? {
        var prefix := values[i].value;
        ParsedSetNext(values[..i], prefix);
        if prefix !in seen {
          seen := seen + {prefix};
          kept := kept + [prefix];
        }
      } else {
        ParsedSetJoin(values[..i], [values[i]]);
      }
      i := i + 1;
    }
    assert values[..i] == values;
    SortedKeys(kept, before);
    result := Sort(kept, before);
  }

  /** Whenever routes are installed, the diagnostics look at the same list. */
  lemma RoutesAgree(installed: seq<Prefix>, diagnosed: seq<Prefix>, s: set<Prefix>, before: TextOrder)
    requires StrictTotal(before) && Lists(installed, s, before) && Lists(diagnosed, s, before)
    ensures installed == diagnosed
  {
    SortedUnique(installed, diagnosed, before);
  }

  /** Both programs on one spec. */
  method InstallAndDiagnose(spec: NetworkSpec, before: TextOrder)
    returns (installed: Result<seq<Prefix>, RouteError>, diagnosed: seq<Prefix>)
    requires StrictTotal(before)
    ensures installed.Ok? ==> installed.value == diagnosed
    ensures installed == Err(NoRoutes) ==> diagnosed == []
  {
    installed := ClusterRoutes(spec, before);
    diagnosed := DiscoveryRoutes(spec, before);
    if installed.Ok? {
      RoutesAgree(installed.value, diagnosed, ParsedSet(Sources(spec)), before);
    } else if installed == Err(NoRoutes) {
      HasFirst(diagnosed);
    }
  }

  // ---- Conflicts with routes already on the host ----

  datatype HostRoute = HostRoute(prefix: Network, iface: string)

  datatype Issue = Issue(target: Prefix, conflict: Prefix, iface: string)

  type IssueOrder = (Issue, Issue) -> bool

  ghost predicate Conflicts(issue: Issue, targets: seq<Network>, existing: seq<HostRoute>) {
    && issue.target in targets
    && (exists route :: route in existing && route.prefix == issue.conflict && route.iface == issue.iface)
    && Covers(issue.target, issue.conflict)
  }

  /** One target against the host's routes, adding what is new to the issues. */
  method AnalyzeTarget(target: Network, existing: seq<HostRoute>, found: seq<Issue>) returns (issues: seq<Issue>)
    requires forall i, j :: 0 <= i < j < |found| ==> found[i] != found[j]
    ensures forall i, j :: 0 <= i < j < |issues| ==> issues[i] != issues[j]
    ensures forall x :: x in issues <==> x in found || (x.target == target && Conflicts(x, [target], existing))
  {
    issues := found;
    var i := 0;
    while i < |existing|
      invariant 0 <= i <= |existing|
      invariant forall i, j :: 0 <= i < j < |issues| ==> issues[i] != issues[j]
      invariant forall x :: x in issues <==>
                              x in found || (x.target == target && Conflicts(x, [target], existing[..i]))
    {
      var route := existing[i];
      var issue := Issue(target, route.prefix, route.iface);
      ConflictNext(target, existing, i);
      CoverTest(target, route.prefix);
      if target.family == route.prefix.family
         && !(|route.prefix.lead| < |target.lead| || !target.Contains(route.prefix.Base()))
         && issue !in issues {
        issues := issues + [issue];
      }
      i := i + 1;
    }
    assert existing[..i] == existing;
  }

  lemma ConflictNext(target: Network, existing: seq<HostRoute>, i: nat)
    requires i < |existing|
    ensures forall x :: Conflicts(x, [target], existing[..i + 1]) <==>
                          Conflicts(x, [target], existing[..i])
                          || (x == Issue(target, existing[i].prefix, existing[i].iface)
                              && Covers(target, existing[i].prefix))
  {
    forall x
      ensures Conflicts(x, [target], existing[..i + 1]) <==>
                Conflicts(x, [target], existing[..i])
                || (x == Issue(target, existing[i].prefix, existing[i].iface) && Covers(target, existing[i].prefix))
    {
      ConflictOne(x, target, existing, i);
    }
  }

  lemma ConflictOne(x: Issue, target: Network, existing: seq<HostRoute>, i: nat)
    requires i < |existing|
    ensures Conflicts(x, [target], existing[..i + 1]) <==>
              Conflicts(x, [target], existing[..i])
              || (x == Issue(target, existing[i].prefix, existing[i].iface) && Covers(target, existing[i].prefix))
  {
    var more, less := existing[..i + 1], existing[..i];
    assert more == less + [existing[i]];
    assert existing[i] in more && forall route :: route in less ==> route in more;
    assert forall route :: route in more ==> route in less || route == existing[i];
    assert x.target in [target] <==> x.target == target;
  }

  /** The length and containment test is covering. */
  lemma CoverTest(target: Network, p: Network)
    ensures (target.family == p.family && !(|p.lead| < |target.lead| || !target.Contains(p.Base())))
            <==> Covers(target, p)
  {
    if target.family == p.family {
      StartOfStart(target.lead, p.Base().bits, |p.lead|);
      assert p.Base().bits[..|p.lead|] == p.lead;
    }
  }

  type NameOrder = (string, string) -> bool

  /** The issues' order: target text, then conflict text, then interface. */
  predicate IssueBefore(x: Issue, y: Issue, before: TextOrder, ifaceBefore: NameOrder) {
    if x.target != y.target then before(x.target, y.target)
    else if x.conflict != y.conflict then before(x.conflict, y.conflict)
    else ifaceBefore(x.iface, y.iface)
  }

  function IssueOrdering(before: TextOrder, ifaceBefore: NameOrder): IssueOrder {
    (x: Issue, y: Issue) => IssueBefore(x, y, before, ifaceBefore)
  }

  lemma IssuesOrdered(before: TextOrder, ifaceBefore: NameOrder)
    requires StrictTotal(before) && StrictTotal(ifaceBefore)
    ensures StrictTotal(IssueOrdering(before, ifaceBefore))
  {
  }

  /** analyzeRouteConflicts: each pair of a target and a host route inside it is reported once, in order. */
  method AnalyzeRouteConflicts(
    targets: seq<Network>, existing: seq<HostRoute>, before: TextOrder, ifaceBefore: NameOrder)
    returns (issues: seq<Issue>)
    requires StrictTotal(before) && StrictTotal(ifaceBefore)
    ensures StrictlySorted(issues, IssueOrdering(before, ifaceBefore))
    ensures forall x :: x in issues <==> Conflicts(x, targets, existing)
  {
    var found: seq<Issue> := [];
    var i := 0;
    while i < |targets|
      invariant 0 <= i <= |targets|
      invariant forall j, k :: 0 <= j < k < |found| ==> found[j] != found[k]
      invariant forall x :: x in found <==> Conflicts(x, targets[..i], existing)
    {
      TargetNext(targets, existing, i);
      found := AnalyzeTarget(targets[i], existing, found);
      i := i + 1;
    }
    assert targets[..i] == targets;
    IssuesOrdered(before, ifaceBefore);
    SortStrict(found, IssueOrdering(before, ifaceBefore));
    SortElements(found, IssueOrdering(before, ifaceBefore));
    issues := Sort(found, IssueOrdering(before, ifaceBefore));
  }

  lemma TargetNext(targets: seq<Network>, existing: seq<HostRoute>, i: nat)
    requires i < |targets|
    ensures forall x :: Conflicts(x, targets[..i + 1], existing) <==>
                          Conflicts(x, targets[..i], existing)
                          || (x.target == targets[i] && Conflicts(x, [targets[i]], existing))
  {
    assert targets[..i + 1] == targets[..i] + [targets[i]];
  }

  /** A reported pair is one whose host route leads nowhere the cluster route does not, and every such pair is
      reported. */
  lemma ConflictIsContainment(issues: seq<Issue>, targets: seq<Network>, existing: seq<HostRoute>,
                              target: Network, route: HostRoute)
    requires forall x :: x in issues <==> Conflicts(x, targets, existing)
    requires target in targets && route in existing
    ensures (Issue(target, route.prefix, route.iface) in issues)
            <==> (forall a: Address :: route.prefix.Contains(a) ==> target.Contains(a))
  {
    CoversIsContainment(target, route.prefix);
  }

  /** A prefix of a list around an address. */
  predicate Reaches(ps: seq<Option<Network>>, i: int, a: Address) {
    0 <= i < |ps| && ps[i].Some? && ps[i].value.Contains(a)
  }

  /** The addresses routed are those of the Pod CIDRs and of the Service CIDRs or, without any, the Service IPs
      themselves; and no others. */
  lemma RoutedAddresses(spec: NetworkSpec, a: Address)
    ensures (exists p :: p in ParsedSet(Sources(spec)) && p.Contains(a))
       <==> (exists i :: Reaches(spec.podCidrs, i, a))
            || (if spec.serviceCidrs == [] then Some(a) in spec.serviceIps
                else exists i :: Reaches(spec.serviceCidrs, i, a))
  {
    var rest := if spec.serviceCidrs == [] then HostPrefixes(spec.serviceIps) else spec.serviceCidrs;
    JoinReaches(spec.podCidrs, rest, a);
    SetReaches(Sources(spec), a);
    if spec.serviceCidrs == [] {
      HostsReach(spec.serviceIps, a);
    }
  }

  lemma SetReaches(ps: seq<Option<Network>>, a: Address)
    ensures (exists p :: p in ParsedSet(ps) && p.Contains(a)) <==> exists i :: Reaches(ps, i, a)
  {
    if i :| Reaches(ps, i, a) {
      assert ps[i].value in ParsedSet(ps);
    }
    if p :| p in ParsedSet(ps) && p.Contains(a) {
      var i :| 0 <= i < |ps| && ps[i].Some? && ps[i].value == p;
      assert Reaches(ps, i, a);
    }
  }

  lemma JoinReaches(x: seq<Option<Network>>, y: seq<Option<Network>>, a: Address)
    ensures (exists i :: Reaches(x + y, i, a)) <==> (exists i :: Reaches(x, i, a)) || exists i :: Reaches(y, i, a)
  {
    if i :| Reaches(x + y, i, a) {
      assert if i < |x| then Reaches(x, i, a) else Reaches(y, i - |x|, a);
    }
    if i :| Reaches(x, i, a) {
      assert Reaches(x + y, i, a);
    }
    if i :| Reaches(y, i, a) {
      assert Reaches(x + y, |x| + i, a);
    }
  }

  lemma HostsReach(ips: seq<Option<Address>>, a: Address)
    ensures (exists i :: Reaches(HostPrefixes(ips), i, a)) <==> Some(a) in ips
  {
    if Some(a) in ips {
      var i :| 0 <= i < |ips| && ips[i] == Some(a);
      assert Reaches(HostPrefixes(ips), i, a);
    }
  }
}
