/** How discovery's sources become CIDR lists: internal/cluster/discovery/discovery.go. Listed resources are
    inputs, their texts already parsed. */
module Discovery {
  import opened Wrappers
  import opened Addresses
  import opened Ordering
  import opened CidrInference
  import opened Compaction
  import opened Routes

  /** A pod as listed: PodIP and PodIPs in one list. */
  datatype Pod = Pod(hostNetwork: bool, ips: seq<Option<Address>>)

  datatype Service = Service(clusterIp: Option<Address>, clusterIps: seq<Option<Address>>)

  /** The prefixes that come straight from the API: node specs, kubeadm, component flags, ServiceCIDR objects and
      the allocation probe. */
  datatype Reported = Reported(podCidrs: set<Prefix>, serviceCidrs: set<Prefix>) {
    predicate Valid() {
      (forall p :: p in podCidrs ==> p.Valid()) && (forall p :: p in serviceCidrs ==> p.Valid())
    }
  }

  datatype Discovered = Discovered(podCidrs: seq<Network>, serviceCidrs: seq<Network>, serviceIps: set<Address>)

  function Parsable(ips: seq<Option<Address>>): (r: seq<Address>)
    ensures forall a :: a in r <==> Some(a) in ips
  {
    if ips == [] then []
    else
      var rest := Parsable(ips[1..]);
      assert ips == [ips[0]] + ips[1..];
      if ips[0].Some? then [ips[0].value] + rest else rest
  }

  function PodAddresses(pods: seq<Pod>): (r: seq<Address>)
    ensures forall a :: a in r <==> exists p :: p in pods && !p.hostNetwork && Some(a) in p.ips
  {
    if pods == [] then []
    else
      assert pods == [pods[0]] + pods[1..];
      (if pods[0].hostNetwork then [] else Parsable(pods[0].ips)) + PodAddresses(pods[1..])
  }

  function ServiceAddresses(services: seq<Service>): (r: seq<Address>)
    ensures forall a :: a in r <==> exists s :: s in services && (s.clusterIp == Some(a) || Some(a) in s.clusterIps)
  {
    if services == [] then []
    else
      assert services == [services[0]] + services[1..];
      Parsable([services[0].clusterIp] + services[0].clusterIps) + ServiceAddresses(services[1..])
  }

  /** The keys of a prefix set, as compactCIDRs parses them back. */
  method Texts(s: set<Prefix>) returns (values: seq<Option<Network>>)
    requires forall p :: p in s ==> p.Valid()
    ensures forall p :: p in Parsed(values) <==> p in s
  {
    var keys := Keys(s);
    values := [];
    var i := 0;
    while i < |keys|
      invariant 0 <= i <= |keys| && |values| == i
      invariant Parsed(values) == keys[..i]
    {
      assert keys[i] in s;
      ghost var before := values;
      values := values + [Some(keys[i])];
      assert values[..|values| - 1] == before;
      i := i + 1;
    }
    assert keys[..i] == keys;
  }

  /** What a CIDR list must be: the maximal prefixes of the reported and the inferred ones. */
  ghost predicate ListedCidrs(cidrs: seq<Prefix>, reported: set<Prefix>, addresses: seq<Address>) {
    exists inferred, values :: ListedFrom(cidrs, reported, addresses, inferred, values)
  }

  ghost predicate ListedFrom(
    cidrs: seq<Prefix>, reported: set<Prefix>, addresses: seq<Address>, inferred: set<Prefix>, values: seq<Prefix>)
  {
    && Inferred(inferred, addresses)
    && (forall p :: p in values <==> p in reported || p in inferred)
    && Compacted(cidrs, values)
  }

  lemma InferredValid(inferred: set<Prefix>, addresses: seq<Address>)
    requires Inferred(inferred, addresses)
    ensures forall p :: p in inferred ==> p.Valid()
  {
    forall p | p in inferred ensures p.Valid() {
      InferredInBounds(inferred, addresses, p);
    }
  }

  /** inferPodCIDRs or inferServiceCIDRs, mergeCIDRs and compactCIDRs. */
  method CidrList(reported: set<Prefix>, addresses: seq<Address>) returns (cidrs: seq<Network>)
    requires forall p :: p in reported ==> p.Valid()
    ensures ListedCidrs(cidrs, reported, addresses)
  {
    var inferred := InferCidrs(addresses);
    InferredValid(inferred, addresses);
    var values := Texts(reported + inferred);
    cidrs := CompactCidrs(values);
    assert ListedFrom(cidrs, reported, addresses, inferred, Parsed(values));
  }

  /** The parts of Discover that end in routes. */
  method Discover(reported: Reported, pods: seq<Pod>, services: seq<Service>) returns (d: Discovered)
    requires reported.Valid()
    ensures ListedCidrs(d.podCidrs, reported.podCidrs, PodAddresses(pods))
    ensures ListedCidrs(d.serviceCidrs, reported.serviceCidrs, ServiceAddresses(services))
    ensures forall a :: a in d.serviceIps <==> exists s :: s in services && Some(a) in s.clusterIps
  {
    var podCidrs := CidrList(reported.podCidrs, PodAddresses(pods));
    var serviceCidrs := CidrList(reported.serviceCidrs, ServiceAddresses(services));
    var serviceIps: set<Address> := {};
    var i := 0;
    while i < |services|
      invariant 0 <= i <= |services|
      invariant forall a :: a in serviceIps <==> exists s :: s in services[..i] && Some(a) in s.clusterIps
    {
      assert services[..i + 1] == services[..i] + [services[i]];
      var ips := Parsable(services[i].clusterIps);
      serviceIps := serviceIps + set a | a in ips;
      i := i + 1;
    }
    assert services[..i] == services;
    d := Discovered(podCidrs, serviceCidrs, serviceIps);
  }

  /** Every address behind a CIDR list lies in one of its prefixes. */
  lemma ListedCovers(cidrs: seq<Prefix>, reported: set<Prefix>, addresses: seq<Address>, a: Address)
    requires ListedCidrs(cidrs, reported, addresses) && a in addresses
    ensures exists p :: p in cidrs && p.Contains(a)
  {
    var inferred, values :| ListedFrom(cidrs, reported, addresses, inferred, values);
    var i :| 0 <= i < |addresses| && addresses[i] == a;
    var p := InferredCovers(inferred, addresses, i);
    assert p in values && p.Contains(a);
    CompactedAddresses(cidrs, values, a);
  }

  function Texted(ps: seq<Network>): (r: seq<Option<Network>>)
    ensures |r| == |ps| && forall i :: 0 <= i < |ps| ==> r[i] == Some(ps[i])
  {
    if ps == [] then [] else [Some(ps[0])] + Texted(ps[1..])
  }

  /** A spec made from what was discovered; the Service IPs in any order. */
  ghost predicate SpecFor(spec: NetworkSpec, d: Discovered) {
    && spec.podCidrs == Texted(d.podCidrs)
    && spec.serviceCidrs == Texted(d.serviceCidrs)
    && (forall o :: o in spec.serviceIps <==> o.Some? && o.value in d.serviceIps)
  }

  ghost predicate DiscoveredFrom(d: Discovered, reported: Reported, pods: seq<Pod>, services: seq<Service>) {
    && ListedCidrs(d.podCidrs, reported.podCidrs, PodAddresses(pods))
    && ListedCidrs(d.serviceCidrs, reported.serviceCidrs, ServiceAddresses(services))
    && forall a :: a in d.serviceIps <==> exists s :: s in services && Some(a) in s.clusterIps
  }

  /** The per-Service fallback never adds a route to what Discover found: without Service CIDRs there is no
      Service address either. */
  lemma FallbackIdle(spec: NetworkSpec, d: Discovered, reported: Reported, pods: seq<Pod>, services: seq<Service>)
    requires DiscoveredFrom(d, reported, pods, services) && SpecFor(spec, d)
    requires spec.serviceCidrs == []
    ensures spec.serviceIps == []
  {
    if spec.serviceIps != [] {
      var o := spec.serviceIps[0];
      assert o in spec.serviceIps;
      var s :| s in services && Some(o.value) in s.clusterIps;
      assert o.value in ServiceAddresses(services);
      ListedCovers(d.serviceCidrs, reported.serviceCidrs, ServiceAddresses(services), o.value);
    }
  }

  lemma InSources(spec: NetworkSpec, ps: seq<Network>, p: Prefix)
    requires p in ps && (spec.podCidrs == Texted(ps) || (spec.serviceCidrs == Texted(ps) && ps != []))
    ensures p in ParsedSet(Sources(spec))
  {
    var i :| 0 <= i < |ps| && ps[i] == p;
    if spec.podCidrs == Texted(ps) {
      assert Sources(spec)[i] == Some(ps[i]);
    } else {
      assert Sources(spec)[|spec.podCidrs| + i] == Some(ps[i]);
    }
  }

  lemma SourcesParsed(spec: NetworkSpec, d: Discovered, reported: Reported, pods: seq<Pod>, services: seq<Service>)
    requires DiscoveredFrom(d, reported, pods, services) && SpecFor(spec, d)
    ensures AllParsed(Sources(spec))
  {
    if spec.serviceCidrs == [] {
      FallbackIdle(spec, d, reported, pods, services);
    }
  }

  /** End to end: discovery's routes install, fail only when there is nothing to route, and reach every Pod off
      the host network and every Service. */
  method RouteCluster(reported: Reported, pods: seq<Pod>, services: seq<Service>, ips: seq<Address>,
                      before: TextOrder)
    returns (d: Discovered, routes: Result<seq<Prefix>, RouteError>)
    requires StrictTotal(before) && reported.Valid()
    requires forall a :: a in ips <==> exists s :: s in services && Some(a) in s.clusterIps
    ensures routes.Err? ==> routes.error == NoRoutes && PodAddresses(pods) == [] && ServiceAddresses(services) == []
    ensures routes.Ok? ==> forall a :: a in PodAddresses(pods) || a in ServiceAddresses(services) ==>
                             exists p :: p in routes.value && p.Contains(a)
  {
    d := Discover(reported, pods, services);
    var spec := NetworkSpec(Texted(d.podCidrs), Texted(d.serviceCidrs), AsTexts(ips));
    routes := ClusterRoutes(spec, before);
    SourcesParsed(spec, d, reported, pods, services);
    forall a | a in PodAddresses(pods) || a in ServiceAddresses(services)
      ensures exists p :: p in ParsedSet(Sources(spec)) && p.Contains(a)
    {
      Routed(spec, d, reported, pods, services, a);
    }
    if routes.Err? {
      assert ParsedSet(Sources(spec)) == {};
      HasFirst(PodAddresses(pods));
      HasFirst(ServiceAddresses(services));
    }
  }

  function AsTexts(ips: seq<Address>): (r: seq<Option<Address>>)
    ensures forall o :: o in r <==> o.Some? && o.value in ips
  {
    if ips == [] then []
    else
      assert ips == [ips[0]] + ips[1..];
      [Some(ips[0])] + AsTexts(ips[1..])
  }

  lemma Routed(spec: NetworkSpec, d: Discovered, reported: Reported, pods: seq<Pod>, services: seq<Service>,
               a: Address)
    requires DiscoveredFrom(d, reported, pods, services) && SpecFor(spec, d)
    requires a in PodAddresses(pods) || a in ServiceAddresses(services)
    ensures exists p :: p in ParsedSet(Sources(spec)) && p.Contains(a)
  {
    if a in PodAddresses(pods) {
      ListedCovers(d.podCidrs, reported.podCidrs, PodAddresses(pods), a);
      var p :| p in d.podCidrs && p.Contains(a);
      InSources(spec, d.podCidrs, p);
    } else {
      ListedCovers(d.serviceCidrs, reported.serviceCidrs, ServiceAddresses(services), a);
      var p :| p in d.serviceCidrs && p.Contains(a);
      InSources(spec, d.serviceCidrs, p);
    }
  }
}
