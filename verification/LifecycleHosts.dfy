/** Host routes over runs in which every start brings the hosts serviceRewriteHosts gives for its Service. */
module LifecycleHosts {
  import opened Intercepts
  import opened ServiceHosts
  import opened Lifecycle
  import opened LifecycleRuns
  import LT = LifecycleRoutes

  /** A publish brings the hosts of its own Service. */
  ghost predicate BringsHosts(s: Sys, e: Event, services: map<Key, Service>, normalize: Normalizer) {
    e.Publish? && e.op in s.ops && s.ops[e.op].Start? ==>
      s.ops[e.op].key in services && e.details.hosts == ServiceRewriteHosts(services[s.ops[e.op].key], normalize)
  }

  ghost predicate BringsHostsRun(s: Sys, events: seq<Event>, services: map<Key, Service>, normalize: Normalizer)
    requires Runs(s, events)
    decreases |events|
  {
    events == []
    || (BringsHosts(s, events[0], services, normalize)
        && BringsHostsRun(Next(s, events[0]), events[1..], services, normalize))
  }

  ghost function Owner(services: map<Key, Service>, normalize: Normalizer): LT.HostOwner {
    h => OwnerOf(services, normalize, h)
  }

  lemma BringsOwn(s: Sys, e: Event, services: map<Key, Service>, normalize: Normalizer)
    requires Cluster(services, normalize) && BringsHosts(s, e, services, normalize)
    ensures LT.OwnHosts(s, e, Owner(services, normalize))
  {
    if e.Publish? && e.op in s.ops && s.ops[e.op].Start? {
      var key := s.ops[e.op].key;
      forall i | 0 <= i < |e.details.hosts| ensures Owner(services, normalize)(e.details.hosts[i]) == key {
        assert IsHostOf(services, normalize, key, e.details.hosts[i]);
        OneOwner(services, normalize, key, e.details.hosts[i]);
      }
    }
  }

  lemma {:induction false} BringsOwnRun(s: Sys, events: seq<Event>, services: map<Key, Service>,
                                        normalize: Normalizer)
    requires Cluster(services, normalize) && Runs(s, events) && BringsHostsRun(s, events, services, normalize)
    ensures OwnHostsRun(s, events, Owner(services, normalize))
    decreases |events|
  {
    if events != [] {
      BringsOwn(s, events[0], services, normalize);
      BringsOwnRun(Next(s, events[0]), events[1..], services, normalize);
    }
  }

  /** In a cluster whose Services keep their distinct addresses, every key a published runtime remembers leads, in every
      run, to the route that runtime installed. */
  lemma ServiceRoutesResolve(events: seq<Event>, services: map<Key, Service>, normalize: Normalizer, id: Key,
                             h: HostKey)
    requires Cluster(services, normalize)
    requires Runs(INITIAL, events) && BringsHostsRun(INITIAL, events, services, normalize)
    requires var t := After(INITIAL, events); id in t.m.registry.byID && h in t.m.registry.byID[id].hostKeys
    ensures var t := After(INITIAL, events);
            var ref := t.m.registry.byID[id].ref;
            ref in t.tables && h in t.tables[ref] && h in t.m.routes && t.m.routes[h] == t.tables[ref][h]
  {
    BringsOwnRun(INITIAL, events, services, normalize);
    RoutesResolve(events, Owner(services, normalize), id, h);
  }
}
