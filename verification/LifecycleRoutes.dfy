/** Host routes over all interleavings: they follow the published runtimes. */
module LifecycleRoutes {
  import opened Intercepts
  import opened HostRoutes
  import opened Lifecycle
  import LR = LifecycleRegistry
  import LL = LifecycleLeases

  type Runtimes = map<Key, Runtime>

  /** What install wrote for a runtime, and the keys it remembers, agree. */
  ghost predicate TablesKnown(byID: Runtimes, tables: map<nat, Table>) {
    forall id :: id in byID ==>
      byID[id].ref in tables && KeySet(byID[id].hostKeys) == tables[byID[id].ref].Keys
  }

  /** Runtime id wrote the route that is there for h. */
  predicate Wrote(byID: Runtimes, tables: map<nat, Table>, routes: Table, id: Key, h: HostKey) {
    id in byID && byID[id].ref in tables && h in tables[byID[id].ref]
    && h in routes && routes[h] == tables[byID[id].ref][h]
  }

  /** Every route is one a published runtime wrote. */
  ghost predicate RoutesOwned(byID: Runtimes, tables: map<nat, Table>, routes: Table) {
    forall h :: h in routes ==> exists id :: Wrote(byID, tables, routes, id, h)
  }

  ghost predicate RouteInv(s: Sys) {
    TablesKnown(s.m.registry.byID, s.tables) && RoutesOwned(s.m.registry.byID, s.tables, s.m.routes)
  }

  /** A stopping flag changes neither what a runtime wrote nor what it remembers. */
  predicate SameFiles(byID: Runtimes, byID': Runtimes) {
    byID.Keys == byID'.Keys
    && forall id :: id in byID ==> byID'[id].ref == byID[id].ref && byID'[id].hostKeys == byID[id].hostKeys
  }

  lemma FilesKeep(byID: Runtimes, byID': Runtimes, tables: map<nat, Table>, routes: Table)
    requires TablesKnown(byID, tables) && RoutesOwned(byID, tables, routes) && SameFiles(byID, byID')
    ensures TablesKnown(byID', tables) && RoutesOwned(byID', tables, routes)
  {
    forall h | h in routes ensures exists id :: Wrote(byID', tables, routes, id, h) {
      var id :| Wrote(byID, tables, routes, id, h);
      assert Wrote(byID', tables, routes, id, h);
    }
  }

  lemma InstallKeeps(byID: Runtimes, tables: map<nat, Table>, routes: Table, rt: Runtime, table: Table)
    requires TablesKnown(byID, tables) && RoutesOwned(byID, tables, routes)
    requires rt.info.id !in byID && KeySet(rt.hostKeys) == table.Keys
    requires forall id :: id in byID ==> byID[id].ref != rt.ref
    ensures TablesKnown(byID[rt.info.id := rt], tables[rt.ref := table])
    ensures RoutesOwned(byID[rt.info.id := rt], tables[rt.ref := table], routes + table)
  {
    var byID', tables', routes' := byID[rt.info.id := rt], tables[rt.ref := table], routes + table;
    forall h | h in routes' ensures exists id :: Wrote(byID', tables', routes', id, h) {
      if h in table {
        assert Wrote(byID', tables', routes', rt.info.id, h);
      } else {
        var id :| Wrote(byID, tables, routes, id, h);
        assert Wrote(byID', tables', routes', id, h);
      }
    }
  }

  lemma RemoveKeeps(byID: Runtimes, tables: map<nat, Table>, routes: Table, id: Key)
    requires TablesKnown(byID, tables) && RoutesOwned(byID, tables, routes) && id in byID
    ensures TablesKnown(byID - {id}, tables)
    ensures RoutesOwned(byID - {id}, tables, routes - KeySet(byID[id].hostKeys))
  {
    var byID', routes' := byID - {id}, routes - KeySet(byID[id].hostKeys);
    forall h | h in routes' ensures exists k :: Wrote(byID', tables, routes', k, h) {
      var k :| Wrote(byID, tables, routes, k, h);
      assert k != id;
      assert Wrote(byID', tables, routes', k, h);
    }
  }

  /** Sections that leave runtimes, tables and routes alone. */
  lemma RoutesUntouched(s: Sys, e: Event)
    requires Enabled(s, e) && !e.Publish? && !e.BeginStop? && !e.FailStop? && !e.CommitStop?
    ensures var t := Next(s, e);
            t.m.registry.byID == s.m.registry.byID && t.tables == s.tables && t.m.routes == s.m.routes
  {
  }

  lemma BeginNext(s: Sys, e: Event)
    requires Enabled(s, e) && e.BeginStop?
    ensures var t := Next(s, e);
            SameFiles(s.m.registry.byID, t.m.registry.byID) && t.tables == s.tables && t.m.routes == s.m.routes
  {
  }

  lemma FailNext(s: Sys, e: Event)
    requires Enabled(s, e) && e.FailStop?
    ensures var t := Next(s, e);
            SameFiles(s.m.registry.byID, t.m.registry.byID) && t.tables == s.tables && t.m.routes == s.m.routes
  {
  }

  lemma MarkNext(s: Sys, e: Event)
    requires Enabled(s, e) && (e.BeginStop? || e.FailStop?)
    ensures var t := Next(s, e);
            SameFiles(s.m.registry.byID, t.m.registry.byID) && t.tables == s.tables && t.m.routes == s.m.routes
  {
    if e.BeginStop? {
      BeginNext(s, e);
    } else {
      FailNext(s, e);
    }
  }

  lemma PublishNext(s: Sys, e: Event)
    requires LR.Inv(s) && Enabled(s, e) && e.Publish?
    ensures var t, op := Next(s, e), s.ops[e.op];
            var rt := RuntimeOf(e.op, op, e.details);
            && op.key !in s.m.registry.byID
            && (forall id :: id in s.m.registry.byID ==> s.m.registry.byID[id].ref != e.op)
            && t.m.registry.byID == s.m.registry.byID[op.key := rt]
            && t.tables == s.tables[e.op := TableOf(rt, e.details.hosts)]
            && t.m.routes == s.m.routes + TableOf(rt, e.details.hosts)
  {
    LL.PublishAdds(s, e);
  }

  lemma CommitNext(s: Sys, e: Event)
    requires LL.Both(s) && Enabled(s, e) && e.CommitStop?
    ensures var t, id := Next(s, e), s.ops[e.op].id;
            && id in s.m.registry.byID && t.tables == s.tables
            && t.m.registry.byID == s.m.registry.byID - {id}
            && t.m.routes == s.m.routes - KeySet(s.m.registry.byID[id].hostKeys)
  {
    LL.StopFindsItsRuntime(s, e.op);
  }

  lemma PublishKeeps(s: Sys, e: Event)
    requires LR.Inv(s) && RouteInv(s) && Enabled(s, e) && e.Publish?
    ensures RouteInv(Next(s, e))
  {
    PublishNext(s, e);
    var rt := RuntimeOf(e.op, s.ops[e.op], e.details);
    InstallKeeps(s.m.registry.byID, s.tables, s.m.routes, rt, TableOf(rt, e.details.hosts));
  }

  /** Every section keeps every route the work of a published runtime, whatever hosts services share. */
  lemma StepKeeps(s: Sys, e: Event)
    requires LL.Both(s) && RouteInv(s) && Enabled(s, e)
    ensures RouteInv(Next(s, e))
  {
    var byID := s.m.registry.byID;
    if e.Publish? {
      PublishKeeps(s, e);
    } else if e.CommitStop? {
      CommitNext(s, e);
      RemoveKeeps(byID, s.tables, s.m.routes, s.ops[e.op].id);
    } else if e.BeginStop? || e.FailStop? {
      MarkNext(s, e);
      FilesKeep(byID, Next(s, e).m.registry.byID, s.tables, s.m.routes);
    } else {
      RoutesUntouched(s, e);
    }
  }

  // ---- services that share no host ----

  /** The service a host name leads to. */
  type HostOwner = string -> Key

  /** A publish whose hosts are all its own service's. */
  ghost predicate OwnHosts(s: Sys, e: Event, owner: HostOwner) {
    e.Publish? && e.op in s.ops && s.ops[e.op].Start? ==>
      forall i :: 0 <= i < |e.details.hosts| ==> owner(e.details.hosts[i]) == s.ops[e.op].key
  }

  /** Every published runtime's keys are there, and lead to it. */
  ghost predicate RoutesComplete(byID: Runtimes, tables: map<nat, Table>, routes: Table, owner: HostOwner) {
    forall id, h :: id in byID && byID[id].ref in tables && h in tables[byID[id].ref] ==>
      owner(h.host) == id && h in routes && routes[h] == tables[byID[id].ref][h]
  }

  lemma CompleteFiles(byID: Runtimes, byID': Runtimes, tables: map<nat, Table>, routes: Table, owner: HostOwner)
    requires RoutesComplete(byID, tables, routes, owner) && SameFiles(byID, byID')
    ensures RoutesComplete(byID', tables, routes, owner)
  {
  }

  lemma CompleteInstall(byID: Runtimes, tables: map<nat, Table>, routes: Table, rt: Runtime, table: Table,
                        owner: HostOwner)
    requires RoutesComplete(byID, tables, routes, owner)
    requires rt.info.id !in byID && forall id :: id in byID ==> byID[id].ref != rt.ref
    requires forall h :: h in table ==> owner(h.host) == rt.info.id
    ensures RoutesComplete(byID[rt.info.id := rt], tables[rt.ref := table], routes + table, owner)
  {
  }

  lemma CompleteRemove(byID: Runtimes, tables: map<nat, Table>, routes: Table, id: Key, owner: HostOwner)
    requires TablesKnown(byID, tables) && RoutesComplete(byID, tables, routes, owner) && id in byID
    ensures RoutesComplete(byID - {id}, tables, routes - KeySet(byID[id].hostKeys), owner)
  {
    var byID', routes' := byID - {id}, routes - KeySet(byID[id].hostKeys);
    forall k, h | k in byID' && byID'[k].ref in tables && h in tables[byID'[k].ref]
      ensures owner(h.host) == k && h in routes' && routes'[h] == tables[byID'[k].ref][h]
    {
      assert owner(h.host) == k;
      assert h in KeySet(byID[id].hostKeys) <==> h in tables[byID[id].ref];
    }
  }

  lemma {:induction false} TableHosts(hosts: seq<string>, id: Key, ports: seq<Port>,
                                      portKeys: map<SubId, PortMapping>, primaryAddrs: map<SubId, string>,
                                      mode: Mode, preview: bool, h: HostKey)
    requires h in InstallTable(hosts, id, ports, portKeys, primaryAddrs, mode, preview)
    ensures h.host in hosts
  {
    var n := |ports| - 1;
    if h in InstallTable(hosts, id, ports[..n], portKeys, primaryAddrs, mode, preview) {
      TableHosts(hosts, id, ports[..n], portKeys, primaryAddrs, mode, preview, h);
    }
  }

  lemma PublishOwnTable(s: Sys, e: Event, owner: HostOwner)
    requires Enabled(s, e) && e.Publish? && OwnHosts(s, e, owner)
    ensures forall h :: h in TableOf(RuntimeOf(e.op, s.ops[e.op], e.details), e.details.hosts) ==>
              owner(h.host) == s.ops[e.op].key
  {
    var rt := RuntimeOf(e.op, s.ops[e.op], e.details);
    forall h | h in TableOf(rt, e.details.hosts) ensures owner(h.host) == s.ops[e.op].key {
      TableHosts(e.details.hosts, rt.info.id, rt.info.ports, rt.portKeys, rt.primaryAddrs, rt.info.mode,
                 rt.info.preview, h);
    }
  }

  ghost predicate CompleteInv(s: Sys, owner: HostOwner) {
    RoutesComplete(s.m.registry.byID, s.tables, s.m.routes, owner)
  }

  lemma PublishCompletes(s: Sys, e: Event, owner: HostOwner)
    requires LL.Both(s) && RouteInv(s) && CompleteInv(s, owner) && Enabled(s, e) && e.Publish? && OwnHosts(s, e, owner)
    ensures CompleteInv(Next(s, e), owner)
  {
    PublishNext(s, e);
    PublishOwnTable(s, e, owner);
    var rt := RuntimeOf(e.op, s.ops[e.op], e.details);
    CompleteInstall(s.m.registry.byID, s.tables, s.m.routes, rt, TableOf(rt, e.details.hosts), owner);
  }

  /** As long as services bring only hosts of their own, no section loses a published runtime's route. */
  lemma CompleteStep(s: Sys, e: Event, owner: HostOwner)
    requires LL.Both(s) && RouteInv(s) && CompleteInv(s, owner) && Enabled(s, e) && OwnHosts(s, e, owner)
    ensures CompleteInv(Next(s, e), owner)
  {
    var byID := s.m.registry.byID;
    if e.Publish? {
      PublishCompletes(s, e, owner);
    } else if e.CommitStop? {
      CommitNext(s, e);
      CompleteRemove(byID, s.tables, s.m.routes, s.ops[e.op].id, owner);
    } else if e.BeginStop? || e.FailStop? {
      MarkNext(s, e);
      CompleteFiles(byID, Next(s, e).m.registry.byID, s.tables, s.m.routes, owner);
    } else {
      RoutesUntouched(s, e);
    }
  }
}
