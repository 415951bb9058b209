/** Host names and addresses that reach an intercepted Service locally: internal/intercept/host_routes.go. */
module HostRoutes {
  import opened Intercepts

  type Table = map<HostKey, HostRoute>

  /** localFor: the mapping given for a port, or the same port on the loopback address. */
  function LocalFor(p: Port, locals: seq<PortMapping>): (m: PortMapping) {
    if locals == [] then PortMapping(p.servicePort, p.network, "127.0.0.1", p.servicePort)
    else if locals[0].servicePort == p.servicePort && locals[0].network == p.network then locals[0]
    else LocalFor(p, locals[1..])
  }

  predicate MapsPort(m: PortMapping, p: Port) {
    m.servicePort == p.servicePort && m.network == p.network
  }

  /** The first mapping of the port's number and protocol; and without one, the same port on the loopback address. */
  lemma {:induction false} LocalIsFirst(p: Port, locals: seq<PortMapping>)
    ensures (exists i :: 0 <= i < |locals| && MapsPort(locals[i], p)) ==>
              exists i :: 0 <= i < |locals| && MapsPort(locals[i], p) && LocalFor(p, locals) == locals[i]
                          && forall j :: 0 <= j < i ==> !MapsPort(locals[j], p)
    ensures (forall i :: 0 <= i < |locals| ==> !MapsPort(locals[i], p)) ==>
              LocalFor(p, locals) == PortMapping(p.servicePort, p.network, "127.0.0.1", p.servicePort)
    ensures MapsPort(LocalFor(p, locals), p)
  {
    if locals != [] && !MapsPort(locals[0], p) {
      var rest := locals[1..];
      LocalIsFirst(p, rest);
      assert forall i :: 0 <= i < |rest| ==> rest[i] == locals[i + 1];
      if k :| 0 <= k < |locals| && MapsPort(locals[k], p) {
        assert MapsPort(rest[k - 1], p);
        var i :| 0 <= i < |rest| && MapsPort(rest[i], p) && LocalFor(p, rest) == rest[i]
                 && forall j :: 0 <= j < i ==> !MapsPort(rest[j], p);
        assert MapsPort(locals[i + 1], p) && LocalFor(p, locals) == locals[i + 1];
        assert forall j :: 0 <= j < i + 1 ==> !MapsPort(locals[j], p);
      }
    }
  }

  /** The route install writes for one port. */
  function RouteFor(id: Key, p: Port, portKeys: map<SubId, PortMapping>, primaryAddrs: map<SubId, string>,
                    mode: Mode, preview: bool): (r: HostRoute)
  {
    var sub := SubOf(id, p);
    HostRoute(mode, preview,
              if sub in portKeys then portKeys[sub] else LocalFor(p, []),
              if sub in primaryAddrs then primaryAddrs[sub] else "")
  }

  function HostRow(hosts: seq<string>, port: int, route: HostRoute): (t: Table)
    ensures t.Keys == set h | h in hosts :: HostKey(h, port)
    ensures forall k :: k in t ==> t[k] == route
  {
    map h | h in hosts :: HostKey(h, port) := route
  }

  /** All install writes: port by port, a later port of the same number over an earlier one. */
  function InstallTable(hosts: seq<string>, id: Key, ports: seq<Port>, portKeys: map<SubId, PortMapping>,
                        primaryAddrs: map<SubId, string>, mode: Mode, preview: bool): (t: Table)
  {
    if ports == [] then map[]
    else
      var last := ports[|ports| - 1];
      InstallTable(hosts, id, ports[..|ports| - 1], portKeys, primaryAddrs, mode, preview)
      + HostRow(hosts, AsUint16(last.servicePort), RouteFor(id, last, portKeys, primaryAddrs, mode, preview))
  }

  /** The last port with port i's number. */
  function LastOf(ports: seq<Port>, i: nat): (j: nat)
    requires i < |ports|
    ensures i <= j < |ports| && AsUint16(ports[j].servicePort) == AsUint16(ports[i].servicePort)
    ensures forall k :: j < k < |ports| ==> AsUint16(ports[k].servicePort) != AsUint16(ports[i].servicePort)
  {
    var n := |ports| - 1;
    if AsUint16(ports[n].servicePort) == AsUint16(ports[i].servicePort) then n
    else
      assert i != n;
      LastOf(ports[..n], i)
  }

  lemma {:induction false} LastInstalled(hosts: seq<string>, id: Key, ports: seq<Port>,
                                         portKeys: map<SubId, PortMapping>, primaryAddrs: map<SubId, string>,
                                         mode: Mode, preview: bool, h: string, i: nat)
    requires h in hosts && i < |ports|
    requires forall j :: i < j < |ports| ==> AsUint16(ports[j].servicePort) != AsUint16(ports[i].servicePort)
    ensures var t := InstallTable(hosts, id, ports, portKeys, primaryAddrs, mode, preview);
            var k := HostKey(h, AsUint16(ports[i].servicePort));
            k in t && t[k] == RouteFor(id, ports[i], portKeys, primaryAddrs, mode, preview)
  {
    var n := |ports| - 1;
    if i < n {
      assert ports[..n][i] == ports[i];
      LastInstalled(hosts, id, ports[..n], portKeys, primaryAddrs, mode, preview, h, i);
    }
  }

  /** A key's route is that of the last port with its number; the protocol does not count. */
  lemma LastPortWins(hosts: seq<string>, id: Key, ports: seq<Port>, portKeys: map<SubId, PortMapping>,
                     primaryAddrs: map<SubId, string>, mode: Mode, preview: bool, h: string, i: nat)
    requires h in hosts && i < |ports|
    ensures var t := InstallTable(hosts, id, ports, portKeys, primaryAddrs, mode, preview);
            var k := HostKey(h, AsUint16(ports[i].servicePort));
            k in t && t[k] == RouteFor(id, ports[LastOf(ports, i)], portKeys, primaryAddrs, mode, preview)
  {
    LastInstalled(hosts, id, ports, portKeys, primaryAddrs, mode, preview, h, LastOf(ports, i));
  }

  /** Port i's own route is the one in the table if and only if the last port of its number has the same route; so
      with distinct numbers no route is lost. */
  lemma RouteKept(hosts: seq<string>, id: Key, ports: seq<Port>, portKeys: map<SubId, PortMapping>,
                  primaryAddrs: map<SubId, string>, mode: Mode, preview: bool, h: string, i: nat)
    requires h in hosts && i < |ports|
    ensures var t := InstallTable(hosts, id, ports, portKeys, primaryAddrs, mode, preview);
            var k, own := HostKey(h, AsUint16(ports[i].servicePort)),
                          RouteFor(id, ports[i], portKeys, primaryAddrs, mode, preview);
            && k in t
            && (t[k] == own <==> RouteFor(id, ports[LastOf(ports, i)], portKeys, primaryAddrs, mode, preview) == own)
            && ((forall j :: i < j < |ports| ==> AsUint16(ports[j].servicePort) != AsUint16(ports[i].servicePort)) ==>
                  t[k] == own)
  {
    LastPortWins(hosts, id, ports, portKeys, primaryAddrs, mode, preview, h, i);
  }

  const DNS_PORTS := [Port(TCP, 53, 20001), Port(UDP, 53, 20002)]
  const DNS_KEYS := map[SubId("dns", TCP, 53) := PortMapping(53, TCP, "127.0.0.1", 5300),
                        SubId("dns", UDP, 53) := PortMapping(53, UDP, "127.0.0.1", 5301)]

  /** A Service with one number for TCP and UDP: its TCP traffic is led to where the UDP port is mapped. */
  lemma ProtocolsCollide(h: string)
    ensures var t := InstallTable([h], "dns", DNS_PORTS, DNS_KEYS, map[], Exchange, false);
            HostKey(h, 53) in t && t[HostKey(h, 53)].local == DNS_KEYS[SubId("dns", UDP, 53)]
            && t[HostKey(h, 53)].local != DNS_KEYS[SubId("dns", TCP, 53)]
  {
    LastPortWins([h], "dns", DNS_PORTS, DNS_KEYS, map[], Exchange, false, h, 0);
  }

  function KeySet(keys: seq<HostKey>): (s: set<HostKey>) {
    set k | k in keys
  }

  class HostRouteRegistry {
    var byTarget: Table

    constructor ()
      ensures byTarget == map[]
    {
      byTarget := map[];
    }

    /** install: the table is laid over what is there, and the keys returned are exactly its keys. */
    method Install(hosts: seq<string>, id: Key, ports: seq<Port>, portKeys: map<SubId, PortMapping>,
                   primaryAddrs: map<SubId, string>, mode: Mode, preview: bool)
      returns (keys: seq<HostKey>)
      modifies this
      ensures byTarget == old(byTarget) + InstallTable(hosts, id, ports, portKeys, primaryAddrs, mode, preview)
      ensures KeySet(keys) == InstallTable(hosts, id, ports, portKeys, primaryAddrs, mode, preview).Keys
    {
      keys := [];
      ghost var done: Table := map[];
      var i := 0;
      while i < |ports|
        invariant 0 <= i <= |ports|
        invariant done == InstallTable(hosts, id, ports[..i], portKeys, primaryAddrs, mode, preview)
        invariant byTarget == old(byTarget) + done
        invariant KeySet(keys) == done.Keys
      {
        var port := AsUint16(ports[i].servicePort);
        var route := RouteFor(id, ports[i], portKeys, primaryAddrs, mode, preview);
        ghost var row := HostRow(hosts, port, route);
        TableNext(hosts, id, ports, portKeys, primaryAddrs, mode, preview, i);
        var rowKeys := InstallPort(hosts, port, route);
        LayRow(old(byTarget), done, row, keys, rowKeys);
        done := done + row;
        keys := keys + rowKeys;
        i := i + 1;
      }
      assert ports[..i] == ports;
    }

    /** The inner loop: one port for every host. */
    method InstallPort(hosts: seq<string>, port: int, route: HostRoute) returns (keys: seq<HostKey>)
      modifies this
      ensures byTarget == old(byTarget) + HostRow(hosts, port, route)
      ensures KeySet(keys) == HostRow(hosts, port, route).Keys
    {
      keys := [];
      ghost var row: Table := HostRow([], port, route);
      var i := 0;
      while i < |hosts|
        invariant 0 <= i <= |hosts|
        invariant row == HostRow(hosts[..i], port, route)
        invariant byTarget == old(byTarget) + row
        invariant KeySet(keys) == row.Keys
      {
        var key := HostKey(hosts[i], port);
        RowNext(hosts, i, port, route);
        LayKey(old(byTarget), row, key, route, keys);
        row := row[key := route];
        byTarget := byTarget[key := route];
        keys := keys + [key];
        i := i + 1;
      }
      assert hosts[..i] == hosts;
    }

    /** remove: the keys given, and no others. */
    method Remove(keys: seq<HostKey>)
      modifies this
      ensures byTarget == old(byTarget) - KeySet(keys)
    {
      var i := 0;
      while i < |keys|
        invariant 0 <= i <= |keys|
        invariant byTarget == old(byTarget) - KeySet(keys[..i])
      {
        KeysJoin(keys[..i], [keys[i]]);
        assert keys[..i + 1] == keys[..i] + [keys[i]];
        byTarget := byTarget - {keys[i]};
        i := i + 1;
      }
      assert keys[..i] == keys;
    }
  }

  lemma KeysJoin(a: seq<HostKey>, b: seq<HostKey>)
    ensures KeySet(a + b) == KeySet(a) + KeySet(b)
  {
  }

  lemma TableNext(hosts: seq<string>, id: Key, ports: seq<Port>, portKeys: map<SubId, PortMapping>,
                  primaryAddrs: map<SubId, string>, mode: Mode, preview: bool, i: nat)
    requires i < |ports|
    ensures InstallTable(hosts, id, ports[..i + 1], portKeys, primaryAddrs, mode, preview)
         == InstallTable(hosts, id, ports[..i], portKeys, primaryAddrs, mode, preview)
            + HostRow(hosts, AsUint16(ports[i].servicePort),
                      RouteFor(id, ports[i], portKeys, primaryAddrs, mode, preview))
  {
    assert ports[..i + 1][..i] == ports[..i];
  }

  lemma LayKey(m: Table, row: Table, key: HostKey, route: HostRoute, keys: seq<HostKey>)
    requires KeySet(keys) == row.Keys
    ensures (m + row)[key := route] == m + row[key := route]
    ensures KeySet(keys + [key]) == row[key := route].Keys
  {
    KeysJoin(keys, [key]);
  }

  lemma LayRow(m: Table, done: Table, row: Table, keys: seq<HostKey>, rowKeys: seq<HostKey>)
    requires KeySet(keys) == done.Keys && KeySet(rowKeys) == row.Keys
    ensures m + done + row == m + (done + row)
    ensures KeySet(keys + rowKeys) == (done + row).Keys
  {
    KeysJoin(keys, rowKeys);
  }

  lemma RowNext(hosts: seq<string>, i: nat, port: int, route: HostRoute)
    requires i < |hosts|
    ensures HostRow(hosts[..i + 1], port, route)
         == HostRow(hosts[..i], port, route)[HostKey(hosts[i], port) := route]
  {
    assert hosts[..i + 1] == hosts[..i] + [hosts[i]];
  }
}
