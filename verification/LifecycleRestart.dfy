/** A run that shows why Start must find the registry empty: one start, a StopAll that leaves its runtime behind
    (its release has not come back), and another Start. */
module LifecycleRestart {
  import opened Wrappers
  import opened Intercepts
  import opened Registry
  import opened HostRoutes
  import opened ServiceHosts
  import opened Manager
  import opened Lifecycle
  import opened LifecycleReplay

  const WEB := Port(TCP, 80, 20001)
  const WEB_KEY: Key := "default/web"
  const WEB_HOSTS := ServiceRewriteHosts(Service("default", "web", "10.96.0.10"), NormalizeRouteHost)
  const DETAILS := Details(Exchange, false, [], map[], WEB_HOSTS, RowKeys(WEB_HOSTS, 80))

  function RowKeys(hosts: seq<string>, port: int): (keys: seq<HostKey>) {
    if hosts == [] then [] else [HostKey(hosts[0], port)] + RowKeys(hosts[1..], port)
  }

  lemma {:induction false} RowKeysAre(hosts: seq<string>, port: int, k: HostKey)
    ensures k in RowKeys(hosts, port) <==> k.host in hosts && k.port == port
  {
    if hosts != [] {
      assert hosts == [hosts[0]] + hosts[1..];
      RowKeysAre(hosts[1..], port, k);
    }
  }
  const ON: Session<nat> := Session(Some(0), false, 1)

  function StartAt(ports: seq<Port>, registered: seq<SubId>, leased: bool, phase: Phase): Op {
    Start(WEB_KEY, 1, 0, 1, ports, registered, leased, phase)
  }

  function State(session: Session<nat>, registry: Indexes, channels: map<nat, Channel>, op: Op): Sys {
    Sys(ManagerState(true, false, session, registry, map[]), channels, map[0 := op], map[], map[], 0)
  }

  lemma RunsNext(s: Sys, e: Event, events: seq<Event>)
    requires Enabled(s, e) && Runs(Next(s, e), events)
    ensures Runs(s, [e] + events) && After(s, [e] + events) == After(Next(s, e), events)
  {
    assert ([e] + events)[1..] == events;
  }

  const RESERVED := State(ON, Indexes(map[], map[], map[WEB_KEY := 1], 1), map[0 := Channel(map[], false)],
                          StartAt([], [], false, Preparing))

  lemma Begins()
    ensures Enabled(INITIAL, Connect(0)) && Enabled(Next(INITIAL, Connect(0)), Event.Reserve(0, WEB_KEY))
    ensures Next(Next(INITIAL, Connect(0)), Event.Reserve(0, WEB_KEY)) == RESERVED
  {
  }

  const ALLOCATED := RESERVED.(ops := map[0 := StartAt([WEB], [], false, Preparing)], handedOut := 1)

  lemma Allocates()
    ensures Enabled(RESERVED, Allocate(0, TCP, 80)) && Next(RESERVED, Allocate(0, TCP, 80)) == ALLOCATED
  {
    assert [] + [WEB] == [WEB];
  }

  const SUB := SubId(WEB_KEY, TCP, 80)
  const REG := Registration(SUB, TCP, 20001)
  const ACKNOWLEDGED := ALLOCATED.(ops := map[0 := StartAt([WEB], [SUB], false, Preparing)],
                                   channels := map[0 := Channel(map[SUB := REG], false)])

  lemma Acknowledges()
    ensures Enabled(ALLOCATED, Acknowledge(0)) && Next(ALLOCATED, Acknowledge(0)) == ACKNOWLEDGED
  {
    assert Sent(WEB_KEY, WEB) == REG;
    assert [] + [SUB] == [SUB];
  }

  const GRANTED := ACKNOWLEDGED.(ops := map[0 := StartAt([WEB], [SUB], true, Granted)],
                                 leases := map[0 := Lease(0, 0, false)])

  lemma Grants()
    ensures Enabled(ACKNOWLEDGED, Grant(0)) && Next(ACKNOWLEDGED, Grant(0)) == GRANTED
  {
  }

  lemma OnePortTable(hosts: seq<string>, rt: Runtime)
    requires rt.info.ports == [WEB]
    ensures TableOf(rt, hosts).Keys == KeySet(RowKeys(hosts, 80))
  {
    var table := TableOf(rt, hosts);
    TableNext(hosts, rt.info.id, [WEB], rt.portKeys, rt.primaryAddrs, rt.info.mode, rt.info.preview, 0);
    assert [WEB][..1] == [WEB] && [WEB][..0] == [];
    var row := HostRow(hosts, 80, RouteFor(rt.info.id, WEB, rt.portKeys, rt.primaryAddrs, rt.info.mode,
                                           rt.info.preview));
    assert table == map[] + row;
    forall k ensures k in table <==> k in KeySet(RowKeys(hosts, 80)) {
      RowKeysAre(hosts, 80, k);
      assert k in row <==> k.host in hosts && k == HostKey(k.host, 80);
    }
  }

  lemma Publishes()
    ensures Enabled(GRANTED, Publish(0, DETAILS))
    ensures var t := Next(GRANTED, Publish(0, DETAILS));
            && t.m.active && t.m.session == ON && t.channels == GRANTED.channels
            && WEB_KEY in t.m.registry.byID && t.m.registry.byID[WEB_KEY].info.ports == [WEB]
  {
    var rt := RuntimeOf(0, GRANTED.ops[0], DETAILS);
    OnePortTable(WEB_HOSTS, rt);
    assert GRANTED.m.registry.Reserved(WEB_KEY, 1);
  }

  /** A ready session without a port of a published runtime. */
  ghost predicate Missing(s: Sys) {
    s.m.session.Ready() && s.m.session.client.value in s.channels
    && !Covered(s.m.registry.byID, s.channels[s.m.session.client.value].acked)
  }

  ghost predicate LosesPort(events: seq<Event>) {
    Runs(INITIAL, events) && Missing(After(INITIAL, events))
  }

  /** Stopped and started again with the runtime still published. */
  lemma StartsOver(s: Sys)
    requires 1 !in s.channels && WEB_KEY in s.m.registry.byID && s.m.registry.byID[WEB_KEY].info.ports == [WEB]
    ensures Enabled(s, StopAll) && Enabled(Next(s, StopAll), Connect(1))
    ensures Missing(Next(Next(s, StopAll), Connect(1)))
  {
    var t := Next(Next(s, StopAll), Connect(1));
    assert !HeldPort(t.channels[1].acked, WEB_KEY, t.m.registry.byID[WEB_KEY].info.ports[0]);
  }

  const REST := [Publish(0, DETAILS), StopAll, Connect(1)]

  lemma RunsLast(s: Sys, e: Event)
    requires Enabled(s, e)
    ensures Runs(s, [e]) && After(s, [e]) == Next(s, e)
  {
    RunsNext(s, e, []);
    assert [e] + [] == [e];
  }

  lemma RunsOver(s: Sys)
    requires 1 !in s.channels && WEB_KEY in s.m.registry.byID && s.m.registry.byID[WEB_KEY].info.ports == [WEB]
    ensures Runs(s, [StopAll, Connect(1)]) && Missing(After(s, [StopAll, Connect(1)]))
  {
    StartsOver(s);
    RunsLast(Next(s, StopAll), Connect(1));
    RunsNext(s, StopAll, [Connect(1)]);
    assert [StopAll] + [Connect(1)] == [StopAll, Connect(1)];
  }

  lemma SecondHalf()
    ensures Runs(GRANTED, REST)
    ensures Missing(After(GRANTED, REST))
  {
    Publishes();
    var s := Next(GRANTED, Publish(0, DETAILS));
    RunsOver(s);
    RunsNext(GRANTED, Publish(0, DETAILS), [StopAll, Connect(1)]);
    assert [Publish(0, DETAILS)] + [StopAll, Connect(1)] == REST;
  }

  const BEGINNING := [Connect(0), Event.Reserve(0, WEB_KEY), Allocate(0, TCP, 80), Acknowledge(0), Grant(0)]

  /** Whatever runs from the granted start runs after the beginning. */
  lemma FirstHalf(rest: seq<Event>)
    requires Runs(GRANTED, rest)
    ensures Runs(INITIAL, BEGINNING + rest) && After(INITIAL, BEGINNING + rest) == After(GRANTED, rest)
  {
    Grants();
    RunsNext(ACKNOWLEDGED, Grant(0), rest);
    Acknowledges();
    RunsNext(ALLOCATED, Acknowledge(0), [Grant(0)] + rest);
    Allocates();
    RunsNext(RESERVED, Allocate(0, TCP, 80), [Acknowledge(0)] + ([Grant(0)] + rest));
    FirstTwo([Allocate(0, TCP, 80)] + ([Acknowledge(0)] + ([Grant(0)] + rest)));
    assert BEGINNING + rest == [Connect(0)] + ([Event.Reserve(0, WEB_KEY)] + ([Allocate(0, TCP, 80)]
                               + ([Acknowledge(0)] + ([Grant(0)] + rest))));
  }

  lemma FirstTwo(rest: seq<Event>)
    requires Runs(RESERVED, rest)
    ensures var all := [Connect(0)] + ([Event.Reserve(0, WEB_KEY)] + rest);
            Runs(INITIAL, all) && After(INITIAL, all) == After(RESERVED, rest)
  {
    Begins();
    RunsNext(Next(INITIAL, Connect(0)), Event.Reserve(0, WEB_KEY), rest);
    RunsNext(INITIAL, Connect(0), [Event.Reserve(0, WEB_KEY)] + rest);
  }

  /** Started over a runtime a StopAll left behind, a session can be ready with one of its ports not registered. */
  lemma RestartLosesRegistrations()
    ensures exists events :: LosesPort(events)
  {
    SecondHalf();
    FirstHalf(REST);
    assert LosesPort(BEGINNING + REST);
  }
}
