/** A run that leaves a port registered and not published: a stop that commits while a recovery is under way. */
module LifecycleLeftover {
  import opened Wrappers
  import opened Intercepts
  import opened Registry
  import opened ControlClients
  import opened Lifecycle
  import opened LifecycleRestart
  import Steps = LifecycleReplaySteps

  const SNAPSHOT := map[SUB := REG]

  /** One runtime with one port, published on a ready session. */
  ghost predicate WebPublished(s: Sys) {
    && s.m.active && !s.m.stopping && !s.m.session.recovering
    && s.m.registry.byID.Keys == {WEB_KEY} && s.ops.Keys == {0} && s.channels.Keys == {0} && 0 in s.leases
    && var rt := s.m.registry.byID[WEB_KEY];
       && rt.ref == 0 && !rt.stopping && rt.info.id == WEB_KEY && rt.info.ports == [WEB] && rt.portKeys.Keys == {SUB}
  }

  lemma KeysOfWeb(locals: seq<PortMapping>)
    ensures LocalKeys(WEB_KEY, [WEB], locals).Keys == {SUB}
  {
    forall sub ensures sub in LocalKeys(WEB_KEY, [WEB], locals) <==> sub == SUB {
      Steps.LocalKeysMatch(WEB_KEY, [WEB], locals, sub);
      assert [WEB][0] == WEB && SubOf(WEB_KEY, WEB) == SUB;
    }
  }

  /** Start 0, the only operation so far, holds the one port of a service that has no runtime. */
  predicate WebGranted(s: Sys) {
    && s.m.active && !s.m.stopping && !s.m.session.recovering && s.m.registry.byID == map[]
    && s.ops.Keys == {0} && s.channels.Keys == {0} && 0 in s.leases
    && s.ops[0].Start? && s.ops[0].key == WEB_KEY && s.ops[0].ports == [WEB]
  }

  lemma WebPublishes(s: Sys, d: Details)
    requires WebGranted(s) && Enabled(s, Publish(0, d))
    ensures WebPublished(Next(s, Publish(0, d)))
  {
    KeysOfWeb(d.locals);
  }

  lemma WebIsPublished()
    ensures Enabled(GRANTED, Publish(0, DETAILS)) && WebPublished(Next(GRANTED, Publish(0, DETAILS)))
  {
    Publishes();
    WebPublishes(GRANTED, DETAILS);
  }

  lemma WebReplays(r: Indexes, reg: Registration)
    requires r.byID.Keys == {WEB_KEY} && r.byID[WEB_KEY].portKeys.Keys == {SUB}
    requires r.byID[WEB_KEY].info.id == WEB_KEY && r.byID[WEB_KEY].info.ports == [WEB]
    ensures Replays(r, reg) <==> reg == REG
  {
    assert RegistrationOf(WEB_KEY, [WEB], SUB) == Some(REG);
    assert WEB_KEY in r.byID && SUB in r.byID[WEB_KEY].portKeys;
  }

  lemma RecoveryBegins(s: Sys)
    requires WebPublished(s)
    ensures Enabled(s, Event.BeginRecovery(1, SNAPSHOT))
    ensures var t := Next(s, Event.BeginRecovery(1, SNAPSHOT));
            && t.m.registry == s.m.registry && t.m.CanAttach(t.m.session.generation) && t.m.session.client.None?
            && t.leases == s.leases && t.channels == s.channels
            && t.ops == s.ops[1 := Recover(t.m.session.generation, SNAPSHOT)]
  {
    forall reg: Registration ensures (reg.id in SNAPSHOT && SNAPSHOT[reg.id] == reg) <==> Replays(s.m.registry, reg) {
      WebReplays(s.m.registry, reg);
    }
  }

  /** The one runtime, while op 2 stops it. */
  predicate WebStopping(s: Sys, stage: Stage) {
    && s.m.registry.byID.Keys == {WEB_KEY} && s.m.session.client.None? && 0 in s.leases
    && s.m.registry.byID[WEB_KEY].ref == 0 && s.m.registry.byID[WEB_KEY].portKeys.Keys == {SUB}
    && 2 in s.ops && s.ops[2] == Stop(WEB_KEY, 0, stage)
  }

  /** All but the stop goes on as it was. */
  predicate Alongside(s: Sys, t: Sys) {
    && t.m.session == s.m.session && t.m.active == s.m.active && t.m.stopping == s.m.stopping
    && t.channels == s.channels && t.ops.Keys == s.ops.Keys + {2} && 1 in s.ops && t.ops[1] == s.ops[1]
  }

  lemma StopBegins(s: Sys)
    requires s.m.registry.byID.Keys == {WEB_KEY} && 2 !in s.ops && 1 in s.ops && 0 in s.leases
    requires var rt := s.m.registry.byID[WEB_KEY]; rt.ref == 0 && !rt.stopping && rt.portKeys.Keys == {SUB}
    requires s.m.session.client.None?
    ensures Enabled(s, Event.BeginStop(2, WEB_KEY))
    ensures var t := Next(s, Event.BeginStop(2, WEB_KEY)); WebStopping(t, Releasing) && Alongside(s, t)
  {
  }

  lemma StopReturns(s: Sys)
    requires WebStopping(s, Releasing) && 1 in s.ops
    ensures Enabled(s, ReleaseReturns(2, true))
    ensures var t := Next(s, ReleaseReturns(2, true)); WebStopping(t, Released) && Alongside(s, t)
  {
  }

  lemma StopCommits(s: Sys)
    requires WebStopping(s, Released) && 1 in s.ops
    ensures Enabled(s, Event.CommitStop(2, [SUB]))
    ensures var t := Next(s, Event.CommitStop(2, [SUB])); t.m.registry.byID == map[] && Alongside(s, t)
  {
    assert IdSet([SUB]) == {SUB};
  }

  /** Registered on the attached channel, and published by nobody. */
  ghost predicate LeftOver(s: Sys, sub: SubId) {
    && s.m.session.Ready() && s.m.session.client.value in s.channels
    && sub in s.channels[s.m.session.client.value].acked
    && forall id :: id in s.m.registry.byID ==> sub !in s.m.registry.byID[id].portKeys
  }

  lemma RecoveryEnds(s: Sys)
    requires 1 in s.ops && 1 !in s.channels && s.m.registry.byID == map[]
    requires s.ops[1] == Recover(s.m.session.generation, SNAPSHOT) && s.m.CanAttach(s.m.session.generation)
    ensures Enabled(s, EndRecovery(1, 1)) && LeftOver(Next(s, EndRecovery(1, 1)), SUB)
  {
  }

  ghost predicate Leaves(s: Sys, events: seq<Event>) {
    Runs(s, events) && LeftOver(After(s, events), SUB)
  }

  /** Event e leads to t, from where the rest leaves the port. */
  lemma Before(s: Sys, e: Event, t: Sys, rest: seq<Event>)
    requires Enabled(s, e) && Next(s, e) == t && Leaves(t, rest)
    ensures Leaves(s, [e] + rest)
  {
    RunsNext(s, e, rest);
  }

  lemma SecondPart(s: Sys) returns (events: seq<Event>)
    requires WebPublished(s)
    ensures Leaves(s, events)
  {
    RecoveryBegins(s);
    var t := Next(s, Event.BeginRecovery(1, SNAPSHOT));
    StopBegins(t);
    var t1 := Next(t, Event.BeginStop(2, WEB_KEY));
    StopReturns(t1);
    var t2 := Next(t1, ReleaseReturns(2, true));
    StopCommits(t2);
    var t3 := Next(t2, Event.CommitStop(2, [SUB]));
    RecoveryEnds(t3);
    RunsLast(t3, EndRecovery(1, 1));
    events := [EndRecovery(1, 1)];
    Before(t2, Event.CommitStop(2, [SUB]), t3, events);
    events := [Event.CommitStop(2, [SUB])] + events;
    Before(t1, ReleaseReturns(2, true), t2, events);
    events := [ReleaseReturns(2, true)] + events;
    Before(t, Event.BeginStop(2, WEB_KEY), t1, events);
    events := [Event.BeginStop(2, WEB_KEY)] + events;
    Before(s, Event.BeginRecovery(1, SNAPSHOT), t, events);
    events := [Event.BeginRecovery(1, SNAPSHOT)] + events;
  }

  lemma FromPublish(s: Sys, publish: Event) returns (events: seq<Event>)
    requires Enabled(s, publish) && WebPublished(Next(s, publish))
    ensures Leaves(s, events)
  {
    var rest := SecondPart(Next(s, publish));
    Before(s, publish, Next(s, publish), rest);
    events := [publish] + rest;
  }

  /** From the initial state: a start, a recovery, a stop meanwhile, and the stopped port is registered again. */
  lemma RecoveryLeavesPort()
    ensures exists events :: Leaves(INITIAL, events)
  {
    WebIsPublished();
    var rest := FromPublish(GRANTED, Publish(0, DETAILS));
    FirstHalf(rest);
    assert Leaves(INITIAL, BEGINNING + rest);
  }
}
