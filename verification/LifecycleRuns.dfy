/** What holds in every run of the intercept lifecycle. */
module LifecycleRuns {
  import opened Wrappers
  import opened Intercepts
  import opened Registry
  import opened HostRoutes
  import opened ControlClients
  import opened Lifecycle
  import LR = LifecycleRegistry
  import LL = LifecycleLeases
  import LT = LifecycleRoutes
  import opened LifecycleReplay
  import Steps = LifecycleReplaySteps

  /** What no run ever breaks. */
  ghost predicate Always(s: Sys) {
    LL.Both(s) && LT.RouteInv(s)
  }

  lemma AlwaysStep(s: Sys, e: Event)
    requires Always(s) && Enabled(s, e)
    ensures Always(Next(s, e))
  {
    LL.StepKeeps(s, e);
    LT.StepKeeps(s, e);
  }

  lemma {:induction false} AlwaysFrom(s: Sys, events: seq<Event>)
    requires Always(s) && Runs(s, events)
    ensures Always(After(s, events))
    decreases |events|
  {
    if events != [] {
      AlwaysStep(s, events[0]);
      AlwaysFrom(Next(s, events[0]), events[1..]);
    }
  }

  lemma StartsWell()
    ensures Always(INITIAL) && ReplayInv(INITIAL)
    ensures forall owner: LT.HostOwner :: LT.CompleteInv(INITIAL, owner)
  {
  }

  /** Every run keeps the registry's indexes, the lease accounts and the route ownership, whatever interleaves. */
  lemma EveryRun(events: seq<Event>)
    requires Runs(INITIAL, events)
    ensures Always(After(INITIAL, events))
  {
    StartsWell();
    AlwaysFrom(INITIAL, events);
  }

  /** In every run a lease's releases never overlap; once its start is over, it is owned by the one runtime of that
      start, or was freed by a stop, or was released once by rollback. */
  lemma LeasesOverRuns(events: seq<Event>, o: nat)
    requires Runs(INITIAL, events) && o in After(INITIAL, events).leases
    ensures var t := After(INITIAL, events);
            && t.leases[o].inFlight <= 1 && t.leases[o].rollbacks <= 1
            && o in t.ops && t.ops[o].Start?
            && (t.ops[o].phase.Finished? ==>
                  if t.ops[o].leased then
                    t.leases[o].rollbacks == 0
                    && (t.leases[o].freed <==>
                          !LL.Owns(t.m.registry, t.ops, o) || exists p :: LL.ReleasedBy(t.ops, p, o))
                  else t.leases[o].rollbacks == 1 && !LL.Owns(t.m.registry, t.ops, o))
  {
    EveryRun(events);
    var t := After(INITIAL, events);
    LL.NoOverlappingReleases(t, o);
    if t.ops[o].phase.Finished? {
      LL.LeaseAccounted(t, o);
    }
  }

  /** In every run a stop whose release comes back finds the runtime it left. */
  lemma StopNeverSurprised(events: seq<Event>, e: Event)
    requires Runs(INITIAL, events) && Enabled(After(INITIAL, events), e) && (e.CommitStop? || e.FailStop?)
    ensures var t := After(INITIAL, events); t.m.IsFiled(t.ops[e.op].id, t.ops[e.op].ref)
  {
    EveryRun(events);
    LL.StopFindsItsRuntime(After(INITIAL, events), e.op);
  }

  // ---- sub-ids ----

  ghost predicate KeysOwn(byID: Runtimes) {
    forall id, sub :: id in byID && sub in byID[id].portKeys ==> sub.id == id
  }

  lemma PublishOwns(s: Sys, e: Event)
    requires LR.Inv(s) && KeysOwn(s.m.registry.byID) && Enabled(s, e) && e.Publish?
    ensures KeysOwn(Next(s, e).m.registry.byID)
  {
    LT.PublishNext(s, e);
    var op := s.ops[e.op];
    forall sub | sub in LocalKeys(op.key, op.ports, e.details.locals) ensures sub.id == op.key {
      Steps.LocalKeysMatch(op.key, op.ports, e.details.locals, sub);
    }
  }

  lemma StopOwns(s: Sys, e: Event)
    requires LL.Both(s) && KeysOwn(s.m.registry.byID) && Enabled(s, e)
    requires e.BeginStop? || e.FailStop? || e.CommitStop?
    ensures KeysOwn(Next(s, e).m.registry.byID)
  {
    if e.CommitStop? {
      LT.CommitNext(s, e);
    } else {
      Steps.StopNext(s, e);
    }
  }

  lemma {:induction false} OwnFrom(s: Sys, events: seq<Event>)
    requires Always(s) && KeysOwn(s.m.registry.byID) && Runs(s, events)
    ensures KeysOwn(After(s, events).m.registry.byID)
    decreases |events|
  {
    if events != [] {
      var e := events[0];
      AlwaysStep(s, e);
      if e.Publish? {
        PublishOwns(s, e);
      } else if e.BeginStop? || e.FailStop? || e.CommitStop? {
        StopOwns(s, e);
      } else {
        LL.RuntimesUntouched(s, e);
      }
      OwnFrom(Next(s, e), events[1..]);
    }
  }

  /** In every run each published runtime is filed under its own id and its port keys carry it: what findPort and
      registrations rely on. */
  lemma SubsAreOwn(events: seq<Event>)
    requires Runs(INITIAL, events)
    ensures OwnSubs(After(INITIAL, events).m.registry)
  {
    EveryRun(events);
    StartsWell();
    OwnFrom(INITIAL, events);
  }

  // ---- registrations ----

  /** A run in which Start finds the registry empty and the listen ports last. */
  ghost predicate GoodRun(s: Sys, events: seq<Event>)
    requires Runs(s, events)
    decreases |events|
  {
    events == [] || (Good(s, events[0]) && GoodRun(Next(s, events[0]), events[1..]))
  }

  lemma {:induction false} ReplayFrom(s: Sys, events: seq<Event>)
    requires Always(s) && ReplayInv(s) && Runs(s, events) && GoodRun(s, events)
    ensures ReplayInv(After(s, events))
    decreases |events|
  {
    if events != [] {
      AlwaysStep(s, events[0]);
      Steps.StepKeeps(s, events[0]);
      ReplayFrom(Next(s, events[0]), events[1..]);
    }
  }

  /** Whenever the session is ready, every port of every published runtime is registered on the attached channel, as
      its start sent it. */
  lemma ReadyMeansRegistered(events: seq<Event>, id: Key, i: nat)
    requires Runs(INITIAL, events) && GoodRun(INITIAL, events)
    requires var t := After(INITIAL, events);
             t.m.session.Ready() && id in t.m.registry.byID && i < |t.m.registry.byID[id].info.ports|
    ensures var t := After(INITIAL, events);
            var c, sent := t.m.session.client.value, Sent(id, t.m.registry.byID[id].info.ports[i]);
            c in t.channels && sent.id in t.channels[c].acked && t.channels[c].acked[sent.id] == sent
  {
    StartsWell();
    ReplayFrom(INITIAL, events);
    var t := After(INITIAL, events);
    assert HeldPort(t.channels[t.m.session.client.value].acked, id, t.m.registry.byID[id].info.ports[i]);
  }

  /** In every such run, what a recovery would replay is exactly what the starts of the published runtimes sent. */
  lemma ReplaysAsSent(events: seq<Event>, reg: Registration)
    requires Runs(INITIAL, events) && GoodRun(INITIAL, events)
    ensures var r := After(INITIAL, events).m.registry; Replays(r, reg) <==> WasSent(r, reg)
  {
    StartsWell();
    ReplayFrom(INITIAL, events);
    ReplaysOk(After(INITIAL, events).m.registry, reg);
  }

  lemma ReplaysOk(r: Indexes, reg: Registration)
    requires RuntimesOk(r.byID)
    ensures Replays(r, reg) <==> WasSent(r, reg)
  {
    forall k | k in r.byID ensures KeysMatchPorts(r.byID[k]) && FitsUint16(r.byID[k].info.ports) {
      assert RuntimeOk(k, r.byID[k]);
    }
    ReplaysWhatWasSent(r, reg);
  }

  // ---- routes ----

  ghost predicate OwnHostsRun(s: Sys, events: seq<Event>, owner: LT.HostOwner)
    requires Runs(s, events)
    decreases |events|
  {
    events == [] || (LT.OwnHosts(s, events[0], owner) && OwnHostsRun(Next(s, events[0]), events[1..], owner))
  }

  lemma {:induction false} RoutesFrom(s: Sys, events: seq<Event>, owner: LT.HostOwner)
    requires Always(s) && LT.CompleteInv(s, owner) && Runs(s, events) && OwnHostsRun(s, events, owner)
    ensures LT.CompleteInv(After(s, events), owner)
    decreases |events|
  {
    if events != [] {
      AlwaysStep(s, events[0]);
      LT.CompleteStep(s, events[0], owner);
      RoutesFrom(Next(s, events[0]), events[1..], owner);
    }
  }

  lemma Resolves(t: Sys, owner: LT.HostOwner, id: Key, h: HostKey)
    requires LT.RouteInv(t) && LT.CompleteInv(t, owner)
    requires id in t.m.registry.byID && h in t.m.registry.byID[id].hostKeys
    ensures var ref := t.m.registry.byID[id].ref;
            ref in t.tables && h in t.tables[ref] && h in t.m.routes && t.m.routes[h] == t.tables[ref][h]
  {
    assert h in KeySet(t.m.registry.byID[id].hostKeys);
  }

  /** If distinct services bring disjoint hosts, every key a published runtime remembers is there and leads to the
      route that runtime installed. */
  lemma RoutesResolve(events: seq<Event>, owner: LT.HostOwner, id: Key, h: HostKey)
    requires Runs(INITIAL, events) && OwnHostsRun(INITIAL, events, owner)
    requires var t := After(INITIAL, events); id in t.m.registry.byID && h in t.m.registry.byID[id].hostKeys
    ensures var t := After(INITIAL, events);
            var ref := t.m.registry.byID[id].ref;
            ref in t.tables && h in t.tables[ref] && h in t.m.routes && t.m.routes[h] == t.tables[ref][h]
  {
    StartsWell();
    EveryRun(events);
    RoutesFrom(INITIAL, events, owner);
    Resolves(After(INITIAL, events), owner, id, h);
  }

  // ---- generations ----

  predicate Bumps(e: Event) {
    e.Connect? || e.StopAll? || e.BeginRecovery?
  }

  function BumpCount(events: seq<Event>): nat {
    if events == [] then 0 else (if Bumps(events[0]) then 1 else 0) + BumpCount(events[1..])
  }

  lemma GenerationStep(s: Sys, e: Event)
    requires Enabled(s, e)
    ensures Next(s, e).m.session.generation == s.m.session.generation + (if Bumps(e) then 1 else 0)
  {
  }

  /** The generation counts the starts, stops and recoveries there have been, and nothing else. */
  lemma {:induction false} GenerationCounts(s: Sys, events: seq<Event>)
    requires Runs(s, events)
    ensures After(s, events).m.session.generation == s.m.session.generation + BumpCount(events)
    decreases |events|
  {
    if events != [] {
      GenerationStep(s, events[0]);
      GenerationCounts(Next(s, events[0]), events[1..]);
    }
  }

  /** What never changes of an operation. */
  predicate SameOp(a: Op, b: Op) {
    match a
    case Start(_, _, _, _, _, _, _, _) =>
      b.Start? && b.key == a.key && b.reservation == a.reservation && b.channel == a.channel
      && b.generation == a.generation
    case Recover(_, _) => b == a || b.Over?
    case Over => b.Over?
    case _ => !b.Start? && !b.Recover?
  }

  lemma SameInStart(s: Sys, e: Event, o: nat)
    requires Enabled(s, e) && o in s.ops && OfStart(e)
    ensures o in Next(s, e).ops && SameOp(s.ops[o], Next(s, e).ops[o])
  {
  }

  lemma SameInOthers(s: Sys, e: Event, o: nat)
    requires Enabled(s, e) && o in s.ops && !OfStart(e)
    ensures o in Next(s, e).ops && SameOp(s.ops[o], Next(s, e).ops[o])
  {
  }

  lemma SameOpStep(s: Sys, e: Event, o: nat)
    requires Enabled(s, e) && o in s.ops
    ensures o in Next(s, e).ops && SameOp(s.ops[o], Next(s, e).ops[o])
  {
    if OfStart(e) {
      SameInStart(s, e, o);
    } else {
      SameInOthers(s, e, o);
    }
  }

  lemma {:induction false} SameOpRun(s: Sys, events: seq<Event>, o: nat)
    requires Runs(s, events) && o in s.ops
    ensures o in After(s, events).ops && SameOp(s.ops[o], After(s, events).ops[o])
    decreases |events|
  {
    if events != [] {
      SameOpStep(s, events[0], o);
      SameOpRun(Next(s, events[0]), events[1..], o);
    }
  }

  /** A start publishes only if no recovery, stop or reconnect began since it took its reservation. */
  lemma PublishedUninterrupted(s: Sys, begin: Event, events: seq<Event>, end: Event)
    requires begin.Reserve? && Enabled(s, begin) && Runs(Next(s, begin), events)
    requires end.Publish? && end.op == begin.op && Enabled(After(Next(s, begin), events), end)
    ensures BumpCount(events) == 0
    ensures var t := After(Next(s, begin), events);
            t.m.active && t.m.session.Ready() && t.m.session.client == s.m.session.client
            && t.m.session.client.value in t.channels && !t.channels[t.m.session.client.value].lost
  {
    GenerationCounts(Next(s, begin), events);
    SameOpRun(Next(s, begin), events, begin.op);
  }

  /** The session as any run leaves it: while it recovers it has no client. */
  predicate OneOrOther(s: Sys) {
    s.m.session.recovering ==> s.m.session.client.None?
  }

  lemma {:induction false} OneOrOtherRun(s: Sys, events: seq<Event>)
    requires OneOrOther(s) && Runs(s, events)
    ensures OneOrOther(After(s, events))
    decreases |events|
  {
    if events != [] {
      OneOrOtherRun(Next(s, events[0]), events[1..]);
    }
  }

  /** The recovery the session is waiting for. */
  predicate Awaited(s: Sys, o: nat) {
    o in s.ops && s.ops[o].Recover? && s.ops[o].generation == s.m.session.generation
  }

  /** An active manager is not stopping; while the session recovers the manager is active and a recovery of the
      current generation is under way; and without a client nothing else is claimed of the session. */
  ghost predicate CanGoOn(s: Sys) {
    && (s.m.active ==> !s.m.stopping)
    && (s.m.session.recovering ==> s.m.active && exists o :: Awaited(s, o))
    && (s.m.session.client.Some? ==> s.m.active)
  }

  lemma BeginsAwaited(s: Sys, e: Event)
    requires CanGoOn(s) && Enabled(s, e) && e.BeginRecovery?
    ensures CanGoOn(Next(s, e))
  {
    assert Awaited(Next(s, e), e.op);
  }

  /** The end of a recovery of the current generation ends the waiting; that of another changes nothing of it. */
  lemma EndsAwaited(s: Sys, e: Event)
    requires CanGoOn(s) && Enabled(s, e) && (e.FailRecovery? || e.EndRecovery?)
    ensures CanGoOn(Next(s, e))
  {
    var t := Next(s, e);
    if t.m.session.recovering {
      var o :| Awaited(s, o);
      assert o != e.op;
      assert Awaited(t, o);
    }
  }

  lemma OthersAwaited(s: Sys, e: Event)
    requires CanGoOn(s) && Enabled(s, e) && !e.BeginRecovery? && !e.FailRecovery? && !e.EndRecovery?
    ensures CanGoOn(Next(s, e))
  {
    var t := Next(s, e);
    if t.m.session.recovering {
      var o :| Awaited(s, o);
      SameOpStep(s, e, o);
      StaysRecovery(s, e, o);
      assert Awaited(t, o);
    }
  }

  lemma StaysRecovery(s: Sys, e: Event, o: nat)
    requires Enabled(s, e) && !e.BeginRecovery? && !e.FailRecovery? && !e.EndRecovery?
    requires o in s.ops && s.ops[o].Recover?
    ensures o in Next(s, e).ops && Next(s, e).ops[o] == s.ops[o]
  {
  }

  lemma {:induction false} GoesOnRun(s: Sys, events: seq<Event>)
    requires CanGoOn(s) && Runs(s, events)
    ensures CanGoOn(After(s, events))
    decreases |events|
  {
    if events != [] {
      var e := events[0];
      if e.BeginRecovery? {
        BeginsAwaited(s, e);
      } else if e.FailRecovery? || e.EndRecovery? {
        EndsAwaited(s, e);
      } else {
        OthersAwaited(s, e);
      }
      GoesOnRun(Next(s, e), events[1..]);
    }
  }

  /** In every run, after any number of disconnects: an active manager is not stopping, so one whose session is not
      recovering can begin a recovery; and one whose session is recovering has a recovery under way that, if it gets a
      channel, can attach it. */
  lemma RecoveryIsAlwaysPossible(events: seq<Event>)
    requires Runs(INITIAL, events)
    ensures var m := After(INITIAL, events).m;
            && (m.active ==> !m.stopping) && (m.session.client.Some? ==> m.active && !m.session.recovering)
            && (m.active && !m.session.recovering ==> m.CanRecover())
            && (m.session.recovering ==> m.CanAttach(m.session.generation))
    ensures After(INITIAL, events).m.session.recovering ==> exists o :: Awaited(After(INITIAL, events), o)
  {
    GoesOnRun(INITIAL, events);
    OneOrOtherRun(INITIAL, events);
  }

  // ---- reservations ----

  /** The start that a reservation is for. */
  predicate HeldBy(s: Sys, k: Key, o: nat) {
    o in s.ops && Holding(s.ops[o]) && s.ops[o].key == k
  }

  /** Every reservation is a start's that is not over: none is left behind. */
  ghost predicate NoneLeftBehind(s: Sys) {
    forall k :: k in s.m.registry.starting ==> exists o :: HeldBy(s, k, o)
  }

  lemma StartingStep(s: Sys, e: Event, k: Key)
    requires LR.Inv(s) && Enabled(s, e) && k in Next(s, e).m.registry.starting
    ensures (k in s.m.registry.starting && forall o :: HeldBy(s, k, o) ==> HeldBy(Next(s, e), k, o))
            || (e.Reserve? && HeldBy(Next(s, e), k, e.op))
  {
    if e.Publish? || e.Unreserve? {
      ReleaseStep(s, e, k);
    } else if !e.Reserve? {
      HoldersStay(s, e, k);
    }
  }

  lemma HoldersStay(s: Sys, e: Event, k: Key)
    requires Enabled(s, e) && !e.Publish? && !e.Unreserve? && !e.Reserve?
    ensures Next(s, e).m.registry.starting == s.m.registry.starting
    ensures forall o :: HeldBy(s, k, o) ==> HeldBy(Next(s, e), k, o)
  {
  }

  lemma ReleaseStep(s: Sys, e: Event, k: Key)
    requires LR.Inv(s) && Enabled(s, e) && (e.Publish? || e.Unreserve?) && k in Next(s, e).m.registry.starting
    ensures k in s.m.registry.starting && forall o :: HeldBy(s, k, o) ==> HeldBy(Next(s, e), k, o)
  {
    if Holding(s.ops[e.op]) {
      assert s.m.registry.Reserved(s.ops[e.op].key, s.ops[e.op].reservation);
    }
  }

  lemma {:induction false} LeftBehindRun(s: Sys, events: seq<Event>)
    requires Always(s) && NoneLeftBehind(s) && Runs(s, events)
    ensures NoneLeftBehind(After(s, events))
    decreases |events|
  {
    if events != [] {
      var t := Next(s, events[0]);
      forall k | k in t.m.registry.starting ensures exists o :: HeldBy(t, k, o) {
        StartingStep(s, events[0], k);
      }
      AlwaysStep(s, events[0]);
      LeftBehindRun(t, events[1..]);
    }
  }

  /** In every run a service is reserved only while a start of it is under way and has not published: whichever way a
      start ends, the next one finds the service free. */
  lemma ReservationsEnd(events: seq<Event>, k: Key)
    requires Runs(INITIAL, events) && k in After(INITIAL, events).m.registry.starting
    ensures exists o :: HeldBy(After(INITIAL, events), k, o)
  {
    StartsWell();
    LeftBehindRun(INITIAL, events);
  }

  /** A recovery attaches its channel only if nothing newer began since it did, and then over no other channel; a
      recovery that is out of date changes no session. */
  lemma RecoveryNeverOvertakes(s: Sys, begin: Event, events: seq<Event>, end: Event)
    requires begin.BeginRecovery? && Enabled(s, begin) && Runs(Next(s, begin), events)
    requires end.EndRecovery? && end.op == begin.op && Enabled(After(Next(s, begin), events), end)
    ensures var t := After(Next(s, begin), events);
            var u := Next(t, end);
            if t.m.CanAttach(t.ops[end.op].generation) then
              BumpCount(events) == 0 && t.m.session.client.None? && u.m.session.client == Some(end.channel)
            else u.m == t.m
  {
    var s1 := Next(s, begin);
    GenerationCounts(s1, events);
    SameOpRun(s1, events, begin.op);
    OneOrOtherRun(s1, events);
  }
}
