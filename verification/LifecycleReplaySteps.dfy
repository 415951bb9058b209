/** Every section keeps the replay invariant: one lemma per event. */
module LifecycleReplaySteps {
  import opened Wrappers
  import opened Intercepts
  import opened Registry
  import opened ControlClients
  import opened Manager
  import opened Lifecycle
  import opened LifecycleReplay
  import LR = LifecycleRegistry
  import LL = LifecycleLeases

  /** The invariant on the parts a section changes, the runtimes aside. */
  ghost predicate Kept(byID: Runtimes, ops: Ops, channels: Channels, session: Session<nat>) {
    OpsOk(ops, channels) && Apart(ops) && SessionOk(byID, ops, channels, session) && Snapshots(byID, ops, session)
  }

  // ---- sections that leave the channels alone ----

  /** A change of an operation that registers nothing and drops nothing. */
  predicate Calm(ops: Ops, o: nat, op: Op) {
    && !op.Unlisting? && !op.Recover?
    && (Holding(op) ==>
          op.registered == []
          || (o in ops && Holding(ops[o]) && op.channel == ops[o].channel && op.registered == ops[o].registered))
  }

  lemma CalmKeeps(byID: Runtimes, ops: Ops, channels: Channels, session: Session<nat>, o: nat, op: Op)
    requires Kept(byID, ops, channels, session) && Calm(ops, o, op) && OpOk(op, channels)
    ensures Kept(byID, ops[o := op], channels, session)
  {
    forall p | p in ops && p != o ensures Clear(op, ops[p]) && Clear(ops[p], op) {
      assert o in ops ==> Clear(ops[p], ops[o]);
    }
    ApartNext(ops, o, op);
  }

  predicate IsCalm(e: Event) {
    e.Reserve? || e.Allocate? || e.Grant? || e.Abandon? || e.UndoLease? || e.Unreserve? || e.ReleaseReturns?
  }

  lemma CalmNext(s: Sys, e: Event)
    requires Enabled(s, e)
    requires IsCalm(e)
    ensures var t := Next(s, e);
            && e.op in t.ops && t.ops == s.ops[e.op := t.ops[e.op]] && t.channels == s.channels
            && t.m.registry.byID == s.m.registry.byID && t.m.session == s.m.session
            && Calm(s.ops, e.op, t.ops[e.op])
  {
  }

  lemma AllocateOk(op: Op, channels: Channels, p: Port)
    requires op.Start? && StartOk(op, channels) && op.phase.Preparing? && 0 < p.listenPort <= 65535
    ensures StartOk(op.(ports := op.ports + [p]), channels)
  {
    var op' := op.(ports := op.ports + [p]);
    forall i | 0 <= i < |op.registered| ensures HeldPort(channels[op.channel].acked, op.key, op'.ports[i]) {
      assert HeldPort(channels[op.channel].acked, op.key, op.ports[i]);
    }
  }

  lemma CalmOp(s: Sys, e: Event)
    requires ReplayInv(s) && Enabled(s, e) && Good(s, e)
    requires IsCalm(e)
    ensures OpOk(Next(s, e).ops[e.op], s.channels)
  {
    if e.Allocate? {
      assert OpOk(s.ops[e.op], s.channels);
      PortBudget(s.handedOut + 1);
      AllocateOk(s.ops[e.op], s.channels, Port(e.network, e.servicePort, ListenPort(s.handedOut + 1)));
    } else if !e.Reserve? {
      assert OpOk(s.ops[e.op], s.channels);
    }
  }

  lemma CalmEvent(s: Sys, e: Event)
    requires ReplayInv(s) && Enabled(s, e) && Good(s, e)
    requires IsCalm(e)
    ensures ReplayInv(Next(s, e))
  {
    CalmNext(s, e);
    CalmOp(s, e);
    CalmKeeps(s.m.registry.byID, s.ops, s.channels, s.m.session, e.op, Next(s, e).ops[e.op]);
  }

  // ---- stops ----

  /** The runtimes left are the ones that were there, stopping flags aside. */
  predicate Within(a: Runtimes, b: Runtimes) {
    forall id :: id in b ==> id in a && b[id].info == a[id].info && b[id].portKeys == a[id].portKeys
  }

  lemma WithinKeeps(a: Runtimes, b: Runtimes, ops: Ops, channels: Channels, session: Session<nat>)
    requires RuntimesOk(a) && Kept(a, ops, channels, session) && Within(a, b)
    ensures RuntimesOk(b) && Kept(b, ops, channels, session)
  {
    forall id | id in b ensures RuntimeOk(id, b[id]) {
      assert RuntimeOk(id, a[id]);
    }
    forall acked: Acks | Covered(a, acked) ensures Covered(b, acked) {
      forall id | id in b ensures Held(acked, id, b[id].info.ports, |b[id].info.ports|) {
        assert Held(acked, id, a[id].info.ports, |a[id].info.ports|);
      }
    }
  }

  lemma StopNext(s: Sys, e: Event)
    requires Enabled(s, e) && (e.BeginStop? || e.FailStop?)
    ensures var t := Next(s, e);
            && e.op in t.ops && t.ops == s.ops[e.op := t.ops[e.op]] && t.channels == s.channels
            && Within(s.m.registry.byID, t.m.registry.byID) && t.m.session == s.m.session
            && Calm(s.ops, e.op, t.ops[e.op]) && OpOk(t.ops[e.op], s.channels)
  {
  }

  lemma StopEvent(s: Sys, e: Event)
    requires ReplayInv(s) && Enabled(s, e) && (e.BeginStop? || e.FailStop?)
    ensures ReplayInv(Next(s, e))
  {
    var t := Next(s, e);
    StopNext(s, e);
    CalmKeeps(s.m.registry.byID, s.ops, s.channels, s.m.session, e.op, t.ops[e.op]);
    WithinKeeps(s.m.registry.byID, t.m.registry.byID, t.ops, t.channels, t.m.session);
  }

  lemma CommitNext(s: Sys, e: Event)
    requires LL.Both(s) && Enabled(s, e) && e.CommitStop?
    ensures var t, id := Next(s, e), s.ops[e.op].id;
            && id in s.m.registry.byID && IdSet(e.order) == s.m.registry.byID[id].portKeys.Keys && NoRepeats(e.order)
            && t.m.registry.byID == s.m.registry.byID - {id}
            && t.channels == s.channels && t.m.session == s.m.session
            && t.ops == s.ops[e.op := if s.m.session.client.Some? then Unlisting(s.m.session.client.value, e.order)
                                      else Over]
  {
    LL.StopFindsItsRuntime(s, e.op);
  }

  lemma Ordered(byID: Runtimes, id: Key, order: seq<SubId>, i: nat)
    requires RuntimesOk(byID) && id in byID && IdSet(order) == byID[id].portKeys.Keys && i < |order|
    ensures order[i] in byID[id].portKeys && order[i].id == id
    ensures exists j :: 0 <= j < |byID[id].info.ports| && order[i] == SubOf(id, byID[id].info.ports[j])
  {
    assert RuntimeOk(id, byID[id]);
    assert order[i] in IdSet(order);
  }

  /** What the runtime being stopped had is still acknowledged. */
  lemma UnlistingOk(byID: Runtimes, channels: Channels, c: nat, id: Key, order: seq<SubId>)
    requires RuntimesOk(byID) && c in channels && Covered(byID, channels[c].acked) && id in byID
    requires IdSet(order) == byID[id].portKeys.Keys && NoRepeats(order)
    ensures UnlistOk(Unlisting(c, order), channels)
  {
    forall i | 0 <= i < |order| ensures order[i] in channels[c].acked {
      Ordered(byID, id, order, i);
      var j :| 0 <= j < |byID[id].info.ports| && order[i] == SubOf(id, byID[id].info.ports[j]);
      assert HeldPort(channels[c].acked, id, byID[id].info.ports[j]);
    }
  }

  /** Nobody else on the channel is dropping, or has yet to publish, a port of the runtime being stopped. */
  lemma UnlistingClear(byID: Runtimes, channels: Channels, c: nat, id: Key, order: seq<SubId>, p: Op)
    requires RuntimesOk(byID) && id in byID && IdSet(order) == byID[id].portKeys.Keys
    requires Spares(byID, p, c) && OpOk(p, channels) && (Holding(p) ==> p.key !in byID)
    ensures Clear(Unlisting(c, order), p) && Clear(p, Unlisting(c, order))
  {
    forall i | 0 <= i < |order| ensures order[i] in byID[id].portKeys && order[i].id == id {
      Ordered(byID, id, order, i);
    }
  }

  lemma UnlistingSpares(byID: Runtimes, c: nat, id: Key, order: seq<SubId>)
    requires RuntimesOk(byID) && id in byID && IdSet(order) == byID[id].portKeys.Keys
    ensures Spares(byID - {id}, Unlisting(c, order), c)
  {
    forall k, i | k in byID && k != id && 0 <= i < |order| ensures order[i] !in byID[k].portKeys {
      Ordered(byID, id, order, i);
      assert RuntimeOk(k, byID[k]);
    }
  }

  lemma UnlistingKeeps(byID: Runtimes, ops: Ops, channels: Channels, session: Session<nat>, o: nat, id: Key,
                       order: seq<SubId>)
    requires RuntimesOk(byID) && Kept(byID, ops, channels, session) && session.client.Some? && id in byID
    requires IdSet(order) == byID[id].portKeys.Keys && NoRepeats(order)
    requires forall p :: p in ops && Holding(ops[p]) ==> ops[p].key !in byID
    ensures Kept(byID - {id}, ops[o := Unlisting(session.client.value, order)], channels, session)
  {
    var c := session.client.value;
    var op := Unlisting(c, order);
    WithinKeeps(byID, byID - {id}, ops, channels, session);
    UnlistingOk(byID, channels, c, id, order);
    forall p | p in ops ensures Clear(op, ops[p]) && Clear(ops[p], op) {
      UnlistingClear(byID, channels, c, id, order, ops[p]);
    }
    ApartNext(ops, o, op);
    UnlistingSpares(byID, c, id, order);
  }

  lemma HoldingUnpublished(s: Sys, p: nat)
    requires LR.Inv(s) && p in s.ops && Holding(s.ops[p])
    ensures s.ops[p].key !in s.m.registry.byID
  {
    assert s.m.registry.Reserved(s.ops[p].key, s.ops[p].reservation);
  }

  lemma NobodyHolds(s: Sys)
    requires LR.Inv(s)
    ensures forall p :: p in s.ops && Holding(s.ops[p]) ==> s.ops[p].key !in s.m.registry.byID
  {
    forall p | p in s.ops && Holding(s.ops[p]) ensures s.ops[p].key !in s.m.registry.byID {
      HoldingUnpublished(s, p);
    }
  }

  lemma CommitKeeps(byID: Runtimes, ops: Ops, channels: Channels, session: Session<nat>, o: nat, id: Key,
                    order: seq<SubId>)
    requires RuntimesOk(byID) && Kept(byID, ops, channels, session) && id in byID
    requires IdSet(order) == byID[id].portKeys.Keys && NoRepeats(order)
    requires forall p :: p in ops && Holding(ops[p]) ==> ops[p].key !in byID
    ensures var op := if session.client.Some? then Unlisting(session.client.value, order) else Over;
            Kept(byID - {id}, ops[o := op], channels, session) && RuntimesOk(byID - {id})
  {
    if session.client.Some? {
      UnlistingKeeps(byID, ops, channels, session, o, id, order);
    } else {
      CalmKeeps(byID, ops, channels, session, o, Over);
      WithinKeeps(byID, byID - {id}, ops[o := Over], channels, session);
    }
  }

  lemma CommitEvent(s: Sys, e: Event)
    requires LL.Both(s) && ReplayInv(s) && Enabled(s, e) && e.CommitStop?
    ensures ReplayInv(Next(s, e))
  {
    CommitNext(s, e);
    NobodyHolds(s);
    CommitKeeps(s.m.registry.byID, s.ops, s.channels, s.m.session, e.op, s.ops[e.op].id, e.order);
  }

  // ---- publishing ----

  lemma {:induction false} LocalKeysMatch(id: Key, ports: seq<Port>, locals: seq<PortMapping>, sub: SubId)
    ensures sub in LocalKeys(id, ports, locals) <==> exists i :: 0 <= i < |ports| && sub == SubOf(id, ports[i])
  {
    if ports != [] {
      var n := |ports| - 1;
      LocalKeysMatch(id, ports[..n], locals, sub);
      assert sub == SubOf(id, ports[n]) || sub in LocalKeys(id, ports[..n], locals) <==>
             sub in LocalKeys(id, ports, locals);
      if i :| 0 <= i < |ports| && sub == SubOf(id, ports[i]) {
        assert i < n ==> ports[..n][i] == ports[i];
      }
      if sub in LocalKeys(id, ports[..n], locals) {
        var i :| 0 <= i < n && sub == SubOf(id, ports[..n][i]);
        assert sub == SubOf(id, ports[i]);
      }
    }
  }

  lemma PublishedOk(o: nat, op: Op, d: Details, channels: Channels)
    requires op.Start? && op.phase.Granted? && StartOk(op, channels)
    ensures RuntimeOk(op.key, RuntimeOf(o, op, d))
  {
    var rt := RuntimeOf(o, op, d);
    forall sub ensures sub in rt.portKeys <==> exists i :: 0 <= i < |op.ports| && sub == SubOf(op.key, op.ports[i]) {
      LocalKeysMatch(op.key, op.ports, d.locals, sub);
    }
    forall i, j | 0 <= i < j < |op.ports| ensures SubOf(op.key, op.ports[i]) != SubOf(op.key, op.ports[j]) {
      assert op.registered[i] != op.registered[j];
    }
  }

  lemma PublishedSpared(p: Op, op: Op, rt: Runtime, channels: Channels)
    requires op.Start? && op.phase.Granted? && StartOk(op, channels) && RuntimeOk(op.key, rt)
    requires rt.info.ports == op.ports && Clear(p, op) && p.Unlisting? && p.channel == op.channel
    ensures NoneIn(p.remaining, rt.portKeys)
  {
    forall i | 0 <= i < |p.remaining| ensures p.remaining[i] !in rt.portKeys {
      forall j | 0 <= j < |op.ports| ensures p.remaining[i] != SubOf(op.key, op.ports[j]) {
        assert p.remaining[i] != op.registered[j];
      }
    }
  }

  lemma PublishAttached(byID: Runtimes, ops: Ops, channels: Channels, o: nat, rt: Runtime)
    requires RuntimesOk(byID) && Apart(ops) && o in ops && ops[o].Start? && ops[o].phase.Granted?
    requires var op := ops[o];
             StartOk(op, channels) && RuntimeOk(op.key, rt) && rt.info.ports == op.ports
             && Attached(byID, ops, channels, op.channel)
    ensures Attached(byID[ops[o].key := rt], ops, channels, ops[o].channel)
  {
    var op := ops[o];
    forall p | p in ops ensures Spares(byID[op.key := rt], ops[p], op.channel) {
      assert Spares(byID, ops[p], op.channel);
      if ops[p].Unlisting? && ops[p].channel == op.channel {
        assert Clear(ops[p], op);
        PublishedSpared(ops[p], op, rt, channels);
      }
    }
  }

  lemma PublishNext(s: Sys, e: Event)
    requires Enabled(s, e) && e.Publish?
    ensures var t, op := Next(s, e), s.ops[e.op];
            && s.m.session.client == Some(op.channel) && !s.m.session.recovering
            && t.m.registry.byID == s.m.registry.byID[op.key := RuntimeOf(e.op, op, e.details)]
            && t.channels == s.channels && t.m.session == s.m.session
            && t.ops == s.ops[e.op := op.(phase := Published)]
  {
  }

  lemma PublishEvent(s: Sys, e: Event)
    requires ReplayInv(s) && Enabled(s, e) && e.Publish?
    ensures ReplayInv(Next(s, e))
  {
    PublishNext(s, e);
    var byID, o, op := s.m.registry.byID, e.op, s.ops[e.op];
    var rt := RuntimeOf(o, op, e.details);
    assert OpOk(op, s.channels);
    PublishedOk(o, op, e.details, s.channels);
    PublishAttached(byID, s.ops, s.channels, o, rt);
    PublishKeeps(byID, byID[op.key := rt], s.ops, s.channels, s.m.session);
    CalmKeeps(byID[op.key := rt], s.ops, s.channels, s.m.session, o, op.(phase := Published));
    assert RuntimesOk(byID[op.key := rt]);
  }

  lemma PublishKeeps(a: Runtimes, b: Runtimes, ops: Ops, channels: Channels, session: Session<nat>)
    requires Kept(a, ops, channels, session) && session.client.Some? && !session.recovering
    requires Attached(b, ops, channels, session.client.value)
    ensures Kept(b, ops, channels, session)
  {
    forall o | o in ops ensures Snapshot(b, ops[o], session) {
      assert Snapshot(a, ops[o], session);
    }
  }

  // ---- round trips ----

  /** An operation that is not a recovery changes, and its channel. */
  lemma TripKeeps(byID: Runtimes, ops: Ops, a: Channels, b: Channels, session: Session<nat>, o: nat, op: Op,
                  c: nat, dropped: set<SubId>)
    requires RuntimesOk(byID) && Kept(byID, ops, a, session) && ChannelsKeep(a, b, c, dropped)
    requires OpOk(op, b) && !op.Recover?
    requires forall p :: p in ops && p != o ==>
               Safe(ops[p], c, dropped) && Clear(op, ops[p]) && Clear(ops[p], op)
    requires session.client == Some(c) ==>
               Spares(byID, op, c) && forall id, x :: id in byID && x in dropped ==> x !in byID[id].portKeys
    requires op.Unlisting? ==> op.channel == c
    ensures Kept(byID, ops[o := op], b, session)
  {
    OpsOkNext(ops, a, b, o, op, c, dropped);
    ApartNext(ops, o, op);
    if session.client.Some? {
      AttachedKept(byID, ops, a, b, session.client.value, dropped, c);
    }
  }

  lemma AcknowledgeNext(s: Sys, e: Event)
    requires Enabled(s, e) && e.Acknowledge?
    ensures var t, op := Next(s, e), s.ops[e.op];
            && op.Start? && op.phase.Preparing? && |op.registered| < |op.ports| && op.channel in s.channels
            && var sent := Sent(op.key, op.ports[|op.registered|]);
            && sent.id !in s.channels[op.channel].acked
            && t.m.registry.byID == s.m.registry.byID && t.m.session == s.m.session
            && t.channels.Keys == s.channels.Keys
            && (forall k :: k in s.channels && k != op.channel ==> t.channels[k] == s.channels[k])
            && t.channels[op.channel].acked == s.channels[op.channel].acked[sent.id := sent]
            && t.ops == s.ops[e.op := op.(registered := op.registered + [sent.id])]
  {
  }

  lemma AcknowledgedOk(op: Op, a: Channels, b: Channels)
    requires op.Start? && op.phase.Preparing? && StartOk(op, a) && |op.registered| < |op.ports|
    requires var sent := Sent(op.key, op.ports[|op.registered|]);
             && sent.id !in a[op.channel].acked
             && op.channel in b && b[op.channel].acked == a[op.channel].acked[sent.id := sent]
    ensures StartOk(op.(registered := op.registered + [Sent(op.key, op.ports[|op.registered|]).id]), b)
  {
    var n := |op.registered|;
    var sent := Sent(op.key, op.ports[n]);
    forall i | 0 <= i < n
      ensures op.registered[i] != sent.id && HeldPort(b[op.channel].acked, op.key, op.ports[i])
    {
      assert HeldPort(a[op.channel].acked, op.key, op.ports[i]);
    }
  }

  lemma AcknowledgedClear(p: Op, op: Op, channels: Channels, id: SubId)
    requires op.Start? && Holding(op) && Clear(p, op) && OpOk(p, channels)
    requires op.channel in channels && id !in channels[op.channel].acked
    ensures Clear(p, op.(registered := op.registered + [id]))
  {
  }

  lemma AcknowledgeEvent(s: Sys, e: Event)
    requires ReplayInv(s) && Enabled(s, e) && e.Acknowledge?
    ensures ReplayInv(Next(s, e))
  {
    AcknowledgeNext(s, e);
    var t, op := Next(s, e), s.ops[e.op];
    var op' := t.ops[e.op];
    assert OpOk(op, s.channels);
    AcknowledgedOk(op, s.channels, t.channels);
    forall p | p in s.ops && p != e.op ensures Clear(s.ops[p], op') {
      AcknowledgedClear(s.ops[p], op, s.channels, Sent(op.key, op.ports[|op.registered|]).id);
    }
    TripKeeps(s.m.registry.byID, s.ops, s.channels, t.channels, s.m.session, e.op, op', op.channel, {});
  }

  lemma UndoPortNext(s: Sys, e: Event)
    requires Enabled(s, e) && e.UndoPort?
    ensures var t, op := Next(s, e), s.ops[e.op];
            && op.Start? && op.phase.Undoing? && op.registered != []
            && t.m.registry.byID == s.m.registry.byID && t.m.session == s.m.session
            && ChannelsKeep(s.channels, t.channels, op.channel, {LastId(op.registered)})
            && t.ops == s.ops[e.op := op.(registered := op.registered[..|op.registered| - 1])]
  {
  }

  lemma UndoneOk(op: Op, a: Channels, b: Channels)
    requires op.Start? && op.phase.Undoing? && StartOk(op, a) && op.registered != []
    requires ChannelsKeep(a, b, op.channel, {LastId(op.registered)})
    ensures StartOk(op.(registered := op.registered[..|op.registered| - 1]), b)
  {
    var n := |op.registered| - 1;
    var dropped := {LastId(op.registered)};
    forall i | 0 <= i < n ensures SubOf(op.key, op.ports[i]) !in dropped {
      assert op.registered[i] != op.registered[n];
    }
    HeldKept(a[op.channel].acked, b[op.channel].acked, dropped, op.key, op.ports, n);
  }

  /** A start's registration is no other start's, and no stop is dropping it. */
  lemma UndoneSafe(p: Op, op: Op, channels: Channels)
    requires op.Start? && Holding(op) && StartOk(op, channels) && op.registered != []
    requires OpOk(p, channels) && Clear(p, op) && (Holding(p) ==> p.key != op.key)
    ensures Safe(p, op.channel, {LastId(op.registered)})
    ensures Clear(p, op.(registered := op.registered[..|op.registered| - 1]))
  {
    assert LastId(op.registered).id == op.key;
  }

  lemma UndoneUnpublished(byID: Runtimes, op: Op, channels: Channels)
    requires RuntimesOk(byID) && op.Start? && StartOk(op, channels) && op.registered != [] && op.key !in byID
    ensures forall id :: id in byID ==> LastId(op.registered) !in byID[id].portKeys
  {
    assert LastId(op.registered).id == op.key;
    forall id | id in byID ensures LastId(op.registered) !in byID[id].portKeys {
      assert RuntimeOk(id, byID[id]);
    }
  }

  lemma OtherKeyHolds(s: Sys, o: nat, p: nat)
    requires LR.Inv(s) && o in s.ops && p in s.ops && o != p && Holding(s.ops[o]) && Holding(s.ops[p])
    ensures s.ops[p].key != s.ops[o].key
  {
    if s.ops[p].key == s.ops[o].key {
      LR.OneStartPerService(s.m.registry, s.ops, o, p);
    }
  }

  /** To the other operations it does not matter that start o drops its last registration. */
  lemma UndoneOther(s: Sys, o: nat, p: nat)
    requires LR.Inv(s) && ReplayInv(s) && o in s.ops && p in s.ops && p != o
    requires s.ops[o].Start? && s.ops[o].phase.Undoing? && s.ops[o].registered != []
    ensures var op := s.ops[o];
            Safe(s.ops[p], op.channel, {LastId(op.registered)})
            && Clear(s.ops[p], op.(registered := op.registered[..|op.registered| - 1]))
  {
    assert OpOk(s.ops[o], s.channels);
    if Holding(s.ops[p]) {
      OtherKeyHolds(s, o, p);
    }
    UndoneSafe(s.ops[p], s.ops[o], s.channels);
  }

  lemma UndoPortEvent(s: Sys, e: Event)
    requires LL.Both(s) && ReplayInv(s) && Enabled(s, e) && e.UndoPort?
    ensures ReplayInv(Next(s, e))
  {
    UndoPortNext(s, e);
    var t, op := Next(s, e), s.ops[e.op];
    assert OpOk(op, s.channels);
    UndoneOk(op, s.channels, t.channels);
    forall p | p in s.ops && p != e.op
      ensures Safe(s.ops[p], op.channel, {LastId(op.registered)}) && Clear(s.ops[p], t.ops[e.op])
    {
      UndoneOther(s, e.op, p);
    }
    HoldingUnpublished(s, e.op);
    UndoneUnpublished(s.m.registry.byID, op, s.channels);
    TripKeeps(s.m.registry.byID, s.ops, s.channels, t.channels, s.m.session, e.op, t.ops[e.op], op.channel,
              {LastId(op.registered)});
  }

  lemma UnregisterNext(s: Sys, e: Event)
    requires Enabled(s, e) && e.UnregisterPort?
    ensures var t, op := Next(s, e), s.ops[e.op];
            && op.Unlisting? && op.remaining != []
            && t.m.registry.byID == s.m.registry.byID && t.m.session == s.m.session
            && ChannelsKeep(s.channels, t.channels, op.channel, {op.remaining[0]})
            && t.ops == s.ops[e.op := op.(remaining := op.remaining[1..])]
  {
  }

  lemma UnlistedOk(op: Op, a: Channels, b: Channels)
    requires op.Unlisting? && UnlistOk(op, a) && op.remaining != []
    requires ChannelsKeep(a, b, op.channel, {op.remaining[0]})
    ensures UnlistOk(op.(remaining := op.remaining[1..]), b)
  {
    var rest := op.remaining[1..];
    forall i | 0 <= i < |rest| ensures rest[i] in b[op.channel].acked {
      assert rest[i] == op.remaining[i + 1] && op.remaining[0] != op.remaining[i + 1];
    }
  }

  lemma UnlistedSafe(p: Op, op: Op)
    requires op.Unlisting? && op.remaining != [] && Clear(op, p) && Clear(p, op)
    ensures Safe(p, op.channel, {op.remaining[0]})
    ensures Clear(op.(remaining := op.remaining[1..]), p) && Clear(p, op.(remaining := op.remaining[1..]))
  {
  }

  lemma UnregisterEvent(s: Sys, e: Event)
    requires ReplayInv(s) && Enabled(s, e) && e.UnregisterPort?
    ensures ReplayInv(Next(s, e))
  {
    UnregisterNext(s, e);
    var t, op := Next(s, e), s.ops[e.op];
    assert OpOk(op, s.channels);
    UnlistedOk(op, s.channels, t.channels);
    forall p | p in s.ops && p != e.op
      ensures Safe(s.ops[p], op.channel, {op.remaining[0]})
      ensures Clear(s.ops[p], t.ops[e.op]) && Clear(t.ops[e.op], s.ops[p])
    {
      UnlistedSafe(s.ops[p], op);
    }
    if s.m.session.client == Some(op.channel) {
      assert Spares(s.m.registry.byID, op, op.channel);
      UnlistedSpares(s.m.registry.byID, op);
    }
    TripKeeps(s.m.registry.byID, s.ops, s.channels, t.channels, s.m.session, e.op, t.ops[e.op], op.channel,
              {op.remaining[0]});
  }

  lemma UnlistedSpares(byID: Runtimes, op: Op)
    requires op.Unlisting? && op.remaining != [] && Spares(byID, op, op.channel)
    ensures Spares(byID, op.(remaining := op.remaining[1..]), op.channel)
    ensures forall id :: id in byID ==> op.remaining[0] !in byID[id].portKeys
  {
  }

  // ---- the session ----

  lemma ConnectEvent(s: Sys, e: Event)
    requires ReplayInv(s) && Enabled(s, e) && Good(s, e) && e.Connect?
    ensures ReplayInv(Next(s, e))
  {
    var t := Next(s, e);
    OpsOkGrow(s.ops, s.channels, t.channels, e.channel);
    forall o | o in s.ops ensures Snapshot(t.m.registry.byID, s.ops[o], t.m.session) {
      assert Snapshot(s.m.registry.byID, s.ops[o], s.m.session);
    }
  }

  lemma StopAllEvent(s: Sys, e: Event)
    requires ReplayInv(s) && Enabled(s, e) && e.StopAll?
    ensures ReplayInv(Next(s, e))
  {
    var t := Next(s, e);
    forall o | o in s.ops ensures Snapshot(t.m.registry.byID, s.ops[o], t.m.session) {
      assert Snapshot(s.m.registry.byID, s.ops[o], s.m.session);
    }
  }

  lemma LoseEvent(s: Sys, e: Event)
    requires ReplayInv(s) && Enabled(s, e) && e.Lose?
    ensures ReplayInv(Next(s, e))
  {
    var t := Next(s, e);
    OpsOkGrow(s.ops, s.channels, t.channels, e.channel);
    if s.m.session.client.Some? {
      AttachedKept(s.m.registry.byID, s.ops, s.channels, t.channels, s.m.session.client.value, {}, e.channel);
    }
  }

  /** What recovery begins with covers everything published. */
  lemma SnapshotCovers(r: Indexes, snapshot: Acks)
    requires RuntimesOk(r.byID) && IsSnapshot(r, snapshot)
    ensures Covered(r.byID, snapshot)
  {
    forall id, i | id in r.byID && 0 <= i < |r.byID[id].info.ports|
      ensures HeldPort(snapshot, id, r.byID[id].info.ports[i])
    {
      forall k | k in r.byID ensures KeysMatchPorts(r.byID[k]) && FitsUint16(r.byID[k].info.ports) {
        assert RuntimeOk(k, r.byID[k]);
      }
      var reg := Sent(r.byID[id].info.id, r.byID[id].info.ports[i]);
      assert WasSent(r, reg);
      ReplaysWhatWasSent(r, reg);
      assert reg.id in snapshot && snapshot[reg.id] == reg;
    }
  }

  lemma BeginRecoveryEvent(s: Sys, e: Event)
    requires ReplayInv(s) && Enabled(s, e) && e.BeginRecovery?
    ensures ReplayInv(Next(s, e))
  {
    var t := Next(s, e);
    var op := t.ops[e.op];
    SnapshotCovers(s.m.registry, e.snapshot);
    RecoveryBegun(s.m.registry.byID, s.ops, s.channels, s.m.session, e.op, op);
  }

  lemma RecoveryBegun(byID: Runtimes, ops: Ops, channels: Channels, session: Session<nat>, o: nat, op: Op)
    requires Kept(byID, ops, channels, session) && op.Recover?
    requires op.generation == session.generation + 1 && Covered(byID, op.snapshot)
    ensures Kept(byID, ops[o := op], channels, session.BeginRecovery())
  {
    ApartNext(ops, o, op);
    forall p | p in ops && p != o ensures Snapshot(byID, ops[p], session.BeginRecovery()) {
      assert Snapshot(byID, ops[p], session);
    }
  }

  lemma FailRecoveryEvent(s: Sys, e: Event)
    requires ReplayInv(s) && Enabled(s, e) && e.FailRecovery?
    ensures ReplayInv(Next(s, e))
  {
    var t := Next(s, e);
    CalmKeeps(s.m.registry.byID, s.ops, s.channels, s.m.session, e.op, Over);
    forall p | p in t.ops ensures Snapshot(t.m.registry.byID, t.ops[p], t.m.session) {
      assert Snapshot(s.m.registry.byID, t.ops[p], s.m.session);
    }
  }

  lemma RecoveryAttached(byID: Runtimes, ops: Ops, channels: Channels, session: Session<nat>, o: nat, c: nat)
    requires Kept(byID, ops, channels, session) && o in ops && ops[o].Recover? && c in channels
    requires session.recovering && session.generation == ops[o].generation
    requires channels[c].acked == ops[o].snapshot
    requires forall p :: p in ops && ops[p].Unlisting? ==> ops[p].channel != c
    ensures SessionOk(byID, ops[o := Over], channels, session.Attach(c))
    ensures Snapshots(byID, ops[o := Over], session.Attach(c))
  {
    assert Snapshot(byID, ops[o], session);
    forall p | p in ops ensures Snapshot(byID, ops[p], session.Attach(c)) {
      assert Snapshot(byID, ops[p], session);
    }
  }

  lemma EndRecoveryEvent(s: Sys, e: Event)
    requires ReplayInv(s) && Enabled(s, e) && e.EndRecovery?
    ensures ReplayInv(Next(s, e))
  {
    var t := Next(s, e);
    var byID, c := s.m.registry.byID, e.channel;
    OpsOkGrow(s.ops, s.channels, t.channels, c);
    if s.m.session.client.Some? {
      AttachedKept(byID, s.ops, s.channels, t.channels, s.m.session.client.value, {}, c);
    }
    CalmKeeps(byID, s.ops, t.channels, s.m.session, e.op, Over);
    if s.m.CanAttach(s.ops[e.op].generation) {
      forall p | p in s.ops && s.ops[p].Unlisting? ensures s.ops[p].channel != c {
        assert OpOk(s.ops[p], s.channels);
      }
      RecoveryAttached(byID, s.ops, t.channels, s.m.session, e.op, c);
    }
  }

  predicate AboutSession(e: Event) {
    e.Connect? || e.StopAll? || e.Lose? || e.BeginRecovery? || e.FailRecovery? || e.EndRecovery?
  }

  lemma SessionStep(s: Sys, e: Event)
    requires ReplayInv(s) && Enabled(s, e) && Good(s, e) && AboutSession(e)
    ensures ReplayInv(Next(s, e))
  {
    match e
    case Connect(_) => ConnectEvent(s, e);
    case StopAll => StopAllEvent(s, e);
    case Lose(_) => LoseEvent(s, e);
    case BeginRecovery(_, _) => BeginRecoveryEvent(s, e);
    case FailRecovery(_) => FailRecoveryEvent(s, e);
    case EndRecovery(_, _) => EndRecoveryEvent(s, e);
  }

  lemma OperationStep(s: Sys, e: Event)
    requires LL.Both(s) && ReplayInv(s) && Enabled(s, e) && !AboutSession(e) && !IsCalm(e)
    ensures ReplayInv(Next(s, e))
  {
    match e
    case Acknowledge(_) => AcknowledgeEvent(s, e);
    case Publish(_, _) => PublishEvent(s, e);
    case UndoPort(_, _) => UndoPortEvent(s, e);
    case BeginStop(_, _) => StopEvent(s, e);
    case FailStop(_) => StopEvent(s, e);
    case CommitStop(_, _) => CommitEvent(s, e);
    case UnregisterPort(_, _) => UnregisterEvent(s, e);
  }

  /** Every section of every operation keeps the invariant, in the runs in question. */
  lemma StepKeeps(s: Sys, e: Event)
    requires LL.Both(s) && ReplayInv(s) && Enabled(s, e) && Good(s, e)
    ensures ReplayInv(Next(s, e))
  {
    if AboutSession(e) {
      SessionStep(s, e);
    } else if IsCalm(e) {
      CalmEvent(s, e);
    } else {
      OperationStep(s, e);
    }
  }

  // ---- what the invariant says ----

  lemma HeldByNothing(key: Key, ports: seq<Port>)
    ensures Held(map[], key, ports, |ports|) <==> ports == []
  {
    if ports != [] {
      assert !HeldPort(map[], key, ports[0]);
    }
  }

  /** What a Start over published runtimes costs: on the new channel nothing is missing if and only if no published
      runtime has a port. */
  lemma ConnectNeedsEmptyRegistry(s: Sys, e: Event)
    requires Enabled(s, e) && e.Connect?
    ensures Covered(Next(s, e).m.registry.byID, Next(s, e).channels[e.channel].acked)
       <==> forall id :: id in s.m.registry.byID ==> s.m.registry.byID[id].info.ports == []
  {
    forall id | id in s.m.registry.byID
      ensures var ports := s.m.registry.byID[id].info.ports; Held(map[], id, ports, |ports|) <==> ports == []
    {
      HeldByNothing(id, s.m.registry.byID[id].info.ports);
    }
  }

  lemma EndNext(s: Sys, e: Event)
    requires Enabled(s, e) && e.EndRecovery? && s.m.CanAttach(s.ops[e.op].generation)
    ensures var t := Next(s, e);
            && t.m.session.client == Some(e.channel) && t.m.registry == s.m.registry
            && e.channel in t.channels && t.channels[e.channel].acked == s.ops[e.op].snapshot
  {
  }
}
