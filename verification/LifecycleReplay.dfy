/** Registrations over all interleavings: whenever the session is ready, every port of every published runtime is
    acknowledged on the attached channel and has not been unregistered since. */
module LifecycleReplay {
  import opened Wrappers
  import opened Intercepts
  import opened Registry
  import opened ControlClients
  import opened Manager
  import opened Lifecycle

  type Runtimes = map<Key, Runtime>
  type Acks = map<SubId, Registration>
  type Channels = map<nat, Channel>
  type Ops = map<nat, Op>

  predicate HeldPort(acked: Acks, key: Key, p: Port) {
    SubOf(key, p) in acked && acked[SubOf(key, p)] == Sent(key, p)
  }

  /** The first n ports of an intercept are acknowledged as they were sent. */
  predicate Held(acked: Acks, key: Key, ports: seq<Port>, n: nat)
    requires n <= |ports|
  {
    forall i :: 0 <= i < n ==> HeldPort(acked, key, ports[i])
  }

  /** Every port of every published runtime is acknowledged. */
  ghost predicate Covered(byID: Runtimes, acked: Acks) {
    forall id :: id in byID ==> Held(acked, id, byID[id].info.ports, |byID[id].info.ports|)
  }

  ghost predicate RuntimeOk(id: Key, rt: Runtime) {
    rt.info.id == id && rt.info.ports != [] && KeysMatchPorts(rt) && FitsUint16(rt.info.ports)
  }

  ghost predicate RuntimesOk(byID: Runtimes) {
    forall id :: id in byID ==> RuntimeOk(id, byID[id])
  }

  /** A start that has not published: the ports it registered are acknowledged where it registered them. */
  ghost predicate StartOk(op: Op, channels: Channels)
    requires op.Start?
  {
    && FitsUint16(op.ports)
    && |op.registered| <= |op.ports| && (op.phase.Granted? ==> 0 < |op.registered| == |op.ports|)
    && NoRepeats(op.registered)
    && (forall i :: 0 <= i < |op.registered| ==> op.registered[i] == SubOf(op.key, op.ports[i]))
    && op.channel in channels && Held(channels[op.channel].acked, op.key, op.ports, |op.registered|)
  }

  /** A stop that is unregistering: what it has still to drop is acknowledged where it drops it. */
  ghost predicate UnlistOk(op: Op, channels: Channels)
    requires op.Unlisting?
  {
    NoRepeats(op.remaining) && op.channel in channels
    && forall i :: 0 <= i < |op.remaining| ==> op.remaining[i] in channels[op.channel].acked
  }

  ghost predicate OpOk(op: Op, channels: Channels) {
    (Holding(op) ==> StartOk(op, channels)) && (op.Unlisting? ==> UnlistOk(op, channels))
  }

  ghost predicate OpsOk(ops: Ops, channels: Channels) {
    forall o :: o in ops ==> OpOk(ops[o], channels)
  }

  predicate Disjoint(a: seq<SubId>, b: seq<SubId>) {
    forall i, j :: 0 <= i < |a| && 0 <= j < |b| ==> a[i] != b[j]
  }

  /** What a stop is dropping on a channel is neither a start's nor another stop's on it. */
  predicate Clear(a: Op, b: Op) {
    a.Unlisting? ==>
      && (Holding(b) && b.channel == a.channel ==> Disjoint(a.remaining, b.registered))
      && (b.Unlisting? && b.channel == a.channel ==> Disjoint(a.remaining, b.remaining))
  }

  ghost predicate Apart(ops: Ops) {
    forall o, p :: o in ops && p in ops && o != p ==> Clear(ops[o], ops[p])
  }

  predicate NoneIn(ids: seq<SubId>, keys: map<SubId, PortMapping>) {
    forall i :: 0 <= i < |ids| ==> ids[i] !in keys
  }

  /** Nothing being dropped on the attached channel belongs to a published runtime. */
  ghost predicate Spares(byID: Runtimes, op: Op, c: nat) {
    op.Unlisting? && op.channel == c ==> forall id :: id in byID ==> NoneIn(op.remaining, byID[id].portKeys)
  }

  ghost predicate AllSpare(byID: Runtimes, ops: Ops, c: nat) {
    forall o :: o in ops ==> Spares(byID, ops[o], c)
  }

  /** A ready session: nothing is missing on the attached channel, and nothing of use is being dropped there. */
  ghost predicate Attached(byID: Runtimes, ops: Ops, channels: Channels, c: nat) {
    c in channels && Covered(byID, channels[c].acked) && AllSpare(byID, ops, c)
  }

  /** The recovery of the current generation will replay everything that is published. */
  ghost predicate Snapshot(byID: Runtimes, op: Op, session: Session<nat>) {
    op.Recover? ==>
      op.generation <= session.generation
      && (session.recovering && op.generation == session.generation ==> Covered(byID, op.snapshot))
  }

  ghost predicate Snapshots(byID: Runtimes, ops: Ops, session: Session<nat>) {
    forall o :: o in ops ==> Snapshot(byID, ops[o], session)
  }

  ghost predicate SessionOk(byID: Runtimes, ops: Ops, channels: Channels, session: Session<nat>) {
    session.client.Some? ==> !session.recovering && Attached(byID, ops, channels, session.client.value)
  }

  ghost predicate ReplayInv(s: Sys) {
    && RuntimesOk(s.m.registry.byID)
    && OpsOk(s.ops, s.channels)
    && Apart(s.ops)
    && SessionOk(s.m.registry.byID, s.ops, s.channels, s.m.session)
    && Snapshots(s.m.registry.byID, s.ops, s.m.session)
  }

  /** The steps of the runs in question: Start finds an empty registry, and the ports are not used up. */
  predicate Good(s: Sys, e: Event) {
    (e.Connect? ==> s.m.registry.byID == map[]) && (e.Allocate? ==> s.handedOut < PORT_BUDGET)
  }

  // ---- channels that lose at most some registrations ----

  ghost predicate Keeps(a: Acks, b: Acks, dropped: set<SubId>) {
    forall x :: x in a && x !in dropped ==> x in b && b[x] == a[x]
  }

  ghost predicate ChannelsKeep(a: Channels, b: Channels, c: nat, dropped: set<SubId>) {
    forall k :: k in a ==> k in b && Keeps(a[k].acked, b[k].acked, if k == c then dropped else {})
  }

  /** None of the dropped ids is one the operation relies on. */
  predicate Safe(op: Op, c: nat, dropped: set<SubId>) {
    && (Holding(op) && op.channel == c ==> forall i :: 0 <= i < |op.registered| ==> op.registered[i] !in dropped)
    && (op.Unlisting? && op.channel == c ==> forall i :: 0 <= i < |op.remaining| ==> op.remaining[i] !in dropped)
  }

  lemma HeldKept(a: Acks, b: Acks, dropped: set<SubId>, key: Key, ports: seq<Port>, n: nat)
    requires n <= |ports| && Held(a, key, ports, n) && Keeps(a, b, dropped)
    requires forall i :: 0 <= i < n ==> SubOf(key, ports[i]) !in dropped
    ensures Held(b, key, ports, n)
  {
    forall i | 0 <= i < n ensures HeldPort(b, key, ports[i]) {
      assert HeldPort(a, key, ports[i]);
    }
  }

  lemma OpOkKept(op: Op, a: Channels, b: Channels, c: nat, dropped: set<SubId>)
    requires OpOk(op, a) && ChannelsKeep(a, b, c, dropped) && Safe(op, c, dropped)
    ensures OpOk(op, b)
  {
    if Holding(op) {
      HeldKept(a[op.channel].acked, b[op.channel].acked, if op.channel == c then dropped else {}, op.key, op.ports,
               |op.registered|);
    }
  }

  lemma OpsOkNext(ops: Ops, a: Channels, b: Channels, o: nat, op: Op, c: nat, dropped: set<SubId>)
    requires OpsOk(ops, a) && ChannelsKeep(a, b, c, dropped) && OpOk(op, b)
    requires forall p :: p in ops && p != o ==> Safe(ops[p], c, dropped)
    ensures OpsOk(ops[o := op], b)
  {
    forall p | p in ops && p != o ensures OpOk(ops[p], b) {
      OpOkKept(ops[p], a, b, c, dropped);
    }
  }

  lemma OpsOkGrow(ops: Ops, a: Channels, b: Channels, c: nat)
    requires OpsOk(ops, a) && ChannelsKeep(a, b, c, {})
    ensures OpsOk(ops, b)
  {
    forall p | p in ops ensures OpOk(ops[p], b) {
      OpOkKept(ops[p], a, b, c, {});
    }
  }

  lemma ApartNext(ops: Ops, o: nat, op: Op)
    requires Apart(ops)
    requires forall p :: p in ops && p != o ==> Clear(op, ops[p]) && Clear(ops[p], op)
    ensures Apart(ops[o := op])
  {
  }

  lemma CoveredKept(byID: Runtimes, a: Acks, b: Acks, dropped: set<SubId>)
    requires RuntimesOk(byID) && Covered(byID, a) && Keeps(a, b, dropped)
    requires forall id, x :: id in byID && x in dropped ==> x !in byID[id].portKeys
    ensures Covered(byID, b)
  {
    forall id | id in byID ensures Held(b, id, byID[id].info.ports, |byID[id].info.ports|) {
      assert RuntimeOk(id, byID[id]);
      HeldKept(a, b, dropped, id, byID[id].info.ports, |byID[id].info.ports|);
    }
  }

  lemma AttachedKept(byID: Runtimes, ops: Ops, a: Channels, b: Channels, c: nat, dropped: set<SubId>, on: nat)
    requires RuntimesOk(byID) && Attached(byID, ops, a, c) && ChannelsKeep(a, b, on, dropped)
    requires on == c ==> forall id, x :: id in byID && x in dropped ==> x !in byID[id].portKeys
    ensures Attached(byID, ops, b, c)
  {
    CoveredKept(byID, a[c].acked, b[c].acked, if c == on then dropped else {});
  }
}
