/** The intercept lifecycle as a state machine. One event is one critical section of the manager, one control
    round trip, one cluster call or the return of one; whole operations interleave between them in every possible
    way. */
module Lifecycle {
  import opened Wrappers
  import opened Intercepts
  import opened Registry
  import opened HostRoutes
  import opened ControlClients
  import opened Manager

  /** A control connection with its ledger of acknowledged registrations. */
  datatype Channel = Channel(acked: map<SubId, Registration>, lost: bool)

  datatype Phase = Preparing | Granted | Published | Undoing | Finished

  /** Where a stop is: its release call is out, or has come back with or without success. */
  datatype Stage = Releasing | Released | Refused

  /** An operation between its critical sections, with what it remembers. */
  datatype Op =
    | Start(key: Key, reservation: nat, channel: nat, generation: nat,
            ports: seq<Port>, registered: seq<SubId>, leased: bool, phase: Phase)
    | Stop(id: Key, ref: nat, stage: Stage)
    | Unlisting(channel: nat, remaining: seq<SubId>)
    | Recover(generation: nat, snapshot: map<SubId, Registration>)
    | Over

  /** What has happened to the lease a start obtained: rollback releases, release calls of stops that have not come
      back, and whether one has come back with success. */
  datatype Lease = Lease(rollbacks: nat, inFlight: nat, freed: bool)

  datatype Sys = Sys(
    m: ManagerState<nat>,
    channels: map<nat, Channel>,
    ops: map<nat, Op>,
    leases: map<nat, Lease>,
    tables: map<nat, Table>,
    handedOut: nat)

  /** What a start knows only when it publishes. */
  datatype Details = Details(
    mode: Mode, preview: bool, locals: seq<PortMapping>, primaryAddrs: map<SubId, string>,
    hosts: seq<string>, hostKeys: seq<HostKey>)

  datatype Event =
    | Connect(channel: nat)
    | StopAll
    | Lose(channel: nat)
    | BeginRecovery(op: nat, snapshot: map<SubId, Registration>)
    | FailRecovery(op: nat)
    | EndRecovery(op: nat, channel: nat)
    | Reserve(op: nat, key: Key)
    | Allocate(op: nat, network: Net, servicePort: int)
    | Acknowledge(op: nat)
    | Grant(op: nat)
    | Abandon(op: nat)
    | Publish(op: nat, details: Details)
    | UndoLease(op: nat)
    | UndoPort(op: nat, acked: bool)
    | Unreserve(op: nat)
    | BeginStop(op: nat, id: Key)
    | ReleaseReturns(op: nat, ok: bool)
    | FailStop(op: nat)
    | CommitStop(op: nat, order: seq<SubId>)
    | UnregisterPort(op: nat, acked: bool)

  /** The sections of a start. */
  predicate OfStart(e: Event) {
    e.Reserve? || e.Allocate? || e.Acknowledge? || e.Grant? || e.Abandon? || e.Publish? || e.UndoLease? || e.UndoPort?
    || e.Unreserve?
  }

  const INITIAL := Sys(
    ManagerState(false, false, Session(None, false, NEW_SESSION_GENERATION), EMPTY, map[]),
    map[], map[], map[], map[], 0)

  /** A start that has its reservation and has not published. */
  predicate Holding(op: Op) {
    op.Start? && (op.phase.Preparing? || op.phase.Granted? || op.phase.Undoing?)
  }

  predicate IsStart(s: Sys, o: nat, phase: Phase) {
    o in s.ops && s.ops[o].Start? && s.ops[o].phase == phase && s.ops[o].channel in s.channels
  }

  /** The port a start asks the Gateway for next. */
  predicate CanAcknowledge(s: Sys, o: nat) {
    && IsStart(s, o, Preparing)
    && var op := s.ops[o];
       |op.registered| < |op.ports|
       && var sent := Sent(op.key, op.ports[|op.registered|]);
          !s.channels[op.channel].lost && sent.id !in s.channels[op.channel].acked
          && sent.listenPort >= MIN_LISTEN_PORT
  }

  function RuntimeOf(o: nat, op: Op, d: Details): (rt: Runtime)
    requires op.Start?
  {
    Runtime(o, Info(op.key, op.key, d.mode, d.preview, op.ports), LocalKeys(op.key, op.ports, d.locals),
            d.primaryAddrs, d.hostKeys, false)
  }

  function TableOf(rt: Runtime, hosts: seq<string>): (t: Table) {
    InstallTable(hosts, rt.info.id, rt.info.ports, rt.portKeys, rt.primaryAddrs, rt.info.mode, rt.info.preview)
  }

  predicate CanPublish(s: Sys, o: nat, d: Details) {
    && IsStart(s, o, Granted)
    && var op := s.ops[o];
       s.m.CanPublish(op.channel, op.generation, s.channels[op.channel].lost, op.key, op.reservation)
       && KeySet(d.hostKeys) == TableOf(RuntimeOf(o, op, d), d.hosts).Keys
  }

  /** The snapshot a recovery replays is what the registry holds when it begins. */
  ghost predicate IsSnapshot(r: Indexes, snapshot: map<SubId, Registration>) {
    (forall sub :: sub in snapshot ==> snapshot[sub].id == sub)
    && forall reg: Registration :: (reg.id in snapshot && snapshot[reg.id] == reg) <==> Replays(r, reg)
  }

  predicate IsOp(s: Sys, o: nat) {
    o in s.ops
  }

  predicate IsStop(s: Sys, o: nat, stage: Stage) {
    o in s.ops && s.ops[o].Stop? && s.ops[o].stage == stage
  }

  ghost predicate Enabled(s: Sys, e: Event) {
    match e
    case Connect(c) => !s.m.active && c !in s.channels
    case StopAll => true
    case Lose(c) => c in s.channels
    case BeginRecovery(o, snapshot) => o !in s.ops && s.m.CanRecover() && IsSnapshot(s.m.registry, snapshot)
    case FailRecovery(o) => IsOp(s, o) && s.ops[o].Recover?
    case EndRecovery(o, c) => IsOp(s, o) && s.ops[o].Recover? && c !in s.channels
    case Reserve(o, key) => o !in s.ops && s.m.CanReserve(key)
    case Allocate(o, _, _) => IsStart(s, o, Preparing) && s.ops[o].registered == []
    case Acknowledge(o) => CanAcknowledge(s, o)
    case Grant(o) =>
      IsStart(s, o, Preparing) && s.ops[o].ports != [] && |s.ops[o].registered| == |s.ops[o].ports|
    case Abandon(o) => IsStart(s, o, Preparing) || IsStart(s, o, Granted)
    case Publish(o, d) => CanPublish(s, o, d)
    case UndoLease(o) => IsStart(s, o, Undoing) && s.ops[o].leased && o in s.leases
    case UndoPort(o, acked) =>
      IsStart(s, o, Undoing) && !s.ops[o].leased && s.ops[o].registered != []
      && acked == !s.channels[s.ops[o].channel].lost
    case Unreserve(o) =>
      IsStart(s, o, Published) || (IsStart(s, o, Undoing) && !s.ops[o].leased && s.ops[o].registered == [])
    case BeginStop(o, id) => o !in s.ops && s.m.CanStop(id) && s.m.registry.byID[id].ref in s.leases
    case ReleaseReturns(o, _) => IsStop(s, o, Releasing) && s.ops[o].ref in s.leases
    case FailStop(o) => IsStop(s, o, Refused)
    case CommitStop(o, order) =>
      IsStop(s, o, Released) && NoRepeats(order)
      && (s.m.IsFiled(s.ops[o].id, s.ops[o].ref) ==>
            IdSet(order) == s.m.registry.byID[s.ops[o].id].portKeys.Keys)
    case UnregisterPort(o, acked) =>
      IsOp(s, o) && s.ops[o].Unlisting? && s.ops[o].remaining != [] && s.ops[o].channel in s.channels
      && acked == !s.channels[s.ops[o].channel].lost
  }

  function SetOp(s: Sys, o: nat, op: Op): Sys {
    s.(ops := s.ops[o := op])
  }

  function Drop(c: Channel, id: SubId, acked: bool): Channel {
    if acked then c.(acked := c.acked - {id}) else c
  }

  function LastId(ids: seq<SubId>): SubId
    requires ids != []
  {
    ids[|ids| - 1]
  }

  ghost function Next(s: Sys, e: Event): (t: Sys)
    requires Enabled(s, e)
  {
    match e
    case Connect(c) => s.(m := s.m.Connect(c), channels := s.channels[c := Channel(map[], false)])
    case StopAll => s.(m := s.m.StopAll())
    case Lose(c) => s.(channels := s.channels[c := s.channels[c].(lost := true)])
    case BeginRecovery(o, snapshot) =>
      var m := s.m.BeginRecovery();
      SetOp(s, o, Recover(m.session.generation, snapshot)).(m := m)
    case FailRecovery(o) => SetOp(s, o, Over).(m := s.m.RecoveryFailed(s.ops[o].generation))
    case EndRecovery(o, c) =>
      var attach := s.m.CanAttach(s.ops[o].generation);
      SetOp(s, o, Over).(
        m := if attach then s.m.Attach(c) else s.m,
        channels := s.channels[c := Channel(s.ops[o].snapshot, !attach)])
    case Reserve(o, key) =>
      var m := s.m.Reserve(key);
      SetOp(s, o, Start(key, m.registry.nextReservation, s.m.session.client.value, s.m.session.generation,
                        [], [], false, Preparing)).(m := m)
    case Allocate(o, network, servicePort) =>
      var port := Port(network, servicePort, ListenPort(s.handedOut + 1));
      SetOp(s, o, s.ops[o].(ports := s.ops[o].ports + [port])).(handedOut := s.handedOut + 1)
    case Acknowledge(o) =>
      var op := s.ops[o];
      var sent := Sent(op.key, op.ports[|op.registered|]);
      var channel := s.channels[op.channel];
      SetOp(s, o, op.(registered := op.registered + [sent.id])).(
        channels := s.channels[op.channel := channel.(acked := channel.acked[sent.id := sent])])
    case Grant(o) =>
      SetOp(s, o, s.ops[o].(leased := true, phase := Granted)).(leases := s.leases[o := Lease(0, 0, false)])
    case Abandon(o) => SetOp(s, o, s.ops[o].(phase := Undoing))
    case Publish(o, d) =>
      var op := s.ops[o];
      var rt := RuntimeOf(o, op, d);
      var table := TableOf(rt, d.hosts);
      SetOp(s, o, op.(phase := Published)).(
        m := s.m.Publish(rt, table, op.key, op.reservation), tables := s.tables[o := table])
    case UndoLease(o) =>
      var l := s.leases[o];
      SetOp(s, o, s.ops[o].(leased := false)).(leases := s.leases[o := l.(rollbacks := l.rollbacks + 1)])
    case UndoPort(o, acked) =>
      var op := s.ops[o];
      SetOp(s, o, op.(registered := op.registered[..|op.registered| - 1])).(
        channels := s.channels[op.channel := Drop(s.channels[op.channel], LastId(op.registered), acked)])
    case Unreserve(o) =>
      SetOp(s, o, s.ops[o].(phase := Finished)).(m := s.m.Unreserve(s.ops[o].key, s.ops[o].reservation))
    case BeginStop(o, id) =>
      var ref := s.m.registry.byID[id].ref;
      var l := s.leases[ref];
      SetOp(s, o, Stop(id, ref, Releasing)).(
        m := s.m.StopBegin(id), leases := s.leases[ref := l.(inFlight := l.inFlight + 1)])
    case ReleaseReturns(o, ok) =>
      var op := s.ops[o];
      var l := s.leases[op.ref];
      SetOp(s, o, op.(stage := if ok then Released else Refused)).(
        leases := s.leases[op.ref := Lease(l.rollbacks, if l.inFlight > 0 then l.inFlight - 1 else 0, l.freed || ok)])
    case FailStop(o) => SetOp(s, o, Over).(m := s.m.StopFailed(s.ops[o].id, s.ops[o].ref))
    case CommitStop(o, order) =>
      var op := s.ops[o];
      var next := if s.m.IsFiled(op.id, op.ref) && s.m.session.client.Some?
                  then Unlisting(s.m.session.client.value, order) else Over;
      SetOp(s, o, next).(m := s.m.StopCommit(op.id, op.ref))
    case UnregisterPort(o, acked) =>
      var op := s.ops[o];
      SetOp(s, o, op.(remaining := op.remaining[1..])).(
        channels := s.channels[op.channel := Drop(s.channels[op.channel], op.remaining[0], acked)])
  }

  /** A run: each event is enabled where it happens. */
  ghost predicate Runs(s: Sys, events: seq<Event>)
    decreases |events|
  {
    events == [] || (Enabled(s, events[0]) && Runs(Next(s, events[0]), events[1..]))
  }

  ghost function After(s: Sys, events: seq<Event>): (t: Sys)
    requires Runs(s, events)
    decreases |events|
  {
    if events == [] then s else After(Next(s, events[0]), events[1..])
  }
}
