/** The manager's critical sections: internal/intercept/manager.go, start.go and control_session.go. Every
    section is a function of the state the mutex protects, and a method that carries it out on the fields. */
module Manager {
  import opened Wrappers
  import opened Intercepts
  import opened Ordering
  import opened Registry
  import opened HostRoutes
  import opened ControlClients

  /** The control channel and its recovery state. C is the type of connections. */
  datatype Session<C(==)> = Session(client: Option<C>, recovering: bool, generation: nat) {
    predicate Ready() {
      client.Some? && !recovering
    }

    function Connect(c: C): Session<C> {
      Session(Some(c), false, generation + 1)
    }

    function BeginRecovery(): Session<C> {
      Session(None, true, generation + 1)
    }

    predicate CanFinish(g: nat) {
      g == generation && recovering
    }

    function Attach(c: C): Session<C> {
      Session(Some(c), false, generation)
    }

    function RecoveryFailed(g: nat): Session<C> {
      if g == generation then this.(recovering := false) else this
    }

    function Stop(): Session<C> {
      Session(None, false, generation + 1)
    }
  }

  const NEW_SESSION_GENERATION: nat := 0

  datatype ManagerState<C(==)> = ManagerState(
    active: bool,
    stopping: bool,
    session: Session<C>,
    registry: Indexes,
    routes: Table)
  {
    /** Start: the dial succeeded. */
    function Connect(c: C): ManagerState<C> {
      ManagerState(true, false, session.Connect(c), registry, routes)
    }

    predicate CanReserve(key: Key) {
      active && session.Ready() && registry.GetByKey(key).None? && registry.CanReserve(key)
    }

    function Reserve(key: Key): ManagerState<C> {
      this.(registry := registry.Reserve(key))
    }

    /** The check a start makes before it publishes: nothing it relied on has changed. */
    predicate CanPublish(c: C, generation: nat, lost: bool, key: Key, reservation: nat) {
      active && session.client == Some(c) && session.generation == generation && session.Ready() && !lost
      && registry.Reserved(key, reservation)
    }

    function Publish(rt: Runtime, table: Table, key: Key, reservation: nat): ManagerState<C> {
      this.(routes := routes + table, registry := registry.Add(rt).Release(key, reservation))
    }

    function Unreserve(key: Key, reservation: nat): ManagerState<C> {
      this.(registry := registry.Release(key, reservation))
    }

    predicate CanStop(id: Key) {
      id in registry.byID && !registry.byID[id].stopping
    }

    function StopBegin(id: Key): ManagerState<C>
      requires CanStop(id)
    {
      this.(registry := registry.Mark(id, true))
    }

    /** registry.get(id) == runtime, by identity. */
    predicate IsFiled(id: Key, ref: nat) {
      id in registry.byID && registry.byID[id].ref == ref
    }

    function StopFailed(id: Key, ref: nat): ManagerState<C> {
      if IsFiled(id, ref) then this.(registry := registry.Mark(id, false)) else this
    }

    function StopCommit(id: Key, ref: nat): ManagerState<C> {
      if IsFiled(id, ref) then
        this.(registry := registry.Remove(id), routes := routes - KeySet(registry.byID[id].hostKeys))
      else this
    }

    function StopAll(): ManagerState<C> {
      ManagerState(false, true, session.Stop(), registry, routes)
    }

    predicate CanRecover() {
      active && !stopping && !session.recovering
    }

    function BeginRecovery(): ManagerState<C> {
      this.(session := session.BeginRecovery())
    }

    function RecoveryFailed(generation: nat): ManagerState<C> {
      this.(session := session.RecoveryFailed(generation))
    }

    predicate CanAttach(generation: nat) {
      active && !stopping && session.CanFinish(generation)
    }

    function Attach(c: C): ManagerState<C> {
      this.(session := session.Attach(c))
    }
  }

  /** A port is led to one place, whether its traffic comes by a host route or by an inbound stream: what the route of a
      published runtime's port says is what the registry finds for its sub-id. */
  lemma RouteIsTarget(rt: Runtime, p: Port)
    requires SubOf(rt.info.id, p) in rt.portKeys
    ensures var target := TargetOf(rt, SubOf(rt.info.id, p));
            RouteFor(rt.info.id, p, rt.portKeys, rt.primaryAddrs, rt.info.mode, rt.info.preview)
            == HostRoute(target.mode, target.preview, target.local, target.primaryAddr)
  {
  }

  const FIRST_PORT := 20000
  const TWO_31 := 0x8000_0000
  const TWO_32 := 0x1_0000_0000

  /** The n-th listen port handed out: a uint32 counter read as an int32. */
  function ListenPort(n: nat): (p: int)
    ensures -0x8000_0000 <= p < 0x8000_0000
  {
    AsInt32((FIRST_PORT + n) % TWO_32)
  }

  function AsInt32(u: int): (p: int)
    requires 0 <= u < TWO_32
    ensures -0x8000_0000 <= p < 0x8000_0000
    ensures u < 0x8000_0000 ==> p == u
  {
    if u < 0x8000_0000 then u else u - TWO_32
  }

  /** The first allocations give the ports from 20001 on, each once. */
  lemma PortsDiffer(m: nat, n: nat)
    requires 0 < m < n < TWO_31 - FIRST_PORT
    ensures ListenPort(m) == 20000 + m && ListenPort(m) < ListenPort(n)
  {
  }

  const PORT_BUDGET := 45535

  /** A listen port fits a uint16 exactly while the counter modulo 2^32 does: for the first 45535 allocations, and then
      for none until the counter comes round. */
  lemma PortBudget(n: nat)
    ensures 0 < ListenPort(n) <= 65535 <==> 0 < (FIRST_PORT + n) % TWO_32 <= 65535
    ensures n <= TWO_32 - FIRST_PORT ==> (0 < ListenPort(n) <= 65535 <==> n <= PORT_BUDGET)
  {
  }

  class ControlSession {
    var client: ControlClient?
    var recovering: bool
    var generation: nat

    function State(): Session<ControlClient>
      reads this
    {
      var current: Option<ControlClient> := if client == null then None else var c: ControlClient := client; Some(c);
      Session(current, recovering, generation)
    }

    constructor ()
      ensures State() == Session(None, false, NEW_SESSION_GENERATION)
    {
      client, recovering, generation := null, false, NEW_SESSION_GENERATION;
    }

    method Attach(c: ControlClient)
      modifies this
      ensures State() == old(State()).Attach(c)
    {
      client := c;
      recovering := false;
    }

    /** connect: the generation moves only if the dial succeeds. */
    method Connect() returns (ok: bool)
      modifies this
      ensures !ok ==> State() == old(State())
      ensures ok ==> client != null && fresh(client) && State() == old(State()).Connect(client)
      ensures ok ==> client.acked == map[]
    {
      ok := *;
      if !ok {
        return;
      }
      var c := new ControlClient();
      generation := generation + 1;
      Attach(c);
    }

    method BeginRecovery() returns (previous: ControlClient?, g: nat)
      modifies this
      ensures previous == old(client) && g == generation
      ensures State() == old(State()).BeginRecovery()
    {
      generation := generation + 1;
      recovering := true;
      previous := client;
      client := null;
      g := generation;
    }

    method FinishRecovery(g: nat, c: ControlClient) returns (ok: bool)
      modifies this
      ensures ok <==> g == old(generation) && old(recovering)
      ensures State() == if ok then old(State()).Attach(c) else old(State())
    {
      if g != generation || !recovering {
        return false;
      }
      Attach(c);
      return true;
    }

    method RecoveryFailed(g: nat)
      modifies this
      ensures State() == old(State()).RecoveryFailed(g)
    {
      if g == generation {
        recovering := false;
      }
    }

    method Stop() returns (previous: ControlClient?)
      modifies this
      ensures previous == old(client) && State() == old(State()).Stop()
    {
      generation := generation + 1;
      previous := client;
      client := null;
      recovering := false;
    }
  }

  class InterceptManager {
    var active: bool
    var stopping: bool
    var nextPort: int
    const control: ControlSession
    const registry: RuntimeRegistry
    const routes: HostRouteRegistry

    function State(): ManagerState<ControlClient>
      reads this, control, registry, routes
    {
      ManagerState(active, stopping, control.State(), registry.State(), routes.byTarget)
    }

    constructor ()
      ensures State() == ManagerState(false, false, Session(None, false, NEW_SESSION_GENERATION), EMPTY, map[])
      ensures nextPort == FIRST_PORT
      ensures fresh(control) && fresh(registry) && fresh(routes)
    {
      active, stopping, nextPort := false, false, FIRST_PORT;
      control := new ControlSession();
      registry := new RuntimeRegistry();
      routes := new HostRouteRegistry();
    }

    /** allocateListenPort, n allocations after the first. */
    method AllocateListenPort(ghost n: nat) returns (port: int)
      requires nextPort == (FIRST_PORT + n) % TWO_32
      modifies this`nextPort
      ensures nextPort == (FIRST_PORT + n + 1) % TWO_32
      ensures port == ListenPort(n + 1)
    {
      nextPort := (nextPort + 1) % TWO_32;
      port := AsInt32(nextPort);
    }

    /** Start: a second start changes nothing, and neither does a failed dial. */
    method Start() returns (ok: bool)
      modifies this`active, this`stopping, control
      ensures old(active) ==> !ok
      ensures !ok ==> State() == old(State())
      ensures ok ==> control.client != null && fresh(control.client) && control.client.acked == map[]
      ensures ok ==> State() == old(State()).Connect(control.client)
    {
      if active {
        return false;
      }
      ok := control.Connect();
      if !ok {
        return;
      }
      active := true;
      stopping := false;
    }

    /** The first section of a start. */
    method BeginStart(key: Key) returns (ok: bool, client: ControlClient?, generation: nat, reservation: nat)
      modifies registry
      ensures ok <==> old(State()).CanReserve(key)
      ensures State() == if ok then old(State()).Reserve(key) else old(State())
      ensures ok ==> client != null && client == control.client && generation == control.generation
      ensures ok ==> reservation == registry.nextReservation && registry.State().Reserved(key, reservation)
    {
      client, generation, reservation := control.client, control.generation, 0;
      if !active || client == null || control.recovering {
        return false, client, generation, reservation;
      }
      if registry.State().GetByKey(key).Some? {
        return false, client, generation, reservation;
      }
      reservation, ok := registry.Reserve(key);
    }

    /** The last section of a start: publish if nothing changed, or leave everything as it is. */
    method FinishStart(client: ControlClient, generation: nat, key: Key, reservation: nat,
                       rt: Runtime, hosts: seq<string>)
      returns (ok: bool, published: Runtime)
      modifies registry, routes
      ensures ok <==> old(State()).CanPublish(client, generation, client.closed || client.broken, key, reservation)
      ensures !ok ==> State() == old(State())
      ensures ok ==>
                var table := InstallTable(hosts, rt.info.id, rt.info.ports, rt.portKeys, rt.primaryAddrs,
                                          rt.info.mode, rt.info.preview);
                && published == rt.(hostKeys := published.hostKeys) && KeySet(published.hostKeys) == table.Keys
                && State() == old(State()).Publish(published, table, key, reservation)
    {
      published := rt;
      if !active || control.client != client || control.generation != generation || control.recovering
         || client.closed || client.broken || !registry.State().Reserved(key, reservation)
      {
        return false, published;
      }
      var hostKeys := routes.Install(hosts, rt.info.id, rt.info.ports, rt.portKeys, rt.primaryAddrs,
                                     rt.info.mode, rt.info.preview);
      published := rt.(hostKeys := hostKeys);
      registry.Add(published);
      registry.Release(key, reservation);
      return true, published;
    }

    method ReleaseStartReservation(key: Key, reservation: nat)
      modifies registry
      ensures State() == old(State()).Unreserve(key, reservation)
    {
      registry.Release(key, reservation);
    }

    method BeginStop(id: Key) returns (runtime: Option<Runtime>)
      modifies registry
      ensures runtime.Some? <==> id in old(registry.byID) && !old(registry.byID)[id].stopping
      ensures runtime.Some? ==> runtime.value == old(State()).registry.byID[id]
      ensures State() == if runtime.Some? then old(State()).StopBegin(id) else old(State())
    {
      if id !in registry.byID {
        return None;
      }
      runtime := Some(registry.byID[id]);
      if runtime.value.stopping {
        return None;
      }
      registry.Mark(id, true);
    }

    method StopFailed(id: Key, ref: nat)
      modifies registry
      ensures State() == old(State()).StopFailed(id, ref)
    {
      if id in registry.byID && registry.byID[id].ref == ref {
        registry.Mark(id, false);
      }
    }

    /** The last section of a stop; `client` is where the ports are still to be unregistered. */
    method CommitStop(id: Key, ref: nat) returns (committed: bool, client: ControlClient?)
      modifies registry, routes
      ensures committed <==> old(State()).IsFiled(id, ref)
      ensures State() == old(State()).StopCommit(id, ref)
      ensures client == if committed then control.client else null
    {
      if id !in registry.byID || registry.byID[id].ref != ref {
        return false, null;
      }
      var removed := registry.Remove(id);
      routes.Remove(removed.value.hostKeys);
      return true, control.client;
    }

    method BeginStopAll() returns (ids: set<Key>, client: ControlClient?)
      modifies this`active, this`stopping, control
      ensures ids == registry.byID.Keys && client == old(control.client)
      ensures !active && stopping && control.client == null && !control.recovering
      ensures State() == old(State()).StopAll()
    {
      stopping := true;
      ids := registry.byID.Keys;
      client := control.Stop();
      active := false;
    }

    /** The first section of a recovery: the registrations to replay are read as it begins. */
    method BeginRecovery(before: SubOrder)
      returns (ok: bool, registrations: seq<Registration>, previous: ControlClient?, generation: nat)
      requires StrictTotal(before) && OwnSubs(registry.State())
      modifies control
      ensures ok <==> active && !stopping && !old(control.recovering)
      ensures State() == if ok then old(State()).BeginRecovery() else old(State())
      ensures ok ==> generation == control.generation && previous == old(control.client)
      ensures ok ==> forall reg :: reg in registrations <==> Replays(registry.State(), reg)
      ensures ok ==> forall i, j :: 0 <= i < j < |registrations| ==> registrations[i].id != registrations[j].id
    {
      registrations, previous, generation := [], null, 0;
      if !active || stopping || control.recovering {
        return false, registrations, previous, generation;
      }
      registrations := registry.Registrations(before);
      previous, generation := control.BeginRecovery();
      return true, registrations, previous, generation;
    }

    method FinishRecovery(generation: nat, client: ControlClient) returns (ok: bool)
      modifies control
      ensures ok <==> active && !stopping && old(control.recovering) && generation == old(control.generation)
      ensures State() == if ok then old(State()).Attach(client) else old(State())
    {
      if !active || stopping {
        return false;
      }
      ok := control.FinishRecovery(generation, client);
    }

    /** A whole recovery that nothing interrupts. It comes back with every port of every published runtime
        acknowledged on the new connection, or with the session not ready. */
    method Recover(before: SubOrder, w: World) returns (ok: bool)
      requires StrictTotal(before) && OwnSubs(registry.State())
      modifies control, if control.client == null then {} else {control.client}
      ensures old(State()).CanRecover() ==>
                if ok then
                  control.State().Ready() && fresh(control.client)
                  && forall reg: Registration :: Replays(registry.State(), reg) ==>
                       reg.id in control.client.acked && control.client.acked[reg.id] == reg
                else
                  control.client == null && !control.recovering
      ensures !old(State()).CanRecover() ==> !ok && State() == old(State())
      ensures old(State()).CanRecover() ==>
                var previous := old(control.client); previous != null ==> previous.closed && previous != control.client
      ensures registry.State() == old(registry.State())
    {
      var begun, registrations, previous, generation := BeginRecovery(before);
      if !begun {
        return false;
      }
      if previous != null {
        previous.Close();
      }
      var client, dialled := Redial(registrations, w);
      if client == null {
        control.RecoveryFailed(generation);
        return false;
      }
      ok := FinishRecovery(generation, client);
      forall reg: Registration | Replays(registry.State(), reg)
        ensures reg.id in client.acked && client.acked[reg.id] == reg
      {
        var i :| 0 <= i < |registrations| && registrations[i] == reg;
        RegMapHolds(registrations, i);
      }
    }
  }
}
