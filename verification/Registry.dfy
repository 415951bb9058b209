/** The indexes of running and starting intercepts: internal/intercept/registry.go. */
module Registry {
  import opened Wrappers
  import opened Intercepts
  import opened Ordering

  /** The registry's contents, as a value. */
  datatype Indexes = Indexes(
    byID: map<Key, Runtime>,
    byKey: map<Key, Key>,
    starting: map<Key, nat>,
    nextReservation: nat)
  {
    function Get(id: Key): Option<Runtime> {
      if id in byID then Some(byID[id]) else None
    }

    /** A missing key reads as the empty id, as a Go map gives it. */
    function GetByKey(key: Key): Option<Runtime> {
      Get(if key in byKey then byKey[key] else "")
    }

    predicate Reserved(key: Key, reservation: nat) {
      key in starting && starting[key] == reservation && reservation != 0
    }

    predicate CanReserve(key: Key) {
      key !in byKey && key !in starting
    }

    function Reserve(key: Key): Indexes {
      this.(starting := starting[key := nextReservation + 1], nextReservation := nextReservation + 1)
    }

    function Release(key: Key, reservation: nat): Indexes {
      if Reserved(key, reservation) then this.(starting := starting - {key}) else this
    }

    function Add(runtime: Runtime): Indexes {
      this.(byID := byID[runtime.info.id := runtime], byKey := byKey[runtime.info.key := runtime.info.id])
    }

    function Remove(id: Key): Indexes {
      if id in byID then this.(byID := byID - {id}, byKey := byKey - {byID[id].info.key}) else this
    }

    /** The `stopping` flag of a published runtime. */
    function Mark(id: Key, stopping: bool): Indexes
      requires id in byID
    {
      this.(byID := byID[id := byID[id].(stopping := stopping)])
    }
  }

  const EMPTY := Indexes(map[], map[], map[], 0)

  /** registrationFromRuntime: the first port whose sub-id this is, if its listen port fits. */
  function RegistrationOf(id: Key, ports: seq<Port>, sub: SubId): (r: Option<Registration>) {
    if ports == [] then None
    else if SubOf(id, ports[0]) != sub then RegistrationOf(id, ports[1..], sub)
    else if ports[0].listenPort <= 0 || ports[0].listenPort > 65535 then None
    else Some(Registration(sub, ports[0].network, ports[0].listenPort))
  }

  /** What registerPorts sends for one port. */
  function Sent(id: Key, p: Port): (r: Registration) {
    Registration(SubOf(id, p), p.network, AsUint16(p.listenPort))
  }

  /** What is sent names the port's own network and, if it fits, its own listen port, under an id of that network. */
  lemma SentIsOwn(id: Key, p: Port)
    ensures var sent := Sent(id, p);
            && sent.network == p.network == sent.id.network && sent.id.id == id && sent.id.servicePort == p.servicePort
            && (0 < p.listenPort <= 65535 ==> sent.listenPort == p.listenPort)
  {
  }

  predicate FitsUint16(ports: seq<Port>) {
    forall i :: 0 <= i < |ports| ==> 0 < ports[i].listenPort <= 65535
  }

  ghost predicate DistinctSubs(id: Key, ports: seq<Port>) {
    forall i, j :: 0 <= i < j < |ports| ==> SubOf(id, ports[i]) != SubOf(id, ports[j])
  }

  /** A replayed registration is the one the start sent, port by port. */
  lemma {:induction false} ReplayIsSent(id: Key, ports: seq<Port>, i: nat)
    requires i < |ports| && DistinctSubs(id, ports)
    ensures RegistrationOf(id, ports, SubOf(id, ports[i]))
         == if 0 < ports[i].listenPort <= 65535 then Some(Sent(id, ports[i])) else None
  {
    if i > 0 {
      assert SubOf(id, ports[0]) != SubOf(id, ports[i]);
      assert ports[1..][i - 1] == ports[i];
      ReplayIsSent(id, ports[1..], i - 1);
    }
  }

  /** Everything recovery would replay. */
  ghost predicate Replays(r: Indexes, reg: Registration) {
    exists id :: id in r.byID && reg.id in r.byID[id].portKeys
                 && RegistrationOf(r.byID[id].info.id, r.byID[id].info.ports, reg.id) == Some(reg)
  }

  /** Everything the starts of the published runtimes sent. */
  ghost predicate WasSent(r: Indexes, reg: Registration) {
    exists id, i :: id in r.byID && 0 <= i < |r.byID[id].info.ports|
                    && reg == Sent(r.byID[id].info.id, r.byID[id].info.ports[i])
  }

  /** A published runtime's port keys are its ports' sub-ids, each once. */
  ghost predicate KeysMatchPorts(rt: Runtime) {
    && DistinctSubs(rt.info.id, rt.info.ports)
    && (forall i :: 0 <= i < |rt.info.ports| ==> SubOf(rt.info.id, rt.info.ports[i]) in rt.portKeys)
    && (forall sub :: sub in rt.portKeys ==>
          exists i :: 0 <= i < |rt.info.ports| && sub == SubOf(rt.info.id, rt.info.ports[i]))
  }

  /** Recovery replays exactly what starts sent, as long as every listen port fits a uint16. */
  lemma ReplaysWhatWasSent(r: Indexes, reg: Registration)
    requires forall id :: id in r.byID ==> KeysMatchPorts(r.byID[id]) && FitsUint16(r.byID[id].info.ports)
    ensures Replays(r, reg) <==> WasSent(r, reg)
  {
    if Replays(r, reg) {
      var id :| id in r.byID && reg.id in r.byID[id].portKeys
                && RegistrationOf(r.byID[id].info.id, r.byID[id].info.ports, reg.id) == Some(reg);
      var rt := r.byID[id];
      var i :| 0 <= i < |rt.info.ports| && reg.id == SubOf(rt.info.id, rt.info.ports[i]);
      ReplayIsSent(rt.info.id, rt.info.ports, i);
    }
    if WasSent(r, reg) {
      var id, i :| id in r.byID && 0 <= i < |r.byID[id].info.ports|
                   && reg == Sent(r.byID[id].info.id, r.byID[id].info.ports[i]);
      ReplayIsSent(r.byID[id].info.id, r.byID[id].info.ports, i);
    }
  }

  /** A listen port past 65535 is sent cut, and then not replayed at all. */
  lemma OverflowedPortNotReplayed(id: Key, ports: seq<Port>, i: nat)
    requires i < |ports| && DistinctSubs(id, ports) && ports[i].listenPort > 65535
    ensures RegistrationOf(id, ports, SubOf(id, ports[i])) == None
    ensures Sent(id, ports[i]).listenPort == ports[i].listenPort % 65536
  {
    ReplayIsSent(id, ports, i);
  }

  /** Every published runtime is filed under its own id, and its port keys carry that id. */
  ghost predicate OwnSubs(r: Indexes) {
    forall id :: id in r.byID ==>
      r.byID[id].info.id == id && forall sub :: sub in r.byID[id].portKeys ==> sub.id == id
  }

  /** The replayed registrations of the runtimes filed under some ids. */
  ghost predicate ReplaysFrom(r: Indexes, ids: set<Key>, reg: Registration) {
    reg.id.id in ids && reg.id.id in r.byID && reg.id in r.byID[reg.id.id].portKeys
    && RegistrationOf(reg.id.id, r.byID[reg.id.id].info.ports, reg.id) == Some(reg)
  }

  lemma ReplaysFromAll(r: Indexes, reg: Registration)
    requires OwnSubs(r)
    ensures Replays(r, reg) <==> ReplaysFrom(r, r.byID.Keys, reg)
  {
  }

  /** Where traffic of a sub-id goes. */
  datatype Target = Target(local: PortMapping, primaryAddr: string, mode: Mode, preview: bool)

  function TargetOf(rt: Runtime, sub: SubId): Target
    requires sub in rt.portKeys
  {
    Target(rt.portKeys[sub], if sub in rt.primaryAddrs then rt.primaryAddrs[sub] else "", rt.info.mode,
           rt.info.preview)
  }

  type SubOrder = (SubId, SubId) -> bool

  /** Manager.mu protects every call. */
  class RuntimeRegistry {
    var byID: map<Key, Runtime>
    var byKey: map<Key, Key>
    var starting: map<Key, nat>
    var nextReservation: nat

    function State(): Indexes
      reads this
    {
      Indexes(byID, byKey, starting, nextReservation)
    }

    constructor ()
      ensures State() == EMPTY
    {
      byID, byKey, starting, nextReservation := map[], map[], map[], 0;
    }

    method Reserve(key: Key) returns (reservation: nat, ok: bool)
      modifies this
      ensures ok <==> old(State().CanReserve(key))
      ensures State() == if ok then old(State()).Reserve(key) else old(State())
      ensures ok ==> reservation == nextReservation && State().Reserved(key, reservation)
    {
      if key in byKey {
        return 0, false;
      }
      if key in starting {
        return 0, false;
      }
      nextReservation := nextReservation + 1;
      reservation := nextReservation;
      starting := starting[key := reservation];
      return reservation, true;
    }

    method Release(key: Key, reservation: nat)
      modifies this
      ensures State() == old(State()).Release(key, reservation)
    {
      if key in starting && starting[key] == reservation && reservation != 0 {
        starting := starting - {key};
      }
    }

    method Add(runtime: Runtime)
      modifies this
      ensures State() == old(State()).Add(runtime)
    {
      byID := byID[runtime.info.id := runtime];
      byKey := byKey[runtime.info.key := runtime.info.id];
    }

    method Remove(id: Key) returns (removed: Option<Runtime>)
      modifies this
      ensures removed == old(State()).Get(id)
      ensures State() == old(State()).Remove(id)
    {
      if id !in byID {
        return None;
      }
      var runtime := byID[id];
      byID := byID - {id};
      byKey := byKey - {runtime.info.key};
      return Some(runtime);
    }

    method Mark(id: Key, stopping: bool)
      requires id in byID
      modifies this
      ensures State() == old(State()).Mark(id, stopping)
    {
      byID := byID[id := byID[id].(stopping := stopping)];
    }

    /** The registrations of one runtime, in the order its port keys come. */
    method RuntimeRegistrations(rt: Runtime, found: map<SubId, Registration>)
      returns (all: map<SubId, Registration>)
      requires forall sub :: sub in found ==> found[sub].id == sub && found[sub].id !in rt.portKeys
      ensures forall sub :: sub in all ==> all[sub].id == sub
      ensures forall reg: Registration ::
                reg.id in all && all[reg.id] == reg <==>
                (reg.id in found && found[reg.id] == reg)
                || (reg.id in rt.portKeys && RegistrationOf(rt.info.id, rt.info.ports, reg.id) == Some(reg))
    {
      all := found;
      var rest := rt.portKeys.Keys;
      while rest != {}
        invariant rest <= rt.portKeys.Keys
        invariant forall sub :: sub in all ==> all[sub].id == sub
        invariant forall sub :: sub in all <==>
                    sub in found
                    || (sub in rt.portKeys.Keys - rest && RegistrationOf(rt.info.id, rt.info.ports, sub).Some?)
        invariant forall sub :: sub in found ==> all[sub] == found[sub]
        invariant forall sub :: sub in all && sub !in found ==>
                    RegistrationOf(rt.info.id, rt.info.ports, sub) == Some(all[sub])
        decreases rest
      {
        var sub :| sub in rest;
        rest := rest - {sub};
        var reg := RegistrationOf(rt.info.id, rt.info.ports, sub);
        if reg.Some? {
          RegistrationId(rt.info.id, rt.info.ports, sub);
          all := all[sub := reg.value];
        }
      }
      forall reg: Registration | RegistrationOf(rt.info.id, rt.info.ports, reg.id) == Some(reg)
        ensures RegistrationOf(rt.info.id, rt.info.ports, reg.id).Some?
      {
      }
    }

    /** registrations: what recovery replays, in the order of the sub-ids' texts whatever the maps' order. */
    method Registrations(before: SubOrder) returns (result: seq<Registration>)
      requires StrictTotal(before) && OwnSubs(State())
      ensures forall reg :: reg in result <==> Replays(State(), reg)
      ensures forall i, j :: 0 <= i < j < |result| ==> before(result[i].id, result[j].id)
    {
      var all: map<SubId, Registration> := map[];
      var rest := byID.Keys;
      while rest != {}
        invariant rest <= byID.Keys
        invariant forall sub :: sub in all ==> all[sub].id == sub && sub.id in byID.Keys - rest
        invariant forall reg: Registration ::
                    (reg.id in all && all[reg.id] == reg) <==> ReplaysFrom(State(), byID.Keys - rest, reg)
        decreases rest
      {
        var id :| id in rest;
        all := RuntimeRegistrations(byID[id], all);
        rest := rest - {id};
      }
      var subs := Keys(all.Keys);
      SortStrict(subs, before);
      SortElements(subs, before);
      result := Picked(all, Sort(subs, before));
      forall reg ensures reg in result <==> Replays(State(), reg) {
        ReplaysFromAll(State(), reg);
        assert reg in result <==> reg.id in all && all[reg.id] == reg;
      }
    }

    /** findPort: whichever order the runtimes are searched in, the one that holds the sub-id is found. */
    method FindPort(sub: SubId) returns (target: Option<Target>)
      requires OwnSubs(State())
      ensures target.Some? <==> sub.id in byID && sub in byID[sub.id].portKeys
      ensures target.Some? ==> target.value == TargetOf(byID[sub.id], sub)
      ensures target.Some? ==>
                var rt := byID[sub.id];
                && target.value.local == rt.portKeys[sub]
                && target.value.mode == rt.info.mode && target.value.preview == rt.info.preview
                && (sub in rt.primaryAddrs ==> target.value.primaryAddr == rt.primaryAddrs[sub])
                && (sub !in rt.primaryAddrs ==> target.value.primaryAddr == "")
    {
      var rest := byID.Keys;
      while rest != {}
        invariant rest <= byID.Keys
        invariant forall id :: id in byID.Keys - rest ==> sub !in byID[id].portKeys
        decreases rest
      {
        var id :| id in rest;
        rest := rest - {id};
        if sub in byID[id].portKeys {
          return Some(TargetOf(byID[id], sub));
        }
      }
      return None;
    }
  }

  function Picked(all: map<SubId, Registration>, subs: seq<SubId>): (r: seq<Registration>)
    requires forall sub :: sub in all ==> all[sub].id == sub
    requires forall i :: 0 <= i < |subs| ==> subs[i] in all
    ensures |r| == |subs| && forall i :: 0 <= i < |r| ==> r[i] == all[subs[i]]
    ensures forall reg :: reg in r <==> reg.id in subs && all[reg.id] == reg
  {
    if subs == [] then []
    else
      assert subs == [subs[0]] + subs[1..];
      [all[subs[0]]] + Picked(all, subs[1..])
  }

  lemma {:induction false} RegistrationId(id: Key, ports: seq<Port>, sub: SubId)
    requires RegistrationOf(id, ports, sub).Some?
    ensures RegistrationOf(id, ports, sub).value.id == sub
  {
    if SubOf(id, ports[0]) != sub {
      RegistrationId(id, ports[1..], sub);
    }
  }
}
