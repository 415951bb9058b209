/** The control channel seen from the desktop: round trips, the start transaction and the redial loop of
    internal/intercept/control.go, start_transaction.go and control_session.go. */
module ControlClients {
  import opened Wrappers
  import opened Intercepts
  import opened Registry
  import opened HostRoutes

  datatype Request = Register(reg: Registration) | Unregister(id: SubId)

  datatype Outcome = Acked | Rejected(transient: bool) | Dead

  const MIN_LISTEN_PORT := 1024

  /** One connection. `acked` is the ledger of what the Gateway has acknowledged and not been asked to drop since;
      `requests` is everything asked, answered or not; `answers` is what became of each register. */
  class ControlClient {
    var acked: map<SubId, Registration>
    var requests: seq<Request>
    var answers: seq<Outcome>
    var broken: bool
    var closed: bool

    constructor ()
      ensures acked == map[] && requests == [] && answers == [] && !broken && !closed
    {
      acked, requests, answers, broken, closed := map[], [], [], false, false;
    }

    /** A register round trip. The Gateway refuses an id it already holds and a port below 1024; a message with
        port 0 is not even written. Otherwise it may accept, refuse, or the channel may be gone. */
    method Register(reg: Registration) returns (outcome: Outcome)
      modifies this
      ensures requests == old(requests) + [Request.Register(reg)] && answers == old(answers) + [outcome]
      ensures closed == old(closed)
      ensures outcome.Acked? ==>
                && !old(broken) && !closed && reg.id !in old(acked) && reg.listenPort >= 1024
                && acked == old(acked)[reg.id := reg] && broken == old(broken)
      ensures !outcome.Acked? ==> acked == old(acked)
      ensures outcome.Dead? <==> broken || closed
      ensures old(broken) ==> broken
    {
      requests := requests + [Request.Register(reg)];
      var lost: bool := *;
      if broken || closed || lost {
        broken := broken || lost;
        outcome := Dead;
      } else {
        var accepts: bool := *;
        if reg.id !in acked && reg.listenPort >= MIN_LISTEN_PORT && accepts {
          acked := acked[reg.id := reg];
          outcome := Acked;
        } else {
          var transient: bool := *;
          outcome := Rejected(transient);
        }
      }
      answers := answers + [outcome];
    }

    /** An unregister round trip: the Gateway acknowledges every one it receives. */
    method Unregister(id: SubId) returns (outcome: Outcome)
      modifies this
      ensures requests == old(requests) + [Request.Unregister(id)] && answers == old(answers)
      ensures closed == old(closed)
      ensures outcome.Acked? || outcome.Dead?
      ensures outcome.Acked? ==> acked == old(acked) - {id} && broken == old(broken)
      ensures outcome.Dead? ==> acked == old(acked)
      ensures outcome.Dead? <==> broken || closed
      ensures old(broken) ==> broken
    {
      requests := requests + [Request.Unregister(id)];
      var lost: bool := *;
      if broken || closed || lost {
        broken := broken || lost;
        return Dead;
      }
      acked := acked - {id};
      return Acked;
    }

    method Close()
      modifies this
      ensures closed && acked == old(acked) && requests == old(requests) && answers == old(answers)
      ensures broken == old(broken)
    {
      closed := true;
    }
  }

  function Reverse<T>(s: seq<T>): (r: seq<T>)
    ensures |r| == |s| && forall i :: 0 <= i < |s| ==> r[i] == s[|s| - 1 - i]
  {
    if s == [] then [] else [s[|s| - 1]] + Reverse(s[..|s| - 1])
  }

  function Unregisters(ids: seq<SubId>): (r: seq<Request>)
    ensures |r| == |ids| && forall i :: 0 <= i < |ids| ==> r[i] == Request.Unregister(ids[i])
  {
    if ids == [] then [] else [Request.Unregister(ids[0])] + Unregisters(ids[1..])
  }

  function IdSet(ids: seq<SubId>): (s: set<SubId>) {
    set id | id in ids
  }

  /** Unregisters ids from the last to the first, whatever the answers. */
  method UnregisterBackward(client: ControlClient, ids: seq<SubId>)
    modifies client
    ensures client.requests == old(client.requests) + Unregisters(Reverse(ids))
    ensures client.answers == old(client.answers)
    ensures client.closed == old(client.closed) && (old(client.broken) ==> client.broken)
    ensures client.broken || client.closed || client.acked == old(client.acked) - IdSet(ids)
    ensures forall id :: id in old(client.acked) && id !in ids ==>
              id in client.acked && client.acked[id] == old(client.acked)[id]
  {
    ghost var asked: seq<SubId> := [];
    var index := |ids|;
    assert ids[..index] == ids;
    while index > 0
      invariant 0 <= index <= |ids|
      invariant asked == Reverse(ids)[..|ids| - index]
      invariant client.requests == old(client.requests) + Unregisters(asked)
      invariant client.answers == old(client.answers)
      invariant client.closed == old(client.closed) && (old(client.broken) ==> client.broken)
      invariant client.broken || client.closed || client.acked == old(client.acked) - IdSet(ids[index..])
      invariant forall id :: id in old(client.acked) && id !in ids ==>
                  id in client.acked && client.acked[id] == old(client.acked)[id]
    {
      index := index - 1;
      var outcome := client.Unregister(ids[index]);
      assert ids[index..] == [ids[index]] + ids[index + 1..];
      UnregistersNext(asked, ids[index]);
      asked := asked + [ids[index]];
    }
    assert ids[0..] == ids;
    assert asked == Reverse(ids);
  }

  lemma {:induction false} UnregistersNext(ids: seq<SubId>, id: SubId)
    ensures Unregisters(ids + [id]) == Unregisters(ids) + [Request.Unregister(id)]
  {
    if ids != [] {
      assert (ids + [id])[1..] == ids[1..] + [id];
      UnregistersNext(ids[1..], id);
    }
  }

  // ---- redial ----

  const CONTROL_REDIAL_ATTEMPTS := 6

  function RegMap(regs: seq<Registration>): (m: map<SubId, Registration>) {
    if regs == [] then map[] else RegMap(regs[..|regs| - 1])[regs[|regs| - 1].id := regs[|regs| - 1]]
  }

  /** All but the last of the registers were acknowledged. */
  predicate StoppedAt(answers: seq<Outcome>) {
    && answers != [] && !answers[|answers| - 1].Acked?
    && forall i :: 0 <= i < |answers| - 1 ==> answers[i].Acked?
  }

  /** The register that stopped an attempt was refused for a reason that may pass: the id or the port is still an
      older session's. */
  predicate Transient(answers: seq<Outcome>) {
    answers != [] && answers[|answers| - 1] == Rejected(true)
  }

  /** One attempt's register loop on a new connection; on a refusal, what was registered is undone and the
      connection is closed. */
  method Attempt(client: ControlClient, registrations: seq<Registration>) returns (ok: bool, retry: bool)
    requires client.acked == map[] && client.answers == [] && !client.broken && !client.closed
    modifies client
    ensures ok ==> client.acked == RegMap(registrations) && !client.broken && !client.closed
    ensures ok ==> |client.answers| == |registrations|
                   && forall i :: 0 <= i < |registrations| ==> client.answers[i].Acked?
    ensures !ok ==> client.closed && (client.broken || client.acked == map[])
    ensures !ok ==> |client.answers| <= |registrations| && StoppedAt(client.answers)
    ensures !ok ==> (retry <==> Transient(client.answers))
  {
    var registered: seq<SubId> := [];
    var i := 0;
    while i < |registrations|
      invariant 0 <= i <= |registrations|
      invariant client.acked == RegMap(registrations[..i]) && !client.broken && !client.closed
      invariant |client.answers| == i && forall j :: 0 <= j < i ==> client.answers[j].Acked?
      invariant IdSet(registered) == client.acked.Keys
    {
      assert registrations[..i + 1][..i] == registrations[..i];
      var outcome := client.Register(registrations[i]);
      if !outcome.Acked? {
        UnregisterBackward(client, registered);
        client.Close();
        return false, outcome == Rejected(true);
      }
      IdSetNext(registered, registrations[i].id);
      registered := registered + [registrations[i].id];
      i := i + 1;
    }
    assert registrations[..i] == registrations;
    return true, false;
  }

  lemma IdSetNext(ids: seq<SubId>, id: SubId)
    ensures IdSet(ids + [id]) == IdSet(ids) + {id}
  {
  }

  /** How the world treats a redial: which of its dials reach the Gateway, and before which its context has ended. */
  datatype World = World(reached: nat -> bool, ended: nat -> bool)

  /** Why a redial comes back without a client, having opened n connections. */
  predicate MayGiveUp(w: World, n: nat) {
    n == 6 || (n > 0 && w.ended(n)) || !w.reached(n)
  }

  /** redial: a client comes back only with the whole snapshot registered; every other connection opened on the
      way is closed with nothing of it left acknowledged, unless it was lost; and at most six are opened. It goes on
      exactly after a refusal that may pass, and gives up only when the last one was not such, or all six were, or its
      context ended, or the Gateway was out of reach. */
  method Redial(registrations: seq<Registration>, w: World)
    returns (client: ControlClient?, dialled: seq<ControlClient>)
    ensures |dialled| <= 6
    ensures forall i :: 0 <= i < |dialled| ==> fresh(dialled[i]) && w.reached(i)
    ensures client != null ==>
              dialled != [] && client == dialled[|dialled| - 1]
              && !client.closed && !client.broken && client.acked == RegMap(registrations)
    ensures forall i :: 0 <= i < |dialled| && dialled[i] != client ==>
              dialled[i].closed && (dialled[i].broken || dialled[i].acked == map[])
              && StoppedAt(dialled[i].answers)
    ensures forall i :: 0 <= i < |dialled| - 1 ==> Transient(dialled[i].answers)
    ensures client == null ==>
              MayGiveUp(w, |dialled|) || (dialled != [] && !Transient(dialled[|dialled| - 1].answers))
  {
    dialled := [];
    var attempt := 0;
    while attempt < CONTROL_REDIAL_ATTEMPTS
      invariant 0 <= attempt <= CONTROL_REDIAL_ATTEMPTS && |dialled| == attempt
      invariant forall i :: 0 <= i < |dialled| ==> fresh(dialled[i]) && w.reached(i)
      invariant forall i :: 0 <= i < |dialled| ==>
                  dialled[i].closed && (dialled[i].broken || dialled[i].acked == map[])
                  && StoppedAt(dialled[i].answers) && Transient(dialled[i].answers)
    {
      if attempt > 0 && w.ended(attempt) {
        return null, dialled;
      }
      if !w.reached(attempt) {
        return null, dialled;
      }
      var next := new ControlClient();
      var ok, retry := Attempt(next, registrations);
      dialled := dialled + [next];
      if ok {
        return next, dialled;
      }
      if !retry {
        return null, dialled;
      }
      attempt := attempt + 1;
    }
    return null, dialled;
  }

  /** With distinct ids the map holds every registration of the snapshot. */
  lemma {:induction false} RegMapHolds(regs: seq<Registration>, i: nat)
    requires i < |regs|
    requires forall j, k :: 0 <= j < k < |regs| ==> regs[j].id != regs[k].id
    ensures regs[i].id in RegMap(regs) && RegMap(regs)[regs[i].id] == regs[i]
  {
    var n := |regs| - 1;
    if i < n {
      assert regs[..n][i] == regs[i];
      RegMapHolds(regs[..n], i);
    }
  }

  // ---- start transaction ----

  /** Release calls made so far, in order, by lease. */
  class LeaseLedger {
    var calls: seq<nat>

    constructor ()
      ensures calls == []
    {
      calls := [];
    }

    method Release(lease: nat) returns (ok: bool)
      modifies this
      ensures calls == old(calls) + [lease]
    {
      calls := calls + [lease];
      ok := *;
    }
  }

  function Subs(id: Key, ports: seq<Port>): (subs: seq<SubId>)
    ensures |subs| == |ports| && forall i :: 0 <= i < |ports| ==> subs[i] == SubOf(id, ports[i])
  {
    if ports == [] then [] else [SubOf(id, ports[0])] + Subs(id, ports[1..])
  }

  function LocalKeys(id: Key, ports: seq<Port>, locals: seq<PortMapping>): (m: map<SubId, PortMapping>) {
    if ports == [] then map[]
    else
      var last := ports[|ports| - 1];
      LocalKeys(id, ports[..|ports| - 1], locals)[SubOf(id, last) := LocalFor(last, locals)]
  }

  function SentMap(id: Key, ports: seq<Port>): (m: map<SubId, Registration>) {
    if ports == [] then map[]
    else
      var last := ports[|ports| - 1];
      SentMap(id, ports[..|ports| - 1])[SubOf(id, last) := Sent(id, last)]
  }

  lemma {:induction false} SameLocal(p: Port, q: Port, locals: seq<PortMapping>)
    requires p.servicePort == q.servicePort && p.network == q.network
    ensures LocalFor(p, locals) == LocalFor(q, locals)
  {
    if locals != [] {
      SameLocal(p, q, locals[1..]);
    }
  }

  /** Each port is led to its own mapping. */
  lemma {:induction false} LocalKeysLead(id: Key, ports: seq<Port>, locals: seq<PortMapping>, i: nat)
    requires i < |ports|
    ensures var keys := LocalKeys(id, ports, locals);
            SubOf(id, ports[i]) in keys && keys[SubOf(id, ports[i])] == LocalFor(ports[i], locals)
  {
    var n := |ports| - 1;
    if i < n {
      assert ports[..n][i] == ports[i];
      LocalKeysLead(id, ports[..n], locals, i);
      if SubOf(id, ports[i]) == SubOf(id, ports[n]) {
        SameLocal(ports[i], ports[n], locals);
      }
    }
  }

  /** What is asked for each port is what was acknowledged for it. */
  lemma {:induction false} SentMapHolds(id: Key, ports: seq<Port>, i: nat)
    requires i < |ports| && NoRepeats(Subs(id, ports))
    ensures SubOf(id, ports[i]) in SentMap(id, ports) && SentMap(id, ports)[SubOf(id, ports[i])] == Sent(id, ports[i])
  {
    var n, subs := |ports| - 1, Subs(id, ports);
    if i < n {
      assert ports[..n][i] == ports[i] && subs[i] != subs[n];
      assert forall j :: 0 <= j < n ==> Subs(id, ports[..n])[j] == subs[j];
      SentMapHolds(id, ports[..n], i);
    }
  }

  class StartTransaction {
    const control: ControlClient
    const leases: LeaseLedger
    var portKeys: map<SubId, PortMapping>
    var registered: seq<SubId>
    var compensations: seq<nat>
    var committed: bool

    constructor (control: ControlClient, leases: LeaseLedger)
      ensures this.control == control && this.leases == leases
      ensures portKeys == map[] && registered == [] && compensations == [] && !committed
    {
      this.control, this.leases := control, leases;
      portKeys, registered, compensations, committed := map[], [], [], false;
    }

    /** registerPorts: how far it got is what it remembers, and what the client has acknowledged. */
    method RegisterPorts(id: Key, ports: seq<Port>, locals: seq<PortMapping>) returns (done: nat)
      requires registered == [] && portKeys == map[]
      modifies this, control
      ensures done <= |ports|
      ensures registered == Subs(id, ports[..done]) && portKeys == LocalKeys(id, ports[..done], locals)
      ensures control.acked == old(control.acked) + SentMap(id, ports[..done])
      ensures NoRepeats(registered) && IdSet(registered) !! old(control.acked).Keys
      ensures compensations == old(compensations) && committed == old(committed)
      ensures control.closed == old(control.closed) && (old(control.broken) ==> control.broken)
    {
      done := 0;
      ghost var before := control.acked;
      while done < |ports|
        invariant 0 <= done <= |ports|
        invariant RegisteredTo(id, ports[..done], locals, before, control.acked, registered, portKeys)
        invariant compensations == old(compensations) && committed == old(committed)
        invariant control.closed == old(control.closed) && (old(control.broken) ==> control.broken)
      {
        var port := ports[done];
        var sub := SubOf(id, port);
        ghost var acked := control.acked;
        var outcome := control.Register(Sent(id, port));
        if !outcome.Acked? {
          return;
        }
        RegisteredOne(id, ports, locals, done, before, acked, registered, portKeys);
        registered := registered + [sub];
        portKeys := portKeys[sub := LocalFor(port, locals)];
        done := done + 1;
      }
    }

    method Compensate(lease: nat)
      modifies this
      ensures compensations == old(compensations) + [lease]
      ensures portKeys == old(portKeys) && registered == old(registered) && committed == old(committed)
    {
      compensations := compensations + [lease];
    }

    method Commit()
      modifies this
      ensures committed && portKeys == old(portKeys) && registered == old(registered)
      ensures compensations == old(compensations)
    {
      committed := true;
    }

    /** rollback: nothing after a commit; otherwise each compensation once, latest first, and then each
        registration, latest first. */
    method Rollback()
      modifies control, leases
      ensures committed ==> leases.calls == old(leases.calls) && control.requests == old(control.requests)
                            && control.acked == old(control.acked)
      ensures !committed ==> leases.calls == old(leases.calls) + Reverse(compensations)
      ensures !committed ==> control.requests == old(control.requests) + Unregisters(Reverse(registered))
      ensures !committed ==>
                control.broken || control.closed || control.acked == old(control.acked) - IdSet(registered)
    {
      if committed {
        return;
      }
      var index := |compensations|;
      while index > 0
        invariant 0 <= index <= |compensations|
        invariant leases.calls == old(leases.calls) + Reverse(compensations)[..|compensations| - index]
        invariant control.requests == old(control.requests) && control.acked == old(control.acked)
      {
        index := index - 1;
        var ok := leases.Release(compensations[index]);
      }
      UnregisterBackward(control, registered);
    }
  }

  ghost predicate NoRepeats(ids: seq<SubId>) {
    forall i, j :: 0 <= i < j < |ids| ==> ids[i] != ids[j]
  }

  /** What a start has registered: each id once, and none that was registered before it. */
  ghost predicate Fresh(before: map<SubId, Registration>, sent: map<SubId, Registration>, ids: seq<SubId>) {
    NoRepeats(ids) && sent.Keys == IdSet(ids) && sent.Keys !! before.Keys
  }

  lemma RegisteredNext(before: map<SubId, Registration>, sent: map<SubId, Registration>, ids: seq<SubId>,
                       reg: Registration)
    requires Fresh(before, sent, ids) && reg.id !in before + sent
    ensures Fresh(before, sent[reg.id := reg], ids + [reg.id])
    ensures (before + sent)[reg.id := reg] == before + sent[reg.id := reg]
  {
    IdSetNext(ids, reg.id);
    assert reg.id !in sent.Keys;
    assert reg.id !in ids;
  }

  /** How far a start has got with its ports. */
  ghost predicate RegisteredTo(id: Key, done: seq<Port>, locals: seq<PortMapping>, before: map<SubId, Registration>,
                               acked: map<SubId, Registration>, registered: seq<SubId>,
                               portKeys: map<SubId, PortMapping>)
  {
    && registered == Subs(id, done) && portKeys == LocalKeys(id, done, locals)
    && acked == before + SentMap(id, done) && Fresh(before, SentMap(id, done), registered)
  }

  lemma RegisteredOne(id: Key, ports: seq<Port>, locals: seq<PortMapping>, done: nat,
                      before: map<SubId, Registration>, acked: map<SubId, Registration>, registered: seq<SubId>,
                      portKeys: map<SubId, PortMapping>)
    requires done < |ports| && RegisteredTo(id, ports[..done], locals, before, acked, registered, portKeys)
    requires SubOf(id, ports[done]) !in acked
    ensures var sub := SubOf(id, ports[done]);
            RegisteredTo(id, ports[..done + 1], locals, before, acked[sub := Sent(id, ports[done])],
                         registered + [sub], portKeys[sub := LocalFor(ports[done], locals)])
  {
    PortNext(id, ports, locals, done);
    RegisteredNext(before, SentMap(id, ports[..done]), registered, Sent(id, ports[done]));
  }

  lemma PortNext(id: Key, ports: seq<Port>, locals: seq<PortMapping>, done: nat)
    requires done < |ports|
    ensures Subs(id, ports[..done + 1]) == Subs(id, ports[..done]) + [SubOf(id, ports[done])]
    ensures LocalKeys(id, ports[..done + 1], locals)
         == LocalKeys(id, ports[..done], locals)[SubOf(id, ports[done]) := LocalFor(ports[done], locals)]
    ensures SentMap(id, ports[..done + 1])
         == SentMap(id, ports[..done])[SubOf(id, ports[done]) := Sent(id, ports[done])]
  {
    assert ports[..done + 1][..done] == ports[..done];
  }

  lemma {:induction false} SentKeys(id: Key, ports: seq<Port>)
    ensures SentMap(id, ports).Keys == IdSet(Subs(id, ports))
  {
    if ports != [] {
      var n := |ports| - 1;
      SentKeys(id, ports[..n]);
      PortNext(id, ports, [], n);
      assert ports[..n + 1] == ports;
      IdSetNext(Subs(id, ports[..n]), SubOf(id, ports[n]));
    }
  }

  lemma Undone(before: map<SubId, Registration>, sent: map<SubId, Registration>, ids: seq<SubId>)
    requires sent.Keys == IdSet(ids) && IdSet(ids) !! before.Keys
    ensures before + sent - IdSet(ids) == before
  {
  }

  /** The transaction of one start, its deferred rollback included: a start that publishes keeps its registrations and
      its lease; one that does not leaves the client as it found it, unless the channel is gone, and its lease, if it
      got one, is released once. */
  method RunStart(control: ControlClient, leases: LeaseLedger, id: Key, ports: seq<Port>, locals: seq<PortMapping>,
                  lease: Option<nat>, publishes: bool)
    returns (published: bool)
    modifies control, leases
    ensures published ==> lease.Some? && publishes && leases.calls == old(leases.calls)
                          && control.acked == old(control.acked) + SentMap(id, ports)
    ensures !published ==> control.broken || control.closed || control.acked == old(control.acked)
    ensures !published ==> leases.calls == old(leases.calls)
                           || (lease.Some? && leases.calls == old(leases.calls) + [lease.value])
  {
    var transaction := new StartTransaction(control, leases);
    var done := transaction.RegisterPorts(id, ports, locals);
    published := false;
    if done == |ports| && lease.Some? {
      transaction.Compensate(lease.value);
      if publishes {
        transaction.Commit();
        published := true;
      }
    }
    SentKeys(id, ports[..done]);
    Undone(old(control.acked), SentMap(id, ports[..done]), transaction.registered);
    transaction.Rollback();
    assert Reverse<nat>([]) == [];
    assert lease.Some? ==> Reverse([lease.value]) == [lease.value];
    assert done == |ports| ==> ports[..done] == ports;
  }
}
