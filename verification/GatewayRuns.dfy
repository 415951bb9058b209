/** What every run of the Gateway keeps: tenant counts, ownership of registrations, ports, and claims of streams. */
module GatewayRuns {
  import opened Bytes
  import opened TunnelFrames
  import opened Gateway
  import opened GatewaySystem

  // ---- tenants ----

  function Of(controls: set<Session>, token: Token): set<Session> {
    set c | c in controls && c.token == token
  }

  predicate CountFits(controls: set<Session>, tenants: map<Token, int>, token: Token) {
    if token in tenants then tenants[token] == |Of(controls, token)| > 0 else Of(controls, token) == {}
  }

  /** A token's count is the number of its live sessions, and no entry is zero. */
  ghost predicate CountsFit(controls: set<Session>, tenants: map<Token, int>) {
    forall token :: CountFits(controls, tenants, token)
  }

  lemma OfAdd(controls: set<Session>, c: Session, token: Token)
    requires c !in controls
    ensures Of(controls + {c}, token) == if token == c.token then Of(controls, token) + {c} else Of(controls, token)
  {
  }

  lemma OfRemove(controls: set<Session>, c: Session, token: Token)
    requires c in controls
    ensures Of(controls - {c}, token) == if token == c.token then Of(controls, token) - {c} else Of(controls, token)
    ensures token == c.token ==> c in Of(controls, token)
  {
  }

  lemma AddCounts(g: GatewayState, c: Session)
    requires CountsFit(g.controls, g.tenants) && c !in g.controls
    ensures CountsFit(g.AddControl(c).controls, g.AddControl(c).tenants)
  {
    var h := g.AddControl(c);
    forall token ensures CountFits(h.controls, h.tenants, token) {
      assert CountFits(g.controls, g.tenants, token);
      OfAdd(g.controls, c, token);
    }
  }

  lemma RemoveCounts(g: GatewayState, c: Session)
    requires CountsFit(g.controls, g.tenants) && c in g.controls
    ensures CountsFit(g.RemoveControl(c).controls, g.RemoveControl(c).tenants)
  {
    var h := g.RemoveControl(c);
    forall token ensures CountFits(h.controls, h.tenants, token) {
      assert CountFits(g.controls, g.tenants, token);
      OfRemove(g.controls, c, token);
    }
  }

  // ---- sessions, listeners and sockets ----

  /** What a session's goroutine is at concerns the session. */
  predicate WorkFits(w: Work, c: Session) {
    match w
    case Checked(_, _, _) => true
    case Bound(_, l) => l.control == c
    case Dropping(l) => l.control == c
  }

  ghost predicate SessionsFit(s: Sys) {
    && (forall c :: c in s.g.controls ==> c.ref < s.sessions)
    && (forall c :: c in s.work ==> c in s.g.controls && WorkFits(s.work[c], c))
    && (forall k :: k in s.g.listeners ==>
          s.g.listeners[k].control in s.g.controls && s.g.listeners[k].control.token == k.token)
  }

  /** A socket that is at a place, and has its port. */
  predicate Socket(sockets: map<nat, Place>, ports: map<PortKey, nat>, l: Listener, place: Place) {
    l.ref in sockets && sockets[l.ref] == place && KeyOf(l) in ports && ports[KeyOf(l)] == l.ref
  }

  ghost predicate ListedFit(listeners: map<ListenerKey, Listener>, sockets: map<nat, Place>, ports: map<PortKey, nat>)
  {
    forall k :: k in listeners ==> Socket(sockets, ports, listeners[k], Listed(k))
  }

  ghost predicate WorkingFit(work: map<Session, Work>, sockets: map<nat, Place>, ports: map<PortKey, nat>) {
    forall c :: c in work && !work[c].Checked? ==> Socket(sockets, ports, work[c].l, Working(c))
  }

  ghost predicate ClosingFit(sockets: map<nat, Place>, ports: map<PortKey, nat>) {
    forall r :: r in sockets && sockets[r].Closing? ==>
      sockets[r].l.ref == r && Socket(sockets, ports, sockets[r].l, sockets[r])
  }

  ghost predicate SocketsFit(s: Sys) {
    ListedFit(s.g.listeners, s.sockets, s.ports) && WorkingFit(s.work, s.sockets, s.ports)
    && ClosingFit(s.sockets, s.ports)
  }

  /** What every run keeps about sessions and listeners. */
  ghost predicate Inv(s: Sys) {
    CountsFit(s.g.controls, s.g.tenants) && SessionsFit(s) && SocketsFit(s)
  }

  /** The rest is a matter of streams. */
  predicate AboutStreams(e: Event) {
    e.Draw? || e.Arm? || e.Offer? || e.Withdraw? || e.Timeout? || e.Accept?
  }

  lemma StreamsAside(s: Sys, e: Event)
    requires Inv(s) && Enabled(s, e) && AboutStreams(e)
    ensures Inv(Next(s, e))
  {
    var t := Next(s, e);
    assert t.g.controls == s.g.controls && t.g.tenants == s.g.tenants && t.g.listeners == s.g.listeners;
  }

  lemma OpenKeeps(s: Sys, e: Event)
    requires Inv(s) && Enabled(s, e) && e.Open?
    ensures Inv(Next(s, e))
  {
    AddCounts(s.g, e.c);
  }

  lemma CloseSockets(s: Sys, e: Event)
    requires Inv(s) && Enabled(s, e) && e.Close?
    ensures SocketsFit(Next(s, e))
  {
    var t := Next(s, e);
    forall r | r in t.sockets && t.sockets[r].Closing?
      ensures t.sockets[r].l.ref == r && Socket(t.sockets, t.ports, t.sockets[r].l, t.sockets[r])
    {
      if s.sockets[r].Listed? && s.sockets[r].key in s.g.listeners {
        assert Socket(s.sockets, s.ports, s.g.listeners[s.sockets[r].key], Listed(s.sockets[r].key));
      }
    }
  }

  lemma CloseKeeps(s: Sys, e: Event)
    requires Inv(s) && Enabled(s, e) && e.Close?
    ensures Inv(Next(s, e))
  {
    RemoveCounts(s.g, e.c);
    CloseSockets(s, e);
  }

  lemma BindKeeps(s: Sys, e: Event)
    requires Inv(s) && Enabled(s, e) && (e.Check? || e.Bind?)
    ensures Inv(Next(s, e))
  {
  }

  lemma PublishSockets(s: Sys, e: Event)
    requires Inv(s) && Enabled(s, e) && e.Publish?
    ensures SocketsFit(Next(s, e))
  {
    assert Socket(s.sockets, s.ports, s.work[e.c].l, Working(e.c));
  }

  lemma PublishSessions(s: Sys, e: Event)
    requires Inv(s) && Enabled(s, e) && e.Publish?
    ensures SessionsFit(Next(s, e))
    ensures Next(s, e).g.controls == s.g.controls && Next(s, e).g.tenants == s.g.tenants
  {
  }

  lemma PublishKeeps(s: Sys, e: Event)
    requires Inv(s) && Enabled(s, e) && e.Publish?
    ensures Inv(Next(s, e))
  {
    PublishSockets(s, e);
    PublishSessions(s, e);
  }

  lemma UnregisterKeeps(s: Sys, e: Event)
    requires Inv(s) && Enabled(s, e) && e.Unregister?
    ensures Inv(Next(s, e))
  {
  }

  lemma DropKeeps(s: Sys, e: Event)
    requires Inv(s) && Enabled(s, e) && e.Drop?
    ensures Inv(Next(s, e))
  {
    assert Socket(s.sockets, s.ports, s.work[e.c].l, Working(e.c));
  }

  lemma CloseSocketKeeps(s: Sys, e: Event)
    requires Inv(s) && Enabled(s, e) && e.CloseSocket?
    ensures Inv(Next(s, e))
  {
    assert Socket(s.sockets, s.ports, s.sockets[e.ref].l, s.sockets[e.ref]);
  }

  lemma StepKeeps(s: Sys, e: Event)
    requires Inv(s) && Enabled(s, e)
    ensures Inv(Next(s, e))
  {
    match e
    case Open(_) => OpenKeeps(s, e);
    case Close(_) => CloseKeeps(s, e);
    case Check(_, _, _, _) => BindKeeps(s, e);
    case Bind(_, _, _) => BindKeeps(s, e);
    case Publish(_) => PublishKeeps(s, e);
    case Unregister(_, _) => UnregisterKeeps(s, e);
    case Drop(_) => DropKeeps(s, e);
    case CloseSocket(_) => CloseSocketKeeps(s, e);
    case _ => StreamsAside(s, e);
  }

  lemma {:induction false} RunKeeps(s: Sys, events: seq<Event>)
    requires Inv(s) && Runs(s, events)
    ensures Inv(After(s, events))
    decreases |events|
  {
    if events != [] {
      StepKeeps(s, events[0]);
      RunKeeps(Next(s, events[0]), events[1..]);
    }
  }

  lemma StartsWell()
    ensures Inv(INITIAL)
  {
    forall token ensures CountFits(NEW_GATEWAY.controls, NEW_GATEWAY.tenants, token) {
      assert Of({}, token) == {};
    }
  }

  /** In every run a token's tenant count is the number of its live control sessions, so a token is active exactly
      while it has one. */
  lemma TenantCounts(events: seq<Event>, token: Token)
    requires Runs(INITIAL, events)
    ensures var g := After(INITIAL, events).g;
            && g.Count(token) == |Of(g.controls, token)|
            && (token in g.tenants <==> exists c :: c in g.controls && c.token == token)
  {
    StartsWell();
    RunKeeps(INITIAL, events);
    var g := After(INITIAL, events).g;
    assert CountFits(g.controls, g.tenants, token);
    if c :| c in g.controls && c.token == token {
      assert c in Of(g.controls, token);
    }
    if token in g.tenants {
      var c :| c in Of(g.controls, token);
    }
  }

  /** No two published listeners share a network and port, though nothing is locked between the check and the
      entry into the table. */
  lemma NoSharedPort(events: seq<Event>, k1: ListenerKey, k2: ListenerKey)
    requires Runs(INITIAL, events)
    requires var listeners := After(INITIAL, events).g.listeners;
             k1 in listeners && k2 in listeners && KeyOf(listeners[k1]) == KeyOf(listeners[k2])
    ensures k1 == k2
  {
    StartsWell();
    RunKeeps(INITIAL, events);
    var s := After(INITIAL, events);
    assert Socket(s.sockets, s.ports, s.g.listeners[k1], Listed(k1));
    assert Socket(s.sockets, s.ports, s.g.listeners[k2], Listed(k2));
  }

  /** The check alone would not do: two sessions can pass it for one port at once, and then only one can bind. */
  lemma CheckIsNotEnough(s: Sys, c1: Session, c2: Session, id: seq<byte>, network: byte, port: int)
    requires c1 != c2 && Enabled(s, Check(c1, id, network, port)) && Enabled(s, Check(c2, id, network, port))
    ensures Runs(s, [Check(c1, id, network, port), Check(c2, id, network, port)])
    ensures var t := Next(Next(s, Check(c1, id, network, port)), Check(c2, id, network, port));
            forall r1, r2 :: Enabled(t, Bind(c1, r1, true)) ==>
              !Enabled(Next(t, Bind(c1, r1, true)), Bind(c2, r2, true))
  {
    var e1, e2 := Check(c1, id, network, port), Check(c2, id, network, port);
    var s1 := Next(s, e1);
    assert [e1, e2][1..] == [e2] && [e2][1..] == [];
    assert Enabled(s1, e2) && Runs(Next(s1, e2), []);
    assert Runs(s1, [e2]);
  }

  // ---- ownership ----

  /** Only its owner can end a registration: by unregistering it, or by ending. */
  predicate Ends(e: Event, owner: Session, id: seq<byte>) {
    e == Unregister(owner, id) || e == Close(owner)
  }

  /** A section that is not the owner's doing leaves the registration and its listener as they are. */
  lemma RegistrationStays(s: Sys, e: Event, k: ListenerKey)
    requires Inv(s) && Enabled(s, e) && k in s.g.listeners && !Ends(e, s.g.listeners[k].control, k.id)
    ensures k in Next(s, e).g.listeners && Next(s, e).g.listeners[k] == s.g.listeners[k]
  {
    if !e.Close? && !e.Publish? && !e.Unregister? {
      ListenersAside(s, e);
    } else if e.Unregister? {
      OthersUnregister(s, e, k);
    }
  }

  /** Only these sections touch the table of listeners. */
  lemma ListenersAside(s: Sys, e: Event)
    requires Enabled(s, e) && !e.Close? && !e.Publish? && !e.Unregister?
    ensures Next(s, e).g.listeners == s.g.listeners
  {
  }

  lemma OthersUnregister(s: Sys, e: Event, k: ListenerKey)
    requires SessionsFit(s) && Enabled(s, e) && e.Unregister? && k in s.g.listeners
    requires !Ends(e, s.g.listeners[k].control, k.id)
    ensures k in Next(s, e).g.listeners && Next(s, e).g.listeners[k] == s.g.listeners[k]
  {
  }

  predicate NoneEnds(events: seq<Event>, owner: Session, id: seq<byte>) {
    forall i :: 0 <= i < |events| ==> !Ends(events[i], owner, id)
  }

  /** Over any run: what is registered stays its owner's until the owner unregisters it or ends, whatever sessions of
      the same token try. */
  lemma {:induction false} OwnerKeeps(s: Sys, events: seq<Event>, k: ListenerKey)
    requires Inv(s) && Runs(s, events) && k in s.g.listeners && NoneEnds(events, s.g.listeners[k].control, k.id)
    ensures var t := After(s, events); k in t.g.listeners && t.g.listeners[k] == s.g.listeners[k]
    decreases |events|
  {
    if events != [] {
      RegistrationStays(s, events[0], k);
      StepKeeps(s, events[0]);
      OwnerKeeps(Next(s, events[0]), events[1..], k);
    }
  }

  /** An acknowledged registration is in the table under its session, and the same id is refused while it is. */
  lemma PublishedIsOwned(s: Sys, e: Event)
    requires Inv(s) && Enabled(s, e) && e.Publish?
    ensures var t, k := Next(s, e), ListenerKey(e.c.token, s.work[e.c].id);
            && (if k in s.g.listeners then t.g == s.g else t.g.Owns(e.c, k.id))
            && forall c: Session, network, port :: c.token == k.token ==> !Enabled(t, Check(c, k.id, network, port))
  {
  }

  /** When a session is removed, nothing of it is left in the table and every socket of it is on its way out. */
  lemma RemovedLeavesNothing(s: Sys, e: Event, k: ListenerKey)
    requires Inv(s) && Enabled(s, e) && e.Close? && k in s.g.listeners && s.g.listeners[k].control == e.c
    ensures k !in Next(s, e).g.listeners
    ensures Enabled(Next(s, e), CloseSocket(s.g.listeners[k].ref))
  {
    assert Socket(s.sockets, s.ports, s.g.listeners[k], Listed(k));
  }

  /** A port below 1024, or one a published listener has, is refused in the check already. */
  lemma TakenPortRefused(s: Sys, c: Session, id: seq<byte>, network: byte, port: int)
    requires Enabled(s, Check(c, id, network, port))
    ensures port >= 1024 && forall k :: k in s.g.listeners ==> KeyOf(s.g.listeners[k]) != PortKey(network, port)
  {
  }

  // ---- ports are given back ----

  predicate HasPort(l: Listener, ref: nat, p: PortKey) {
    l.ref == ref && KeyOf(l) == p
  }

  /** Whoever has a port is still about: a goroutine at work, a listener in the table, or one being closed. */
  predicate PortHeld(s: Sys, p: PortKey) {
    p in s.ports && s.ports[p] in s.sockets
    && match s.sockets[s.ports[p]]
       case Working(c) => c in s.work && !s.work[c].Checked? && HasPort(s.work[c].l, s.ports[p], p)
       case Listed(k) => k in s.g.listeners && HasPort(s.g.listeners[k], s.ports[p], p)
       case Closing(l) => HasPort(l, s.ports[p], p)
       case Closed => false
  }

  ghost predicate PortsHeld(s: Sys) {
    forall p :: p in s.ports ==> PortHeld(s, p)
  }

  lemma CloseHeld(s: Sys, e: Event)
    requires Inv(s) && PortsHeld(s) && Enabled(s, e) && e.Close?
    ensures PortsHeld(Next(s, e))
  {
    var t := Next(s, e);
    forall p | p in t.ports ensures PortHeld(t, p) {
      assert PortHeld(s, p);
    }
  }

  lemma BindHeld(s: Sys, e: Event)
    requires Inv(s) && PortsHeld(s) && Enabled(s, e) && (e.Check? || e.Bind?)
    ensures PortsHeld(Next(s, e))
  {
    var t := Next(s, e);
    forall p | p in t.ports ensures PortHeld(t, p) {
      assert p in s.ports ==> PortHeld(s, p);
    }
  }

  lemma PublishHeld(s: Sys, e: Event)
    requires Inv(s) && PortsHeld(s) && Enabled(s, e) && e.Publish?
    ensures PortsHeld(Next(s, e))
  {
    var t := Next(s, e);
    assert Socket(s.sockets, s.ports, s.work[e.c].l, Working(e.c));
    forall p | p in t.ports ensures PortHeld(t, p) {
      assert PortHeld(s, p);
    }
  }

  lemma UnregisterHeld(s: Sys, e: Event)
    requires Inv(s) && PortsHeld(s) && Enabled(s, e) && e.Unregister?
    ensures PortsHeld(Next(s, e))
  {
    var t := Next(s, e);
    forall p | p in t.ports ensures PortHeld(t, p) {
      assert PortHeld(s, p);
    }
  }

  lemma DropHeld(s: Sys, e: Event)
    requires Inv(s) && PortsHeld(s) && Enabled(s, e) && e.Drop?
    ensures PortsHeld(Next(s, e))
  {
    var t := Next(s, e);
    assert Socket(s.sockets, s.ports, s.work[e.c].l, Working(e.c));
    forall p | p in t.ports ensures PortHeld(t, p) {
      assert PortHeld(s, p);
    }
  }

  lemma CloseSocketHeld(s: Sys, e: Event)
    requires Inv(s) && PortsHeld(s) && Enabled(s, e) && e.CloseSocket?
    ensures PortsHeld(Next(s, e))
  {
    var t := Next(s, e);
    assert Socket(s.sockets, s.ports, s.sockets[e.ref].l, s.sockets[e.ref]);
    forall p | p in t.ports ensures PortHeld(t, p) {
      assert PortHeld(s, p);
    }
  }

  lemma OthersHeld(s: Sys, e: Event)
    requires PortsHeld(s) && Enabled(s, e) && (AboutStreams(e) || e.Open?)
    ensures PortsHeld(Next(s, e))
  {
    var t := Next(s, e);
    forall p | p in t.ports ensures PortHeld(t, p) {
      assert PortHeld(s, p);
    }
  }

  lemma HeldStep(s: Sys, e: Event)
    requires Inv(s) && PortsHeld(s) && Enabled(s, e)
    ensures PortsHeld(Next(s, e))
  {
    match e
    case Close(_) => CloseHeld(s, e);
    case Check(_, _, _, _) => BindHeld(s, e);
    case Bind(_, _, _) => BindHeld(s, e);
    case Publish(_) => PublishHeld(s, e);
    case Unregister(_, _) => UnregisterHeld(s, e);
    case Drop(_) => DropHeld(s, e);
    case CloseSocket(_) => CloseSocketHeld(s, e);
    case _ => OthersHeld(s, e);
  }

  lemma {:induction false} HeldRun(s: Sys, events: seq<Event>)
    requires Inv(s) && PortsHeld(s) && Runs(s, events)
    ensures PortsHeld(After(s, events))
    decreases |events|
  {
    if events != [] {
      HeldStep(s, events[0]);
      StepKeeps(s, events[0]);
      HeldRun(Next(s, events[0]), events[1..]);
    }
  }

  /** In every run a port is bound only for a listener in the table, one a goroutine has just bound or taken out, or one
      of an ended session on its way out: none is kept without a user. */
  lemma PortsAreHeld(events: seq<Event>, p: PortKey)
    requires Runs(INITIAL, events) && p in After(INITIAL, events).ports
    ensures PortHeld(After(INITIAL, events), p)
  {
    StartsWell();
    HeldRun(INITIAL, events);
  }
}
