/** The Gateway as a state machine: one event is one section under the server's mutex, one call of the operating
    system or one step of the stream counter. Control sessions, listeners, timers and accepts interleave freely. */
module GatewaySystem {
  import opened Bytes
  import opened Wrappers
  import opened TunnelFrames
  import opened Gateway

  /** What a control session's goroutine is in the middle of. It reads its next message, or ends, only after. */
  datatype Work =
    | Checked(id: seq<byte>, network: byte, port: int)
    | Bound(id: seq<byte>, l: Listener)
    | Dropping(l: Listener)

  /** Where a socket is: with a goroutine, in the table, or being closed after its session ended. */
  datatype Place = Working(c: Session) | Listed(key: ListenerKey) | Closing(l: Listener) | Closed

  datatype PortKey = PortKey(network: byte, port: int)

  /** How a stream left the pending map. */
  datatype Claim = Accepted(token: Token) | TimedOut(draw: nat) | Withdrawn(draw: nat) | TenantGone(session: Session)

  datatype Phase = Drawn | Armed | Offered | Refused

  datatype Stream = Stream(token: Token, phase: Phase, claims: seq<Claim>)

  /** `listened` are the sessions that have had a socket of their own, whose accept loops hand out stream ids. */
  datatype Sys = Sys(
    g: GatewayState,
    sessions: nat,
    work: map<Session, Work>,
    listened: set<Session>,
    sockets: map<nat, Place>,
    ports: map<PortKey, nat>,
    draws: nat,
    streams: map<nat, Stream>)

  const INITIAL := Sys(NEW_GATEWAY, 0, map[], {}, map[], map[], 0, map[])

  datatype Event =
    | Open(c: Session)
    | Close(c: Session)
    | Check(c: Session, id: seq<byte>, network: byte, port: int)
    | Bind(c: Session, ref: nat, ok: bool)
    | Publish(c: Session)
    | Unregister(c: Session, id: seq<byte>)
    | Drop(c: Session)
    | CloseSocket(ref: nat)
    | Draw(c: Session)
    | Arm(draw: nat)
    | Offer(draw: nat)
    | Withdraw(draw: nat)
    | Timeout(draw: nat)
    | Accept(token: Token, stream: nat)

  /** A control session that waits for its next message. */
  predicate Reading(s: Sys, c: Session) {
    c in s.g.controls && c !in s.work
  }

  predicate Enabled(s: Sys, e: Event) {
    match e
    case Open(c) => c.ref == s.sessions
    case Close(c) => Reading(s, c)
    case Check(c, id, network, port) => Reading(s, c) && s.g.CanOpen(ListenerKey(c.token, id), network, port)
    case Bind(c, ref, ok) =>
      // the operating system lets one socket of a network have a port
      c in s.work && s.work[c].Checked? && ref !in s.sockets
      && (ok ==> PortKey(s.work[c].network, s.work[c].port) !in s.ports)
    case Publish(c) => c in s.work && s.work[c].Bound?
    case Unregister(c, _) => Reading(s, c)
    case Drop(c) => c in s.work && s.work[c].Dropping?
    case CloseSocket(ref) => ref in s.sockets && s.sockets[ref].Closing?
    case Draw(c) =>
      // an accept loop runs from its socket's bind on, and may hold a connection when the socket is closed
      c in s.listened
    case Arm(n) => n in s.streams && s.streams[n].phase.Drawn?
    case Offer(n) => n in s.streams && s.streams[n].phase.Armed?
    case Withdraw(n) => n in s.streams && s.streams[n].phase.Offered?
    case Timeout(n) => n in s.streams && !s.streams[n].phase.Drawn?
    case Accept(_, _) => true
  }

  function KeyOf(l: Listener): PortKey {
    PortKey(l.network, l.port)
  }

  /** The sockets of a session that ended leave the table with their listeners. */
  function Leaving(s: Sys, c: Session): map<nat, Place> {
    map r | r in s.sockets ::
      if s.sockets[r].Listed? && s.sockets[r].key in s.g.listeners && s.g.listeners[s.sockets[r].key].control == c
         && s.g.listeners[s.sockets[r].key].ref == r
      then Closing(s.g.listeners[s.sockets[r].key]) else s.sockets[r]
  }

  function Claimed(streams: map<nat, Stream>, taken: Option<Pending>, claim: Claim): map<nat, Stream> {
    if taken.Some? && taken.value.draw in streams then
      var n := taken.value.draw;
      streams[n := streams[n].(claims := streams[n].claims + [claim])]
    else streams
  }

  /** The streams a session takes with it when it is its tenant's last. */
  function Swept(s: Sys, c: Session): map<nat, Stream> {
    map n | n in s.streams ::
      if s.g.LastOfTenant(c) && StreamId(n) in s.g.pending && s.g.pending[StreamId(n)] == Pending(n, c.token)
      then s.streams[n].(claims := s.streams[n].claims + [TenantGone(c)]) else s.streams[n]
  }

  function SetPhase(s: Sys, n: nat, phase: Phase): map<nat, Stream>
    requires n in s.streams
  {
    s.streams[n := s.streams[n].(phase := phase)]
  }

  function Next(s: Sys, e: Event): (t: Sys)
    requires Enabled(s, e)
  {
    match e
    case Open(c) => s.(g := s.g.AddControl(c), sessions := s.sessions + 1)
    case Close(c) => s.(g := s.g.RemoveControl(c), sockets := Leaving(s, c), streams := Swept(s, c))
    case Check(c, id, network, port) => s.(work := s.work[c := Checked(id, network, port)])
    case Bind(c, ref, ok) =>
      if ok then
        var w := s.work[c];
        var l := Listener(ref, w.network, w.port, c);
        s.(work := s.work[c := Bound(w.id, l)], listened := s.listened + {c}, ports := s.ports[KeyOf(l) := ref],
           sockets := s.sockets[ref := Working(c)])
      else s.(work := s.work - {c})
    case Publish(c) =>
      var key, l := ListenerKey(c.token, s.work[c].id), s.work[c].l;
      if key in s.g.listeners then s.(work := s.work[c := Dropping(l)])
      else s.(g := s.g.Publish(key, l), work := s.work - {c}, sockets := s.sockets[l.ref := Listed(key)])
    case Unregister(c, id) =>
      if s.g.Owns(c, id) then
        var l := s.g.listeners[ListenerKey(c.token, id)];
        s.(g := s.g.Unregister(c, id), work := s.work[c := Dropping(l)], sockets := s.sockets[l.ref := Working(c)])
      else s
    case Drop(c) =>
      var l := s.work[c].l;
      s.(work := s.work - {c}, ports := s.ports - {KeyOf(l)}, sockets := s.sockets[l.ref := Closed])
    case CloseSocket(ref) =>
      s.(ports := s.ports - {KeyOf(s.sockets[ref].l)}, sockets := s.sockets[ref := Closed])
    case Draw(c) => s.(draws := s.draws + 1, streams := s.streams[s.draws + 1 := Stream(c.token, Drawn, [])])
    case Arm(n) => s.(streams := SetPhase(s, n, Armed))
    case Offer(n) =>
      s.(g := s.g.Offer(Pending(n, s.streams[n].token)),
         streams := SetPhase(s, n, if StreamId(n) in s.g.pending then Refused else Offered))
    case Withdraw(n) =>
      s.(g := s.g.Take(StreamId(n)), streams := Claimed(s.streams, s.g.Taken(StreamId(n)), Withdrawn(n)))
    case Timeout(n) =>
      s.(g := s.g.Take(StreamId(n)), streams := Claimed(s.streams, s.g.Taken(StreamId(n)), TimedOut(n)))
    case Accept(token, id) =>
      if s.g.CanAccept(token, id) then
        s.(g := s.g.Take(id), streams := Claimed(s.streams, s.g.Taken(id), Accepted(token)))
      else s
  }

  ghost predicate Runs(s: Sys, events: seq<Event>)
    decreases |events|
  {
    events == [] || (Enabled(s, events[0]) && Runs(Next(s, events[0]), events[1..]))
  }

  ghost function After(s: Sys, events: seq<Event>): (t: Sys)
    requires Runs(s, events)
    decreases |events|
  {
    if events == [] then s else After(Next(s, events[0]), events[1..])
  }
}
