/** The Gateway's shared state: internal/gateway/server.go, reverse.go and pending.go. Every section under the
    server's mutex is a function of that state, and a method that carries it out on the fields. */
module Gateway {
  import opened Bytes
  import opened Wrappers
  import opened ControlFrames
  import opened TunnelFrames

  /** A control session; `ref` is its identity. */
  datatype Session = Session(ref: nat, token: Token)

  datatype ListenerKey = ListenerKey(token: Token, id: seq<byte>)

  /** A listener; `ref` is the identity of its socket. */
  datatype Listener = Listener(ref: nat, network: byte, port: int, control: Session)

  /** A stream waiting to be accepted; `draw` says which of the stream ids handed out it was given. */
  datatype Pending = Pending(draw: nat, token: Token)

  const LOWEST_PORT := 1024
  const STREAM_IDS: nat := 0x1_0000_0000_0000_0000

  /** The id of the n-th stream: an atomic uint64 counter. */
  function StreamId(draw: nat): (id: nat) {
    draw % STREAM_IDS
  }

  datatype GatewayState = GatewayState(
    controls: set<Session>,
    tenants: map<Token, int>,
    listeners: map<ListenerKey, Listener>,
    pending: map<nat, Pending>)
  {
    /** A missing token reads as zero. */
    function Count(token: Token): int {
      if token in tenants then tenants[token] else 0
    }

    function AddControl(c: Session): GatewayState {
      this.(controls := controls + {c}, tenants := tenants[c.token := Count(c.token) + 1])
    }

    predicate LastOfTenant(c: Session) {
      Count(c.token) == 1
    }

    function RemoveControl(c: Session): GatewayState {
      GatewayState(
        controls - {c},
        if LastOfTenant(c) then tenants - {c.token} else tenants[c.token := Count(c.token) - 1],
        map k | k in listeners && listeners[k].control != c :: listeners[k],
        if LastOfTenant(c) then map i | i in pending && pending[i].token != c.token :: pending[i] else pending)
    }

    function ListenersOf(c: Session): set<Listener> {
      set k | k in listeners && listeners[k].control == c :: listeners[k]
    }

    /** The check before the socket is opened. */
    predicate CanOpen(key: ListenerKey, network: byte, port: int) {
      port >= LOWEST_PORT && key !in listeners
      && forall k :: k in listeners ==> !(listeners[k].port == port && listeners[k].network == network)
    }

    /** The check after: a session with the same token may have been faster. */
    function Publish(key: ListenerKey, l: Listener): GatewayState {
      if key in listeners then this else this.(listeners := listeners[key := l])
    }

    predicate Owns(c: Session, id: seq<byte>) {
      var key := ListenerKey(c.token, id);
      key in listeners && listeners[key].control == c
    }

    function Unregister(c: Session, id: seq<byte>): GatewayState {
      if Owns(c, id) then this.(listeners := listeners - {ListenerKey(c.token, id)}) else this
    }

    function Offer(p: Pending): GatewayState {
      if StreamId(p.draw) in pending then this else this.(pending := pending[StreamId(p.draw) := p])
    }

    function Taken(id: nat): Option<Pending> {
      if id in pending then Some(pending[id]) else None
    }

    function Take(id: nat): GatewayState {
      this.(pending := pending - {id})
    }

    predicate CanAccept(token: Token, id: nat) {
      id in pending && pending[id].token == token
    }
  }

  const NEW_GATEWAY := GatewayState({}, map[], map[], map[])

  datatype RegisterError = PortTooLow | AlreadyRegistered | PortInUse | ListenFailed | UnsupportedNetwork

  class Server {
    var controls: set<Session>
    var tenants: map<Token, int>
    var listeners: map<ListenerKey, Listener>
    var pending: map<nat, Pending>
    var nextStream: nat

    function State(): GatewayState
      reads this
    {
      GatewayState(controls, tenants, listeners, pending)
    }

    constructor ()
      ensures State() == NEW_GATEWAY && nextStream == 0
    {
      controls, tenants, listeners, pending, nextStream := {}, map[], map[], map[], 0;
    }

    method AddControl(c: Session)
      modifies this
      ensures State() == old(State()).AddControl(c) && nextStream == old(nextStream)
    {
      controls := controls + {c};
      tenants := tenants[c.token := (if c.token in tenants then tenants[c.token] else 0) + 1];
    }

    /** removeControl: the session's listeners leave the table whatever order they come in, and with the tenant's
        last session every stream of the tenant. */
    method RemoveControl(c: Session) returns (toClose: set<Listener>, streams: set<Pending>)
      modifies this
      ensures State() == old(State()).RemoveControl(c) && nextStream == old(nextStream)
      ensures toClose == old(State()).ListenersOf(c)
      ensures streams == set i | i in old(pending) && i !in pending :: old(pending)[i]
    {
      controls := controls - {c};
      var count := (if c.token in tenants then tenants[c.token] else 0) - 1;
      tenants := tenants[c.token := count];
      if count == 0 {
        tenants := tenants - {c.token};
      }
      toClose := DropListeners(c);
      streams := {};
      if count == 0 {
        streams := DropPending(c.token);
      }
    }

    method DropListeners(c: Session) returns (toClose: set<Listener>)
      modifies this`listeners
      ensures listeners == map k | k in old(listeners) && old(listeners)[k].control != c :: old(listeners)[k]
      ensures toClose == set k | k in old(listeners) && old(listeners)[k].control == c :: old(listeners)[k]
    {
      toClose := {};
      var rest := listeners.Keys;
      while rest != {}
        invariant rest <= old(listeners).Keys
        invariant listeners == map k | k in old(listeners) && (k in rest || old(listeners)[k].control != c)
                                 :: old(listeners)[k]
        invariant toClose == set k | k in old(listeners) && k !in rest && old(listeners)[k].control == c
                               :: old(listeners)[k]
        decreases rest
      {
        var key :| key in rest;
        rest := rest - {key};
        if listeners[key].control == c {
          toClose := toClose + {listeners[key]};
          listeners := listeners - {key};
        }
      }
    }

    method DropPending(token: Token) returns (streams: set<Pending>)
      modifies this`pending
      ensures pending == map i | i in old(pending) && old(pending)[i].token != token :: old(pending)[i]
      ensures streams == set i | i in old(pending) && i !in pending :: old(pending)[i]
    {
      streams := {};
      var rest := pending.Keys;
      while rest != {}
        invariant rest <= old(pending).Keys
        invariant pending == map i | i in old(pending) && (i in rest || old(pending)[i].token != token)
                               :: old(pending)[i]
        invariant streams == set i | i in old(pending) && i !in pending :: old(pending)[i]
        decreases rest
      {
        var id :| id in rest;
        rest := rest - {id};
        if pending[id].token == token {
          streams := streams + {pending[id]};
          pending := pending - {id};
        }
      }
    }

    /** The first half of registerIntercept. */
    method CheckRegister(c: Session, id: seq<byte>, network: byte, port: int) returns (error: Option<RegisterError>)
      ensures error.None? <==> State().CanOpen(ListenerKey(c.token, id), network, port)
      ensures error == Some(PortTooLow) <==> port < 1024
      ensures error == Some(AlreadyRegistered) ==> ListenerKey(c.token, id) in listeners
      ensures error == Some(PortInUse) ==>
                exists k :: k in listeners && listeners[k].port == port && listeners[k].network == network
    {
      if port < LOWEST_PORT {
        return Some(PortTooLow);
      }
      if ListenerKey(c.token, id) in listeners {
        return Some(AlreadyRegistered);
      }
      var rest := listeners.Keys;
      while rest != {}
        invariant rest <= listeners.Keys
        invariant forall k :: k in listeners && k !in rest ==>
                    !(listeners[k].port == port && listeners[k].network == network)
        decreases rest
      {
        var key :| key in rest;
        rest := rest - {key};
        if listeners[key].port == port && listeners[key].network == network {
          return Some(PortInUse);
        }
      }
      return None;
    }

    /** registerIntercept with nothing in between; `bound` is what the operating system says, and `ref` the socket. */
    method RegisterIntercept(c: Session, id: seq<byte>, network: byte, port: int, ref: nat, bound: bool)
      returns (error: Option<RegisterError>)
      modifies this`listeners
      ensures error.None? <==>
                old(State()).CanOpen(ListenerKey(c.token, id), network, port) && bound
                && (network == NETWORK_TCP || network == NETWORK_UDP)
      ensures State() == if error.None?
                         then old(State()).Publish(ListenerKey(c.token, id), Listener(ref, network, port, c))
                         else old(State())
      ensures error.None? ==> State().Owns(c, id)
    {
      error := CheckRegister(c, id, network, port);
      if error.Some? {
        return;
      }
      var isKnown := network == NETWORK_TCP || network == NETWORK_UDP;
      if !isKnown {
        return Some(UnsupportedNetwork);
      }
      if !bound {
        return Some(ListenFailed);
      }
      var published := PublishListener(ListenerKey(c.token, id), Listener(ref, network, port, c));
      error := if published then None else Some(AlreadyRegistered);
    }

    /** The second half: the listener enters the table, unless its key is there by now. */
    method PublishListener(key: ListenerKey, l: Listener) returns (ok: bool)
      modifies this`listeners
      ensures ok <==> key !in old(listeners)
      ensures State() == old(State()).Publish(key, l)
    {
      if key in listeners {
        return false;
      }
      listeners := listeners[key := l];
      return true;
    }

    method UnregisterIntercept(c: Session, id: seq<byte>) returns (dropped: Option<Listener>)
      modifies this`listeners
      ensures State() == old(State()).Unregister(c, id)
      ensures dropped.Some? <==> old(State()).Owns(c, id)
      ensures dropped.Some? ==> dropped.value == old(listeners)[ListenerKey(c.token, id)]
    {
      var key := ListenerKey(c.token, id);
      dropped := if key in listeners then Some(listeners[key]) else None;
      if dropped.Some? && dropped.value.control == c {
        listeners := listeners - {key};
      } else {
        dropped := None;
      }
    }

    /** nextStream.Add(1), the draw-th time. */
    method NextStream(ghost draw: nat) returns (id: nat)
      requires nextStream == StreamId(draw)
      modifies this`nextStream
      ensures id == (draw + 1) % 0x1_0000_0000_0000_0000 && nextStream == id
    {
      nextStream := (nextStream + 1) % STREAM_IDS;
      id := nextStream;
    }

    method OfferPending(p: Pending) returns (ok: bool)
      modifies this`pending
      ensures ok <==> StreamId(p.draw) !in old(pending)
      ensures State() == old(State()).Offer(p)
    {
      if StreamId(p.draw) in pending {
        return false;
      }
      pending := pending[StreamId(p.draw) := p];
      return true;
    }

    method TakePending(id: nat) returns (taken: Option<Pending>)
      modifies this`pending
      ensures taken == old(State()).Taken(id) && State() == old(State()).Take(id)
    {
      taken := if id in pending then Some(pending[id]) else None;
      pending := pending - {id};
    }

    method TakePendingFor(token: Token, id: nat) returns (taken: Option<Pending>)
      modifies this`pending
      ensures taken.Some? <==> old(State()).CanAccept(token, id)
      ensures taken.Some? ==> taken == old(State()).Taken(id) && taken.value.token == token
      ensures State() == if taken.Some? then old(State()).Take(id) else old(State())
    {
      if id !in pending || pending[id].token != token {
        return None;
      }
      taken := TakePending(id);
    }

    method TenantActive(token: Token) returns (active: bool)
      ensures active <==> State().Count(token) > 0
    {
      active := token in tenants && tenants[token] > 0;
    }
  }
}
