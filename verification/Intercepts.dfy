/** What an intercept is made of: the values of internal/intercept/model.go, manager.go and host_routes.go. */
module Intercepts {
  datatype Net = TCP | UDP

  function NetworkName(n: Net): string {
    if n.UDP? then "udp" else "tcp"
  }

  /** A Service port and the Gateway port that stands in for it. */
  datatype Port = Port(network: Net, servicePort: int, listenPort: int)

  datatype PortMapping = PortMapping(servicePort: int, network: Net, localHost: string, localPort: int)

  /** "namespace/service": the registry key, and the intercept's id as well. */
  type Key = string

  /** The id one port is registered under at the Gateway. */
  datatype SubId = SubId(id: Key, network: Net, servicePort: int)

  datatype Mode = Exchange | Mirror

  datatype Info = Info(id: Key, key: Key, mode: Mode, preview: bool, ports: seq<Port>)

  datatype HostKey = HostKey(host: string, port: int)

  datatype HostRoute = HostRoute(mode: Mode, preview: bool, local: PortMapping, primaryAddr: string)

  /** A published intercept. `ref` is its identity: the start that made it, whose lease it owns. */
  datatype Runtime = Runtime(
    ref: nat,
    info: Info,
    portKeys: map<SubId, PortMapping>,
    primaryAddrs: map<SubId, string>,
    hostKeys: seq<HostKey>,
    stopping: bool)

  /** One control-channel registration: what the Gateway is asked to listen on. */
  datatype Registration = Registration(id: SubId, network: Net, listenPort: int)

  function SubOf(id: Key, p: Port): (s: SubId) {
    SubId(id, p.network, p.servicePort)
  }

  /** A Go conversion of an int32 to uint16. */
  function AsUint16(n: int): (u: int)
    ensures 0 <= u < 65536
    ensures 0 <= n < 65536 ==> u == n
  {
    n % 65536
  }

  function Digit(d: nat): (c: char)
    requires d < 10
    ensures c != ':' && c != '-'
    ensures forall e :: 0 <= e < 10 && e != d ==> c != "0123456789"[e]
  {
    "0123456789"[d]
  }

  function Digits(n: nat): (s: string)
    ensures |s| > 0 && forall i :: 0 <= i < |s| ==> s[i] != ':' && s[i] != '-'
  {
    if n < 10 then [Digit(n)] else Digits(n / 10) + [Digit(n % 10)]
  }

  /** The %d of an integer. */
  function Decimal(n: int): (s: string)
    ensures |s| > 0 && forall i :: 0 <= i < |s| ==> s[i] != ':'
  {
    if n < 0 then "-" + Digits(-n) else Digits(n)
  }

  lemma {:induction false} DigitsInjective(m: nat, n: nat)
    requires Digits(m) == Digits(n)
    ensures m == n
  {
    var a, b := Digits(m), Digits(n);
    assert a[|a| - 1] == Digit(m % 10) && b[|b| - 1] == Digit(n % 10);
    if m >= 10 && n >= 10 {
      assert a[..|a| - 1] == Digits(m / 10) && b[..|b| - 1] == Digits(n / 10);
      DigitsInjective(m / 10, n / 10);
    }
  }

  lemma SignShows(n: int)
    ensures Decimal(n)[0] == '-' <==> n < 0
    ensures n < 0 ==> Decimal(n)[1..] == Digits(-n)
  {
  }

  lemma DecimalInjective(m: int, n: int)
    requires Decimal(m) == Decimal(n)
    ensures m == n
  {
    SignShows(m);
    SignShows(n);
    if m < 0 && n < 0 {
      DigitsInjective(-m, -n);
    } else if m >= 0 && n >= 0 {
      DigitsInjective(m, n);
    }
  }

  /** The text of a sub-id: fmt.Sprintf("%s:%s:%d", id, network, servicePort). */
  function SubText(s: SubId): (t: string) {
    s.id + ":" + NetworkName(s.network) + ":" + Decimal(s.servicePort)
  }

  lemma ColonPlace(a: string, x: string)
    requires forall i :: 0 <= i < |x| ==> x[i] != ':'
    ensures var s := a + ":" + x;
            s[|a|] == ':' && forall k :: |a| < k < |s| ==> s[k] != ':'
  {
  }

  /** A text after its last colon is unambiguous. */
  lemma LastColon(a: string, b: string, x: string, y: string)
    requires a + ":" + x == b + ":" + y
    requires forall i :: 0 <= i < |x| ==> x[i] != ':'
    requires forall i :: 0 <= i < |y| ==> y[i] != ':'
    ensures a == b && x == y
  {
    var s, t := a + ":" + x, b + ":" + y;
    ColonPlace(a, x);
    ColonPlace(b, y);
    assert s[..|a|] == a && t[..|b|] == b;
    assert s[|a| + 1..] == x && t[|b| + 1..] == y;
  }

  /** Different sub-ids have different texts: an id with colons of its own cannot be mistaken for another. */
  lemma SubTextInjective(s: SubId, t: SubId)
    requires SubText(s) == SubText(t)
    ensures s == t
  {
    LastColon(s.id + ":" + NetworkName(s.network), t.id + ":" + NetworkName(t.network),
              Decimal(s.servicePort), Decimal(t.servicePort));
    DecimalInjective(s.servicePort, t.servicePort);
    LastColon(s.id, t.id, NetworkName(s.network), NetworkName(t.network));
  }
}
