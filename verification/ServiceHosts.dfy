/** The hosts a Service is reached by: serviceRewriteHosts of internal/intercept/host_routes.go. */
module ServiceHosts {
  import opened Intercepts

  datatype Service = Service(namespace: string, name: string, clusterIp: string)

  type Normalizer = string -> string

  /** What add keeps of a candidate host, given those kept before. */
  function AddHost(hosts: seq<string>, host: string, normalize: Normalizer): (r: seq<string>)
    ensures hosts <= r
    ensures normalize(host) != "" && normalize(host) != "none" ==> normalize(host) in r
    ensures forall h :: h in r && h !in hosts ==> h == normalize(host) && h != "" && h != "none"
    ensures (forall i, j :: 0 <= i < j < |hosts| ==> hosts[i] != hosts[j]) ==>
              forall i, j :: 0 <= i < j < |r| ==> r[i] != r[j]
  {
    var h := normalize(host);
    if h == "" || h == "none" || h in hosts then hosts else hosts + [h]
  }

  const SUFFIXES: seq<string> := [".svc.cluster.local", ".svc", ""]

  /** serviceRewriteHosts: the cluster IP, then the Service's DNS names. */
  function ServiceRewriteHosts(s: Service, normalize: Normalizer): (hosts: seq<string>) {
    var ip := AddHost([], s.clusterIp, normalize);
    if s.name == "" || s.namespace == "" then ip
    else
      var base := s.name + "." + s.namespace;
      AddHost(AddHost(AddHost(ip, base + SUFFIXES[0], normalize), base + SUFFIXES[1], normalize),
              base + SUFFIXES[2], normalize)
  }

  ghost predicate DotFree(s: string) {
    forall i :: 0 <= i < |s| ==> s[i] != '.'
  }

  /** A text before its first dot is unambiguous. */
  lemma FirstDot(a: string, b: string, x: string, y: string)
    requires DotFree(a) && DotFree(b) && a + "." + x == b + "." + y
    ensures a == b && x == y
  {
    var s, t := a + "." + x, b + "." + y;
    DotPlace(a, x);
    DotPlace(b, y);
    assert s[..|a|] == a && t[..|b|] == b;
    assert s[|a| + 1..] == x && t[|b| + 1..] == y;
  }

  lemma DotPlace(a: string, x: string)
    requires DotFree(a)
    ensures var s := a + "." + x;
            s[|a|] == '.' && forall k :: 0 <= k < |a| ==> s[k] != '.'
  {
  }

  /** A namespace and a suffix can be told apart. */
  lemma SuffixPlain(a: string, b: string, i: nat, j: nat)
    requires DotFree(a) && DotFree(b) && i < 3 && j < 3 && a + SUFFIXES[i] == b + SUFFIXES[j]
    ensures a == b && i == j
  {
    var rest := ["svc.cluster.local", "svc"];
    if i < 2 && j < 2 {
      assert SUFFIXES[i] == "." + rest[i] && SUFFIXES[j] == "." + rest[j];
      assert a + "." + rest[i] == a + SUFFIXES[i] && b + "." + rest[j] == b + SUFFIXES[j];
      FirstDot(a, b, rest[i], rest[j]);
      assert |rest[0]| != |rest[1]|;
    } else {
      SuffixDot(a, i);
      SuffixDot(b, j);
    }
  }

  lemma SuffixDot(a: string, i: nat)
    requires DotFree(a) && i < 3
    ensures DotFree(a + SUFFIXES[i]) <==> i == 2
    ensures i == 2 ==> a + SUFFIXES[i] == a
  {
    if i < 2 {
      assert (a + SUFFIXES[i])[|a|] == '.';
    }
  }

  /** Services with dot-free names never share a DNS name. */
  lemma NamesDisjoint(s: Service, t: Service, i: nat, j: nat)
    requires i < 3 && j < 3
    requires DotFree(s.name) && DotFree(s.namespace) && DotFree(t.name) && DotFree(t.namespace)
    requires s.name + "." + s.namespace + SUFFIXES[i] == t.name + "." + t.namespace + SUFFIXES[j]
    ensures s.name == t.name && s.namespace == t.namespace && i == j
  {
    assert s.name + "." + s.namespace + SUFFIXES[i] == s.name + "." + (s.namespace + SUFFIXES[i]);
    assert t.name + "." + t.namespace + SUFFIXES[j] == t.name + "." + (t.namespace + SUFFIXES[j]);
    FirstDot(s.name, t.name, s.namespace + SUFFIXES[i], t.namespace + SUFFIXES[j]);
    SuffixPlain(s.namespace, t.namespace, i, j);
  }

  // ---- whose a host is ----

  function NameOf(s: Service, i: nat): (n: string)
    requires i < 3
  {
    s.name + "." + s.namespace + SUFFIXES[i]
  }

  function Dots(s: string): (n: nat) {
    if s == "" then 0 else (if s[0] == '.' then 1 else 0) + Dots(s[1..])
  }

  lemma {:induction false} DotsJoin(a: string, b: string)
    ensures Dots(a + b) == Dots(a) + Dots(b)
  {
    if a == "" {
      assert a + b == b;
    } else {
      assert (a + b)[1..] == a[1..] + b;
      DotsJoin(a[1..], b);
    }
  }

  lemma {:induction false} DotFreeCounts(s: string)
    requires DotFree(s)
    ensures Dots(s) == 0
  {
    if s != "" {
      DotFreeCounts(s[1..]);
    }
  }

  lemma DotThen(rest: string)
    ensures Dots("." + rest) == 1 + Dots(rest)
  {
    assert ("." + rest)[1..] == rest;
  }

  lemma LabelDots(a: string, rest: string)
    requires DotFree(a)
    ensures Dots(a + rest) == Dots(rest)
  {
    DotFreeCounts(a);
    DotsJoin(a, rest);
  }

  lemma OneDot(a: string)
    requires DotFree(a)
    ensures Dots("." + a) == 1
  {
    DotFreeCounts(a);
    DotThen(a);
  }

  lemma ThreeDots(a: string, b: string, c: string)
    requires DotFree(a) && DotFree(b) && DotFree(c)
    ensures Dots("." + a + ("." + b + ("." + c))) == 3
  {
    OneDot(c);
    LabelDots(b, "." + c);
    DotThen(b + ("." + c));
    assert "." + b + ("." + c) == "." + (b + ("." + c));
    LabelDots(a, "." + b + ("." + c));
    DotThen(a + ("." + b + ("." + c)));
    assert "." + a + ("." + b + ("." + c)) == "." + (a + ("." + b + ("." + c)));
  }

  lemma SuffixDots(i: nat)
    requires i < 3
    ensures Dots(SUFFIXES[i]) == if i == 0 then 3 else if i == 1 then 1 else 0
  {
    if i == 0 {
      ThreeDots("svc", "cluster", "local");
      assert "." + "svc" + ("." + "cluster" + ("." + "local")) == SUFFIXES[i];
    } else if i == 1 {
      OneDot("svc");
      assert "." + "svc" == SUFFIXES[i];
    }
  }

  lemma NameSplit(s: Service, i: nat)
    requires i < 3
    ensures NameOf(s, i) == s.name + ("." + (s.namespace + SUFFIXES[i]))
  {
  }

  /** A Service's DNS names have one, two or four dots: never none and never the three of an IPv4 address. */
  lemma NameDots(s: Service, i: nat)
    requires i < 3 && DotFree(s.name) && DotFree(s.namespace)
    ensures Dots(NameOf(s, i)) == 1 + Dots(SUFFIXES[i])
  {
    NameSplit(s, i);
    LabelDots(s.namespace, SUFFIXES[i]);
    DotThen(s.namespace + SUFFIXES[i]);
    LabelDots(s.name, "." + (s.namespace + SUFFIXES[i]));
  }

  lemma NameIsNotIp(s: Service, i: nat, ip: string)
    requires i < 3 && DotFree(s.name) && DotFree(s.namespace) && (Dots(ip) == 3 || Dots(ip) == 0)
    ensures NameOf(s, i) != ip
  {
    NameDots(s, i);
    SuffixDots(i);
  }

  lemma NameIsReal(s: Service, i: nat)
    requires i < 3
    ensures NameOf(s, i) != "" && NameOf(s, i) != "none"
  {
    NameSplit(s, i);
    assert NameOf(s, i)[|s.name|] == '.';
    assert DotFree("none");
  }

  /** A Service as the cluster has them: names are labels the normaliser keeps, and the cluster IP is an IPv4 address,
      with three dots, or has none. */
  ghost predicate Regular(s: Service, normalize: Normalizer) {
    && s.name != "" && s.namespace != "" && DotFree(s.name) && DotFree(s.namespace)
    && (forall i :: 0 <= i < 3 ==> normalize(NameOf(s, i)) == NameOf(s, i))
    && (Dots(normalize(s.clusterIp)) == 3 || Dots(normalize(s.clusterIp)) == 0)
  }

  /** The cluster IP is one, and not the absence of one. */
  predicate HasIp(s: Service, normalize: Normalizer) {
    normalize(s.clusterIp) != "" && normalize(s.clusterIp) != "none"
  }

  predicate IsNameOf(s: Service, h: string) {
    exists i :: 0 <= i < 3 && h == NameOf(s, i)
  }

  lemma HostsAre(s: Service, normalize: Normalizer, h: string)
    requires Regular(s, normalize)
    ensures h in ServiceRewriteHosts(s, normalize)
       <==> (HasIp(s, normalize) && h == normalize(s.clusterIp)) || IsNameOf(s, h)
  {
    NameIsReal(s, 0);
    NameIsReal(s, 1);
    NameIsReal(s, 2);
    var ip := AddHost([], s.clusterIp, normalize);
    var one := AddHost(ip, NameOf(s, 0), normalize);
    var two := AddHost(one, NameOf(s, 1), normalize);
    AddedHost([], s.clusterIp, normalize, h);
    AddedHost(ip, NameOf(s, 0), normalize, h);
    AddedHost(one, NameOf(s, 1), normalize, h);
    AddedHost(two, NameOf(s, 2), normalize, h);
    assert ServiceRewriteHosts(s, normalize) == AddHost(two, NameOf(s, 2), normalize);
  }

  lemma AddedHost(hosts: seq<string>, host: string, normalize: Normalizer, h: string)
    ensures var n := normalize(host);
            h in AddHost(hosts, host, normalize) <==> h in hosts || (h == n && n != "" && n != "none")
  {
  }

  /** Two Services of different names share a host if and only if they have one cluster IP. */
  lemma SharedHostIsSharedIp(s: Service, t: Service, normalize: Normalizer)
    requires Regular(s, normalize) && Regular(t, normalize) && (s.name != t.name || s.namespace != t.namespace)
    ensures (exists h :: h in ServiceRewriteHosts(s, normalize) && h in ServiceRewriteHosts(t, normalize))
       <==> HasIp(s, normalize) && normalize(s.clusterIp) == normalize(t.clusterIp)
  {
    var ip := normalize(s.clusterIp);
    HostsAre(s, normalize, ip);
    HostsAre(t, normalize, ip);
    forall h | h in ServiceRewriteHosts(s, normalize) && h in ServiceRewriteHosts(t, normalize)
      ensures HasIp(s, normalize) && ip == normalize(t.clusterIp)
    {
      HostsAre(s, normalize, h);
      HostsAre(t, normalize, h);
      NamesApart(s, t, h);
      NoNameIsIp(s, normalize(t.clusterIp));
      NoNameIsIp(t, ip);
    }
  }

  lemma NamesApart(s: Service, t: Service, h: string)
    requires DotFree(s.name) && DotFree(s.namespace) && DotFree(t.name) && DotFree(t.namespace)
    requires s.name != t.name || s.namespace != t.namespace
    ensures !(IsNameOf(s, h) && IsNameOf(t, h))
  {
    forall i, j | 0 <= i < 3 && 0 <= j < 3 ensures NameOf(s, i) != NameOf(t, j) {
      if NameOf(s, i) == NameOf(t, j) {
        NamesDisjoint(s, t, i, j);
      }
    }
  }

  lemma NoNameIsIp(s: Service, ip: string)
    requires DotFree(s.name) && DotFree(s.namespace) && (Dots(ip) == 3 || Dots(ip) == 0)
    ensures !IsNameOf(s, ip)
  {
    forall i | 0 <= i < 3 ensures ip != NameOf(s, i) {
      NameIsNotIp(s, i, ip);
    }
  }

  /** The Services of a cluster by key, no two with one cluster IP. */
  ghost predicate Cluster(services: map<Key, Service>, normalize: Normalizer) {
    && (forall k :: k in services ==>
          Regular(services[k], normalize) && k == services[k].namespace + "/" + services[k].name)
    && (forall j, k :: j in services && k in services && j != k && HasIp(services[j], normalize) ==>
          normalize(services[j].clusterIp) != normalize(services[k].clusterIp))
  }

  predicate IsHostOf(services: map<Key, Service>, normalize: Normalizer, k: Key, h: string) {
    k in services && h in ServiceRewriteHosts(services[k], normalize)
  }

  ghost function OwnerOf(services: map<Key, Service>, normalize: Normalizer, h: string): (k: Key)
    ensures (exists j :: IsHostOf(services, normalize, j, h)) ==> IsHostOf(services, normalize, k, h)
  {
    if j :| IsHostOf(services, normalize, j, h) then j else ""
  }

  /** In a cluster a host has one owner. */
  lemma OneOwner(services: map<Key, Service>, normalize: Normalizer, k: Key, h: string)
    requires Cluster(services, normalize) && IsHostOf(services, normalize, k, h)
    ensures OwnerOf(services, normalize, h) == k
  {
    var j := OwnerOf(services, normalize, h);
    if j != k {
      SharedHostIsSharedIp(services[j], services[k], normalize);
    }
  }

  // ---- the normaliser ----

  predicate Space(c: char) {
    c == ' ' || c == '\t' || c == '\n' || c == '\r'
  }

  function Lower(c: char): (d: char) {
    if 'A' <= c <= 'Z' then c + 32 as char else c
  }

  function TrimLeft(s: string): (t: string) {
    if s != "" && Space(s[0]) then TrimLeft(s[1..]) else s
  }

  function TrimRight(s: string): (t: string) {
    if s != "" && Space(s[|s| - 1]) then TrimRight(s[..|s| - 1]) else s
  }

  /** normalizeRouteHost on ASCII. */
  function NormalizeRouteHost(host: string): (t: string) {
    var s := TrimRight(TrimLeft(host));
    seq(|s|, i requires 0 <= i < |s| => Lower(s[i]))
  }

  predicate LabelChar(c: char) {
    'a' <= c <= 'z' || '0' <= c <= '9' || c == '-'
  }

  /** A lower-case DNS label, as the cluster requires of names. */
  predicate Label(s: string) {
    s != "" && forall i :: 0 <= i < |s| ==> LabelChar(s[i])
  }

  lemma NormalizeKeeps(s: string)
    requires forall i :: 0 <= i < |s| ==> LabelChar(s[i]) || s[i] == '.'
    ensures NormalizeRouteHost(s) == s
  {
    assert TrimLeft(s) == s && TrimRight(s) == s;
  }

  /** Every Service whose names are labels is regular for it, whatever IPv4 address or none it has. */
  lemma LabelsAreRegular(s: Service)
    requires Label(s.name) && Label(s.namespace)
    requires Dots(NormalizeRouteHost(s.clusterIp)) == 3 || Dots(NormalizeRouteHost(s.clusterIp)) == 0
    ensures Regular(s, NormalizeRouteHost)
  {
    forall i | 0 <= i < 3 ensures NormalizeRouteHost(NameOf(s, i)) == NameOf(s, i) {
      SuffixChars(i);
      NormalizeKeeps(NameOf(s, i));
    }
  }

  lemma SuffixChars(i: nat)
    requires i < 3
    ensures forall k :: 0 <= k < |SUFFIXES[i]| ==> LabelChar(SUFFIXES[i][k]) || SUFFIXES[i][k] == '.'
  {
    if i == 0 {
      var t := ".svc.cluster.local";
      assert forall k :: 0 <= k < |t| ==> t[k] in {'.', 's', 'v', 'c', 'l', 'u', 't', 'e', 'r', 'o', 'a'};
    }
  }

  lemma {:induction false} TrimLeftKeeps(a: string, s: string)
    requires (forall i :: 0 <= i < |a| ==> Space(a[i])) && (s == "" || !Space(s[0]))
    ensures TrimLeft(a + s) == s
  {
    if a == "" {
      assert a + s == s;
    } else {
      assert (a + s)[1..] == a[1..] + s;
      TrimLeftKeeps(a[1..], s);
    }
  }

  lemma {:induction false} TrimRightKeeps(s: string, b: string)
    requires (forall i :: 0 <= i < |b| ==> Space(b[i])) && (s == "" || !Space(s[|s| - 1]))
    ensures TrimRight(s + b) == s
  {
    if b == "" {
      assert s + b == s;
    } else {
      assert (s + b)[..|s + b| - 1] == s + b[..|b| - 1];
      TrimRightKeeps(s, b[..|b| - 1]);
    }
  }

  /** Blanks around a host and the case of its letters do not matter. */
  lemma NormalizeForgets(a: string, s: string, b: string)
    requires (forall i :: 0 <= i < |a| ==> Space(a[i])) && (forall i :: 0 <= i < |b| ==> Space(b[i]))
    requires s != "" && !Space(s[0]) && !Space(s[|s| - 1])
    ensures var t := NormalizeRouteHost(a + s + b);
            |t| == |s|
            && forall i :: 0 <= i < |s| ==> t[i] == if 'A' <= s[i] <= 'Z' then s[i] + 32 as char else s[i]
  {
    assert a + s + b == a + (s + b);
    TrimLeftKeeps(a, s + b);
    TrimRightKeeps(s, b);
  }
}
