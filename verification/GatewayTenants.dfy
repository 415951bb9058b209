/** When a pending stream has a live tenant, and runs in which it has not or loses its stream to another's timer. */
module GatewayTenants {
  import opened ControlFrames
  import opened TunnelFrames
  import opened Gateway
  import opened GatewaySystem
  import GR = GatewayRuns
  import GS = GatewayStreams

  /** Every pending stream's tenant has a session. */
  ghost predicate TenantsLive(g: GatewayState) {
    forall i :: i in g.pending ==> g.Count(g.pending[i].token) > 0
  }

  /** tenantActive where a stream enters the pending map: the guard acceptTCP does without. */
  predicate OfferLive(s: Sys, e: Event)
    requires Enabled(s, e)
  {
    e.Offer? && StreamId(e.draw) !in s.g.pending ==> s.g.Count(s.streams[e.draw].token) > 0
  }

  ghost predicate AlwaysLive(s: Sys, events: seq<Event>)
    requires Runs(s, events)
    decreases |events|
  {
    TenantsLive(s.g) && (events == [] || AlwaysLive(Next(s, events[0]), events[1..]))
  }

  ghost predicate OffersLive(s: Sys, events: seq<Event>)
    requires Runs(s, events)
    decreases |events|
  {
    events == [] || (OfferLive(s, events[0]) && OffersLive(Next(s, events[0]), events[1..]))
  }

  lemma CloseLive(s: Sys, e: Event)
    requires GR.Inv(s) && TenantsLive(s.g) && Enabled(s, e) && e.Close?
    ensures TenantsLive(Next(s, e).g)
  {
    var token := e.c.token;
    assert GR.CountFits(s.g.controls, s.g.tenants, token);
    assert e.c in GR.Of(s.g.controls, token);
    assert s.g.Count(token) >= 1;
  }

  lemma OfferDecides(s: Sys, e: Event)
    requires TenantsLive(s.g) && Enabled(s, e) && e.Offer?
    ensures TenantsLive(Next(s, e).g) <==> OfferLive(s, e)
  {
    var id := StreamId(e.draw);
    if id !in s.g.pending {
      assert Next(s, e).g.pending[id].token == s.streams[e.draw].token;
    }
  }

  lemma OpenLive(s: Sys, e: Event)
    requires GR.Inv(s) && TenantsLive(s.g) && Enabled(s, e) && e.Open?
    ensures TenantsLive(Next(s, e).g)
  {
    assert GR.CountFits(s.g.controls, s.g.tenants, e.c.token);
  }

  /** Every other section leaves live tenants live; an offer does if and only if its own is. */
  lemma LiveStep(s: Sys, e: Event)
    requires GR.Inv(s) && TenantsLive(s.g) && Enabled(s, e)
    ensures TenantsLive(Next(s, e).g) <==> OfferLive(s, e)
  {
    if e.Offer? {
      OfferDecides(s, e);
    } else if e.Close? {
      CloseLive(s, e);
    } else if e.Open? {
      OpenLive(s, e);
    } else {
      assert Next(s, e).g.tenants == s.g.tenants;
      assert forall i :: i in Next(s, e).g.pending ==> i in s.g.pending && Next(s, e).g.pending[i] == s.g.pending[i];
    }
  }

  lemma {:induction false} LiveFrom(s: Sys, events: seq<Event>)
    requires GR.Inv(s) && TenantsLive(s.g) && Runs(s, events)
    ensures AlwaysLive(s, events) <==> OffersLive(s, events)
    decreases |events|
  {
    if events != [] {
      LiveStep(s, events[0]);
      GR.StepKeeps(s, events[0]);
      if OfferLive(s, events[0]) {
        LiveFrom(Next(s, events[0]), events[1..]);
      }
    }
  }

  /** Over any run no pending stream is ever without a live tenant if and only if every stream that is offered has one
      when it is offered. */
  lemma LiveExactlyIfOffersAre(events: seq<Event>)
    requires Runs(INITIAL, events)
    ensures AlwaysLive(INITIAL, events) <==> OffersLive(INITIAL, events)
  {
    GR.StartsWell();
    LiveFrom(INITIAL, events);
  }

  // ---- runs ----

  lemma RunsNext(s: Sys, e: Event, events: seq<Event>)
    requires Enabled(s, e) && Runs(Next(s, e), events)
    ensures Runs(s, [e] + events) && After(s, [e] + events) == After(Next(s, e), events)
  {
    assert ([e] + events)[1..] == events;
  }

  lemma {:induction false} RunsJoin(s: Sys, a: seq<Event>, b: seq<Event>)
    requires Runs(s, a) && Runs(After(s, a), b)
    ensures Runs(s, a + b) && After(s, a + b) == After(After(s, a), b)
    decreases |a|
  {
    if a == [] {
      assert a + b == b;
    } else {
      RunsJoin(Next(s, a[0]), a[1..], b);
      RunsNext(s, a[0], a[1..] + b);
      assert a + b == [a[0]] + (a[1..] + b);
    }
  }

  lemma RunsOne(s: Sys, e: Event)
    requires Enabled(s, e)
    ensures Runs(s, [e]) && After(s, [e]) == Next(s, e)
  {
    assert [e][1..] == [];
  }

  lemma RunsTwo(s: Sys, a: Event, b: Event)
    requires Enabled(s, a) && Enabled(Next(s, a), b)
    ensures Runs(s, [a, b]) && After(s, [a, b]) == Next(Next(s, a), b)
  {
    RunsOne(Next(s, a), b);
    RunsNext(s, a, [b]);
    assert [a] + [b] == [a, b];
  }

  /** A session registers an intercept on TCP port 20001: the check, the bind and the entry into the table. */
  function Registered(token: Token): seq<Event> {
    var c := Session(0, token);
    [Event.Open(c), Check(c, [1], NETWORK_TCP, 20001)] + [Bind(c, 0, true), Publish(c)]
  }

  lemma Registers(token: Token)
    ensures Runs(INITIAL, Registered(token))
    ensures var s, c := After(INITIAL, Registered(token)), Session(0, token);
            && s.g.controls == {c} && s.g.tenants == map[token := 1] && s.g.pending == map[] && s.work == map[]
            && s.g.Owns(c, [1]) && s.listened == {c} && s.draws == 0 && s.streams == map[]
  {
    var c := Session(0, token);
    RunsTwo(INITIAL, Event.Open(c), Check(c, [1], NETWORK_TCP, 20001));
    var s := Next(Next(INITIAL, Event.Open(c)), Check(c, [1], NETWORK_TCP, 20001));
    assert s.work == map[c := Checked([1], NETWORK_TCP, 20001)];
    RunsTwo(s, Bind(c, 0, true), Publish(c));
    RunsJoin(INITIAL, [Event.Open(c), Check(c, [1], NETWORK_TCP, 20001)], [Bind(c, 0, true), Publish(c)]);
  }

  function Accepting(token: Token): seq<Event> {
    Registered(token) + [Draw(Session(0, token)), Arm(1)]
  }

  /** Its listener has accepted a stream and not offered it. */
  lemma Accepts(token: Token)
    ensures Runs(INITIAL, Accepting(token))
    ensures var s, c := After(INITIAL, Accepting(token)), Session(0, token);
            && s.g.controls == {c} && s.g.tenants == map[token := 1] && s.g.pending == map[] && s.work == map[]
            && s.listened == {c} && s.draws == 1 && s.streams == map[1 := Stream(token, Armed, [])]
  {
    Registers(token);
    var s, c := After(INITIAL, Registered(token)), Session(0, token);
    RunsTwo(s, Draw(c), Arm(1));
    RunsJoin(INITIAL, Registered(token), [Draw(c), Arm(1)]);
  }

  function TenantGoes(token: Token): seq<Event> {
    Accepting(token) + [Close(Session(0, token)), Offer(1)]
  }

  /** For every token: its only session ends between accepting a stream and offering it, and the stream waits for a
      tenant that is gone. */
  lemma StreamOutlivesItsTenant(token: Token)
    ensures Runs(INITIAL, TenantGoes(token))
    ensures var t := After(INITIAL, TenantGoes(token));
            GS.IsPending(t.g.pending, 1, token) && t.g.Count(token) == 0 && !TenantsLive(t.g)
  {
    Accepts(token);
    var s, c := After(INITIAL, Accepting(token)), Session(0, token);
    var s1 := Next(s, Close(c));
    assert s1.g.pending == map[] && s1.streams[1] == Stream(token, Armed, []) && s1.g.Count(token) == 0;
    RunsTwo(s, Close(c), Offer(1));
    RunsJoin(INITIAL, Accepting(token), [Close(c), Offer(1)]);
    assert StreamId(1) == 1;
  }

  function Draws(c: Session, n: nat): seq<Event> {
    if n == 0 then [] else Draws(c, n - 1) + [Draw(c)]
  }

  /** Streams accepted one after the other, none of them offered yet. */
  ghost predicate DrawnFrom(s: Sys, t: Sys, c: Session, n: nat) {
    && t.g == s.g && t.listened == s.listened && t.draws == s.draws + n
    && (forall m :: m in s.streams ==> m in t.streams && t.streams[m] == s.streams[m])
    && (n > 0 ==> t.draws in t.streams && t.streams[t.draws] == Stream(c.token, Drawn, []))
  }

  lemma {:induction false} DrawsRun(s: Sys, c: Session, n: nat)
    requires c in s.listened && forall m :: m in s.streams ==> m <= s.draws
    ensures Runs(s, Draws(c, n)) && DrawnFrom(s, After(s, Draws(c, n)), c, n)
    ensures forall m :: m in After(s, Draws(c, n)).streams ==> m <= After(s, Draws(c, n)).draws
  {
    if n > 0 {
      DrawsRun(s, c, n - 1);
      var t := After(s, Draws(c, n - 1));
      RunsOne(t, Draw(c));
      RunsJoin(s, Draws(c, n - 1), [Draw(c)]);
    }
  }

  const SECOND: nat := STREAM_IDS + 1

  ghost predicate ClaimsAnother(events: seq<Event>, n: nat, m: nat) {
    n != m && Runs(INITIAL, events) && n in After(INITIAL, events).streams
    && After(INITIAL, events).streams[n].claims == [TimedOut(m)]
  }

  lemma OffersAndTimesOut(s: Sys, token: Token)
    requires 1 in s.streams && s.streams[1] == Stream(token, Offered, []) && GS.IsPending(s.g.pending, 1, token)
    requires SECOND in s.streams && s.streams[SECOND].phase.Drawn?
    ensures var events := [Arm(SECOND), Offer(SECOND)] + [Timeout(SECOND)];
            Runs(s, events) && 1 in After(s, events).streams
            && After(s, events).streams[1].claims == [TimedOut(SECOND)]
  {
    assert StreamId(SECOND) == 1 == StreamId(1);
    RunsTwo(s, Arm(SECOND), Offer(SECOND));
    var t := Next(Next(s, Arm(SECOND)), Offer(SECOND));
    assert t.streams[SECOND].phase.Refused? && t.g == s.g && t.streams[1] == s.streams[1];
    RunsOne(t, Timeout(SECOND));
    assert [] + [TimedOut(SECOND)] == [TimedOut(SECOND)];
    RunsJoin(s, [Arm(SECOND), Offer(SECOND)], [Timeout(SECOND)]);
  }

  /** After 2^64 more streams the first one's id comes round: the newcomer is refused and its timer takes the first
      stream, which is still waiting; its own timer, armed all the while, has not come to fire. */
  lemma TimerClaimsAnother(token: Token)
    ensures exists events :: ClaimsAnother(events, 1, SECOND)
  {
    Accepts(token);
    var c, first := Session(0, token), Accepting(token);
    var s := After(INITIAL, first);
    assert StreamId(1) == 1;
    RunsOne(s, Offer(1));
    RunsJoin(INITIAL, first, [Offer(1)]);
    var s1 := Next(s, Offer(1));
    DrawsRun(s1, c, STREAM_IDS);
    RunsJoin(INITIAL, first + [Offer(1)], Draws(c, STREAM_IDS));
    var s2 := After(s1, Draws(c, STREAM_IDS));
    OffersAndTimesOut(s2, token);
    var last := [Arm(SECOND), Offer(SECOND)] + [Timeout(SECOND)];
    RunsJoin(INITIAL, first + [Offer(1)] + Draws(c, STREAM_IDS), last);
    assert ClaimsAnother(first + [Offer(1)] + Draws(c, STREAM_IDS) + last, 1, SECOND);
  }
}
