/** What becomes of inbound streams: each is claimed at most once, by whoever takes it from the pending map first. */
module GatewayStreams {
  import opened Wrappers
  import opened TunnelFrames
  import opened Gateway
  import opened GatewaySystem

  type Streams = map<nat, Stream>
  type PendingMap = map<nat, Pending>

  predicate IsPending(pending: PendingMap, n: nat, token: Token) {
    StreamId(n) in pending && pending[StreamId(n)] == Pending(n, token)
  }

  /** Who may claim stream n: an accept or the end of its own tenant, or a timer or listener that knows its id. */
  predicate ClaimFits(st: Stream, n: nat, draws: nat, claim: Claim) {
    match claim
    case Accepted(token) => token == st.token
    case TimedOut(m) => StreamId(m) == StreamId(n) && m <= draws
    case Withdrawn(m) => StreamId(m) == StreamId(n) && m <= draws
    case TenantGone(c) => c.token == st.token
  }

  /** A stream is pending exactly from its offer to its one claim. */
  predicate StreamFits(st: Stream, n: nat, pending: PendingMap, draws: nat) {
    && n <= draws && |st.claims| <= 1
    && (!st.phase.Offered? ==> st.claims == [])
    && (st.phase.Offered? && st.claims == [] <==> IsPending(pending, n, st.token))
    && (st.claims != [] ==> ClaimFits(st, n, draws, st.claims[0]))
  }

  ghost predicate StreamsFit(streams: Streams, pending: PendingMap, draws: nat) {
    forall n :: n in streams ==> StreamFits(streams[n], n, pending, draws)
  }

  predicate PendingFits(streams: Streams, i: nat, p: Pending) {
    StreamId(p.draw) == i && p.draw in streams && streams[p.draw].token == p.token
  }

  ghost predicate AllPendingFit(streams: Streams, pending: PendingMap) {
    forall i :: i in pending ==> PendingFits(streams, i, pending[i])
  }

  ghost predicate Fits(streams: Streams, pending: PendingMap, draws: nat) {
    StreamsFit(streams, pending, draws) && AllPendingFit(streams, pending)
  }

  ghost predicate Inv(s: Sys) {
    Fits(s.streams, s.g.pending, s.draws)
  }

  lemma DrawKeeps(s: Sys, e: Event)
    requires Inv(s) && Enabled(s, e) && e.Draw?
    ensures Inv(Next(s, e))
  {
    var t := Next(s, e);
    forall n | n in t.streams ensures StreamFits(t.streams[n], n, t.g.pending, t.draws) {
      if n in s.streams {
        assert StreamFits(s.streams[n], n, s.g.pending, s.draws);
      }
      assert StreamId(n) in s.g.pending ==> PendingFits(s.streams, StreamId(n), s.g.pending[StreamId(n)]);
    }
  }

  lemma ArmKeeps(s: Sys, e: Event)
    requires Inv(s) && Enabled(s, e) && e.Arm?
    ensures Inv(Next(s, e))
  {
    var t := Next(s, e);
    forall n | n in t.streams ensures StreamFits(t.streams[n], n, t.g.pending, t.draws) {
      assert StreamFits(s.streams[n], n, s.g.pending, s.draws);
    }
    forall i | i in t.g.pending ensures PendingFits(t.streams, i, t.g.pending[i]) {
      assert PendingFits(s.streams, i, s.g.pending[i]);
    }
  }

  lemma OfferKeeps(s: Sys, e: Event)
    requires Inv(s) && Enabled(s, e) && e.Offer?
    ensures Inv(Next(s, e))
  {
    var t := Next(s, e);
    forall n | n in t.streams ensures StreamFits(t.streams[n], n, t.g.pending, t.draws) {
      assert StreamFits(s.streams[n], n, s.g.pending, s.draws);
    }
    forall i | i in t.g.pending ensures PendingFits(t.streams, i, t.g.pending[i]) {
      assert i in s.g.pending ==> PendingFits(s.streams, i, s.g.pending[i]);
    }
  }

  /** One take from the map, and the claim it is. */
  lemma TakeKeeps(streams: Streams, pending: PendingMap, draws: nat, id: nat, claim: Claim)
    requires Fits(streams, pending, draws) && id in pending
    requires pending[id].draw in streams ==>
               ClaimFits(streams[pending[id].draw], pending[id].draw, draws, claim)
    ensures Fits(Claimed(streams, Some(pending[id]), claim), pending - {id}, draws)
  {
    var rest, after, d := pending - {id}, Claimed(streams, Some(pending[id]), claim), pending[id].draw;
    assert PendingFits(streams, id, pending[id]);
    assert StreamFits(streams[d], d, pending, draws);
    forall n | n in after ensures StreamFits(after[n], n, rest, draws) {
      assert StreamFits(streams[n], n, pending, draws);
    }
    forall i | i in rest ensures PendingFits(after, i, rest[i]) {
      assert PendingFits(streams, i, pending[i]);
    }
  }

  lemma TakeEvent(s: Sys, e: Event)
    requires Inv(s) && Enabled(s, e) && (e.Withdraw? || e.Timeout? || e.Accept?)
    ensures Inv(Next(s, e))
  {
    var id := if e.Accept? then e.stream else StreamId(e.draw);
    var claim := if e.Accept? then Accepted(e.token) else if e.Timeout? then TimedOut(e.draw) else Withdrawn(e.draw);
    if id in s.g.pending && (e.Accept? ==> s.g.pending[id].token == e.token) {
      assert PendingFits(s.streams, id, s.g.pending[id]);
      assert !e.Accept? ==> StreamFits(s.streams[e.draw], e.draw, s.g.pending, s.draws);
      TakeKeeps(s.streams, s.g.pending, s.draws, id, claim);
    } else if !e.Accept? {
      assert s.g.pending - {id} == s.g.pending;
    }
  }

  lemma CloseKeeps(s: Sys, e: Event)
    requires Inv(s) && Enabled(s, e) && e.Close?
    ensures Inv(Next(s, e))
  {
    var t := Next(s, e);
    forall n | n in t.streams ensures StreamFits(t.streams[n], n, t.g.pending, t.draws) {
      assert StreamFits(s.streams[n], n, s.g.pending, s.draws);
    }
    forall i | i in t.g.pending ensures PendingFits(t.streams, i, t.g.pending[i]) {
      assert PendingFits(s.streams, i, s.g.pending[i]);
    }
  }

  lemma OthersAside(s: Sys, e: Event)
    requires Inv(s) && Enabled(s, e)
    requires e.Open? || e.Check? || e.Bind? || e.Publish? || e.Unregister? || e.Drop? || e.CloseSocket?
    ensures Inv(Next(s, e))
  {
  }

  lemma StepKeeps(s: Sys, e: Event)
    requires Inv(s) && Enabled(s, e)
    ensures Inv(Next(s, e))
  {
    match e
    case Close(_) => CloseKeeps(s, e);
    case Draw(_) => DrawKeeps(s, e);
    case Arm(_) => ArmKeeps(s, e);
    case Offer(_) => OfferKeeps(s, e);
    case Withdraw(_) => TakeEvent(s, e);
    case Timeout(_) => TakeEvent(s, e);
    case Accept(_, _) => TakeEvent(s, e);
    case _ => OthersAside(s, e);
  }

  lemma {:induction false} RunKeeps(s: Sys, events: seq<Event>)
    requires Inv(s) && Runs(s, events)
    ensures Inv(After(s, events))
    decreases |events|
  {
    if events != [] {
      StepKeeps(s, events[0]);
      RunKeeps(Next(s, events[0]), events[1..]);
    }
  }

  /** In every run each stream is claimed at most once, by an accept only with its token; and as long as no stream id
      has come round again, by a timer or a listener only if it is the stream's own. */
  lemma ClaimedOnce(events: seq<Event>, n: nat)
    requires Runs(INITIAL, events) && n in After(INITIAL, events).streams
    ensures var t := After(INITIAL, events);
            var st := t.streams[n];
            && |st.claims| <= 1
            && (st.phase.Offered? <==> IsPending(t.g.pending, n, st.token) || st.claims != [])
            && !(IsPending(t.g.pending, n, st.token) && st.claims != [])
            && forall token :: Accepted(token) in st.claims ==> token == st.token
    ensures var t := After(INITIAL, events);
            t.draws < STREAM_IDS ==>
              forall m :: TimedOut(m) in t.streams[n].claims || Withdrawn(m) in t.streams[n].claims ==> m == n
  {
    RunKeeps(INITIAL, events);
    var t := After(INITIAL, events);
    assert StreamFits(t.streams[n], n, t.g.pending, t.draws);
  }

  /** Until 2^64 streams have been drawn, no offer meets another stream under its id. */
  lemma OffersNeverCollide(events: seq<Event>, n: nat)
    requires Runs(INITIAL, events) && Enabled(After(INITIAL, events), Offer(n))
    requires After(INITIAL, events).draws < STREAM_IDS
    ensures var u := Next(After(INITIAL, events), Offer(n));
            u.streams[n].phase.Offered? && IsPending(u.g.pending, n, u.streams[n].token)
  {
    RunKeeps(INITIAL, events);
    var t := After(INITIAL, events);
    assert StreamFits(t.streams[n], n, t.g.pending, t.draws);
    if StreamId(n) in t.g.pending {
      SameStream(t, n);
      assert false;
    }
  }

  lemma SameStream(t: Sys, n: nat)
    requires Inv(t) && n in t.streams && t.draws < STREAM_IDS && StreamId(n) in t.g.pending
    ensures t.g.pending[StreamId(n)].draw == n && t.streams[n].phase.Offered?
  {
    var p := t.g.pending[StreamId(n)];
    assert PendingFits(t.streams, StreamId(n), p);
    assert StreamFits(t.streams[n], n, t.g.pending, t.draws);
    assert StreamFits(t.streams[p.draw], p.draw, t.g.pending, t.draws);
  }

  /** Past that, an offer that finds its id taken leaves a timer armed that can claim the other stream. */
  lemma CollidingTimerClaimsAnother(s: Sys, n: nat)
    requires Inv(s) && Enabled(s, Offer(n)) && StreamId(n) in s.g.pending
    ensures var t := Next(s, Offer(n));
            && Enabled(t, Timeout(n))
            && exists d :: d != n && d in t.streams && t.streams[d].claims == []
                           && d in Next(t, Timeout(n)).streams
                           && Next(t, Timeout(n)).streams[d].claims == [TimedOut(n)]
  {
    var d := s.g.pending[StreamId(n)].draw;
    assert PendingFits(s.streams, StreamId(n), s.g.pending[StreamId(n)]);
    assert StreamFits(s.streams[n], n, s.g.pending, s.draws);
    assert StreamFits(s.streams[d], d, s.g.pending, s.draws);
    var t := Next(s, Offer(n));
    assert d != n && d in t.streams && t.streams[d].claims == [];
    assert [] + [TimedOut(n)] == [TimedOut(n)];
    assert Next(t, Timeout(n)).streams[d].claims == [TimedOut(n)];
  }

  /** With its tenant's last session every stream of the tenant leaves the map, and no stream of another tenant. */
  lemma TenantTakesItsOwn(s: Sys, e: Event, i: nat)
    requires Enabled(s, e) && e.Close? && i in s.g.pending
    ensures i in Next(s, e).g.pending <==> !(s.g.LastOfTenant(e.c) && s.g.pending[i].token == e.c.token)
  {
  }

  /** A tenant's accept gets its pending stream, and nobody else's accept does. */
  lemma AcceptTakes(s: Sys, i: nat, token: Token)
    requires Inv(s) && i in s.g.pending
    ensures var t, n := Next(s, Event.Accept(token, i)), s.g.pending[i].draw;
            if s.g.pending[i].token == token then
              i !in t.g.pending && n in t.streams && t.streams[n].claims == [Accepted(token)]
            else t == s
  {
    var n := s.g.pending[i].draw;
    assert PendingFits(s.streams, i, s.g.pending[i]);
    assert StreamFits(s.streams[n], n, s.g.pending, s.draws);
    assert [] + [Accepted(token)] == [Accepted(token)];
  }

  /** A timer that fires and a listener that gives up take the stream under their id off the map. */
  lemma WithdrawTakes(s: Sys, e: Event)
    requires Inv(s) && Enabled(s, e) && (e.Timeout? || e.Withdraw?)
    ensures var t, i := Next(s, e), StreamId(e.draw);
            && i !in t.g.pending
            && (i in s.g.pending ==>
                  var n := s.g.pending[i].draw;
                  n in t.streams
                  && t.streams[n].claims == [if e.Timeout? then TimedOut(e.draw) else Withdrawn(e.draw)])
  {
    var i := StreamId(e.draw);
    if i in s.g.pending {
      var n := s.g.pending[i].draw;
      assert PendingFits(s.streams, i, s.g.pending[i]);
      assert StreamFits(s.streams[n], n, s.g.pending, s.draws);
      assert [] + [TimedOut(e.draw)] == [TimedOut(e.draw)] && [] + [Withdrawn(e.draw)] == [Withdrawn(e.draw)];
    }
  }
}
