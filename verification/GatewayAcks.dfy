/** The desktop's ledger and the Gateway's table: what a session has had acknowledged is what it owns. */
module GatewayAcks {
  import opened Bytes
  import opened Gateway
  import opened GatewaySystem
  import GR = GatewayRuns

  /** The ids a session has registered with success and not unregistered since, and none once it has ended: the ledger
      a desktop keeps of its channel. */
  function Ledger(s: Sys, e: Event, c: Session, ids: set<seq<byte>>): set<seq<byte>>
    requires Enabled(s, e)
  {
    match e
    case Publish(p) =>
      if p == c && ListenerKey(c.token, s.work[c].id) !in s.g.listeners then ids + {s.work[c].id} else ids
    case Unregister(p, id) => if p == c then ids - {id} else ids
    case Close(p) => if p == c then {} else ids
    case _ => ids
  }

  ghost function LedgerAfter(s: Sys, events: seq<Event>, c: Session, ids: set<seq<byte>>): set<seq<byte>>
    requires Runs(s, events)
    decreases |events|
  {
    if events == [] then ids else LedgerAfter(Next(s, events[0]), events[1..], c, Ledger(s, events[0], c, ids))
  }

  function OwnedIds(g: GatewayState, c: Session): set<seq<byte>> {
    set k | k in g.listeners && g.listeners[k].control == c :: k.id
  }

  /** Owning an id is having the listener under its key. */
  lemma OwnedMeans(s: Sys, c: Session, id: seq<byte>)
    requires GR.SessionsFit(s)
    ensures id in OwnedIds(s.g, c) <==> s.g.Owns(c, id)
  {
    if s.g.Owns(c, id) {
      assert ListenerKey(c.token, id) in s.g.listeners;
    }
  }

  lemma OwnsStep(s: Sys, e: Event, c: Session, id: seq<byte>, ids: set<seq<byte>>)
    requires GR.Inv(s) && Enabled(s, e) && (id in ids <==> s.g.Owns(c, id))
    ensures id in Ledger(s, e, c, ids) <==> Next(s, e).g.Owns(c, id)
  {
    if !e.Close? && !e.Publish? && !e.Unregister? {
      GR.ListenersAside(s, e);
    }
  }

  lemma LedgerStep(s: Sys, e: Event, c: Session)
    requires GR.Inv(s) && Enabled(s, e)
    ensures Ledger(s, e, c, OwnedIds(s.g, c)) == OwnedIds(Next(s, e).g, c)
  {
    GR.StepKeeps(s, e);
    forall id ensures id in Ledger(s, e, c, OwnedIds(s.g, c)) <==> id in OwnedIds(Next(s, e).g, c) {
      OwnedMeans(s, c, id);
      OwnedMeans(Next(s, e), c, id);
      OwnsStep(s, e, c, id, OwnedIds(s.g, c));
    }
  }

  lemma {:induction false} LedgerRun(s: Sys, events: seq<Event>, c: Session)
    requires GR.Inv(s) && Runs(s, events)
    ensures LedgerAfter(s, events, c, OwnedIds(s.g, c)) == OwnedIds(After(s, events).g, c)
    decreases |events|
  {
    if events != [] {
      LedgerStep(s, events[0], c);
      GR.StepKeeps(s, events[0]);
      LedgerRun(Next(s, events[0]), events[1..], c);
    }
  }

  /** In every run, whatever the other sessions do, a session's ledger is exactly what the Gateway holds for it. */
  lemma AckedIsOwned(events: seq<Event>, c: Session)
    requires Runs(INITIAL, events)
    ensures LedgerAfter(INITIAL, events, c, {}) == OwnedIds(After(INITIAL, events).g, c)
  {
    GR.StartsWell();
    assert OwnedIds(INITIAL.g, c) == {};
    LedgerRun(INITIAL, events, c);
  }
}
