/** What is acknowledged on the attached channel and nothing more: every id there is a published port's, a start's that
    has not published, a stop's that has not come to it, or one that a stop left behind during the recovery. */
module LifecycleChannels {
  import opened Wrappers
  import opened Intercepts
  import opened Registry
  import opened ControlClients
  import opened Manager
  import opened Lifecycle
  import opened LifecycleReplay
  import opened LifecycleRuns
  import opened LifecycleRecovery

  predicate HasKey(byID: Runtimes, id: Key, sub: SubId) {
    id in byID && sub in byID[id].portKeys
  }

  /** An operation on channel c that has registered an id and answers for it. */
  predicate AnswersFor(op: Op, c: nat, sub: SubId) {
    || (Holding(op) && op.channel == c && sub in op.registered)
    || (op.Unlisting? && op.channel == c && sub in op.remaining)
  }

  predicate OpAnswers(ops: Ops, o: nat, c: nat, sub: SubId) {
    o in ops && AnswersFor(ops[o], c, sub)
  }

  ghost predicate Accounted(byID: Runtimes, ops: Ops, c: nat, sub: SubId) {
    (exists id :: HasKey(byID, id, sub)) || (exists o :: OpAnswers(ops, o, c, sub))
  }

  /** No id is acknowledged on channel c that nobody answers for, but the stale ones. */
  ghost predicate NoMore(byID: Runtimes, ops: Ops, c: nat, acked: Acks, stale: set<SubId>) {
    forall sub :: sub in acked ==> Accounted(byID, ops, c, sub) || sub in stale
  }

  ghost predicate Tidy(s: Sys, stale: set<SubId>) {
    s.m.session.client.Some? && s.m.session.client.value in s.channels
    && !s.channels[s.m.session.client.value].lost ==>
      NoMore(s.m.registry.byID, s.ops, s.m.session.client.value, s.channels[s.m.session.client.value].acked, stale)
  }

  /** What recovery attached although nobody publishes it any more; a new channel begins with nothing. */
  ghost function StaleNext(s: Sys, e: Event, stale: set<SubId>): set<SubId>
    requires Enabled(s, e)
  {
    match e
    case Connect(_) => {}
    case EndRecovery(o, _) =>
      if s.m.CanAttach(s.ops[o].generation) then s.ops[o].snapshot.Keys - PublishedIds(s.m.registry.byID) else stale
    case _ => stale
  }

  ghost function Stale(s: Sys, events: seq<Event>, stale: set<SubId>): set<SubId>
    requires Runs(s, events)
    decreases |events|
  {
    if events == [] then stale else Stale(Next(s, events[0]), events[1..], StaleNext(s, events[0], stale))
  }

  /** One operation changed: everybody else still answers. */
  lemma StillAccounted(a: Runtimes, b: Runtimes, ops: Ops, ops': Ops, o: nat, c: nat, sub: SubId)
    requires Accounted(a, ops, c, sub) && o in ops' && ops' == ops[o := ops'[o]]
    requires forall id :: HasKey(a, id, sub) ==> Accounted(b, ops', c, sub)
    requires OpAnswers(ops, o, c, sub) ==> Accounted(b, ops', c, sub)
    ensures Accounted(b, ops', c, sub)
  {
    if p :| OpAnswers(ops, p, c, sub) {
      assert p != o ==> OpAnswers(ops', p, c, sub);
    }
  }

  /** Sections that touch neither channels nor runtimes, and registered and remaining ids no more. */
  lemma CalmAnswers(s: Sys, e: Event, c: nat, sub: SubId)
    requires Enabled(s, e) && Steps.IsCalm(e) && OpAnswers(s.ops, e.op, c, sub)
    ensures OpAnswers(Next(s, e).ops, e.op, c, sub)
  {
  }

  lemma CalmTidy(s: Sys, e: Event, stale: set<SubId>)
    requires Tidy(s, stale) && Enabled(s, e) && Steps.IsCalm(e)
    ensures Tidy(Next(s, e), stale)
  {
    var t, byID := Next(s, e), s.m.registry.byID;
    Steps.CalmNext(s, e);
    if s.m.session.client.Some? {
      var c := s.m.session.client.value;
      forall sub | Accounted(byID, s.ops, c, sub) ensures Accounted(byID, t.ops, c, sub) {
        if OpAnswers(s.ops, e.op, c, sub) {
          CalmAnswers(s, e, c, sub);
        }
        StillAccounted(byID, byID, s.ops, t.ops, e.op, c, sub);
      }
    }
  }

  lemma StopTidy(s: Sys, e: Event, stale: set<SubId>)
    requires Tidy(s, stale) && Enabled(s, e) && (e.BeginStop? || e.FailStop?)
    ensures Tidy(Next(s, e), stale)
  {
    var t := Next(s, e);
    Steps.StopNext(s, e);
    MarkKeepsKeys(s, e);
    if s.m.session.client.Some? {
      var c := s.m.session.client.value;
      forall sub | Accounted(s.m.registry.byID, s.ops, c, sub) ensures Accounted(t.m.registry.byID, t.ops, c, sub) {
        assert forall id :: HasKey(s.m.registry.byID, id, sub) ==> HasKey(t.m.registry.byID, id, sub);
        assert !OpAnswers(s.ops, e.op, c, sub) by {
          StopAnswersNothing(s, e, c, sub);
        }
        StillAccounted(s.m.registry.byID, t.m.registry.byID, s.ops, t.ops, e.op, c, sub);
      }
    }
  }

  lemma StopAnswersNothing(s: Sys, e: Event, c: nat, sub: SubId)
    requires Enabled(s, e) && (e.BeginStop? || e.FailStop? || e.CommitStop?)
    ensures !OpAnswers(s.ops, e.op, c, sub)
  {
  }

  /** A stop's last section: the runtime's ids become the stop's to unregister. */
  lemma CommitTidy(s: Sys, e: Event, stale: set<SubId>)
    requires LL.Both(s) && Tidy(s, stale) && Enabled(s, e) && e.CommitStop?
    ensures Tidy(Next(s, e), stale)
  {
    var t, byID, id := Next(s, e), s.m.registry.byID, s.ops[e.op].id;
    Steps.CommitNext(s, e);
    if s.m.session.client.Some? {
      var c := s.m.session.client.value;
      forall sub | Accounted(byID, s.ops, c, sub) ensures Accounted(byID - {id}, t.ops, c, sub) {
        if k :| HasKey(byID, k, sub) {
          if k == id {
            assert sub in IdSet(e.order);
            assert OpAnswers(t.ops, e.op, c, sub);
          } else {
            assert HasKey(byID - {id}, k, sub);
          }
        }
        StopAnswersNothing(s, e, c, sub);
        StillAccounted(byID, byID - {id}, s.ops, t.ops, e.op, c, sub);
      }
    }
  }

  /** A publish: the start's ids become the runtime's. */
  lemma PublishAccounts(byID: Runtimes, ops: Ops, ops': Ops, o: nat, rt: Runtime, c: nat, sub: SubId)
    requires o in ops && ops[o].Start? && ops[o].key !in byID && o in ops' && ops' == ops[o := ops'[o]]
    requires sub in ops[o].registered ==> sub in rt.portKeys
    requires Accounted(byID, ops, c, sub)
    ensures Accounted(byID[ops[o].key := rt], ops', c, sub)
  {
    var key := ops[o].key;
    forall id | HasKey(byID, id, sub) ensures Accounted(byID[key := rt], ops', c, sub) {
      assert HasKey(byID[key := rt], id, sub);
    }
    assert OpAnswers(ops, o, c, sub) ==> HasKey(byID[key := rt], key, sub);
    StillAccounted(byID, byID[key := rt], ops, ops', o, c, sub);
  }

  lemma PublishTidy(s: Sys, e: Event, stale: set<SubId>)
    requires LR.Inv(s) && ReplayInv(s) && Tidy(s, stale) && Enabled(s, e) && e.Publish?
    ensures Tidy(Next(s, e), stale)
  {
    var t, byID, op := Next(s, e), s.m.registry.byID, s.ops[e.op];
    Steps.PublishNext(s, e);
    Steps.HoldingUnpublished(s, e.op);
    assert OpOk(op, s.channels);
    var rt := RuntimeOf(e.op, op, e.details);
    forall sub | Accounted(byID, s.ops, op.channel, sub)
      ensures Accounted(t.m.registry.byID, t.ops, op.channel, sub)
    {
      if sub in op.registered {
        PublishedKey(op, e.details, s.channels, sub);
      }
      PublishAccounts(byID, s.ops, t.ops, e.op, rt, op.channel, sub);
    }
  }

  lemma PublishedKey(op: Op, d: Details, channels: Channels, sub: SubId)
    requires op.Start? && StartOk(op, channels) && sub in op.registered
    ensures sub in LocalKeys(op.key, op.ports, d.locals)
  {
    var i :| 0 <= i < |op.registered| && op.registered[i] == sub;
    Steps.LocalKeysMatch(op.key, op.ports, d.locals, sub);
  }

  // ---- round trips ----

  /** A round trip of op o on channel `on`, whose ledger gains or loses one id. */
  lemma TripTidy(s: Sys, t: Sys, o: nat, on: nat, stale: set<SubId>)
    requires Tidy(s, stale) && t.m == s.m && o in t.ops && t.ops == s.ops[o := t.ops[o]]
    requires on in s.channels && on in t.channels && t.channels == s.channels[on := t.channels[on]]
    requires t.channels[on].lost == s.channels[on].lost
    requires !t.channels[on].lost ==> forall sub :: sub in t.channels[on].acked ==>
               AnswersFor(t.ops[o], on, sub)
               || (sub in s.channels[on].acked && !OpAnswers(s.ops, o, on, sub))
    requires forall c, sub :: c != on ==> !OpAnswers(s.ops, o, c, sub)
    ensures Tidy(t, stale)
  {
    if s.m.session.client.Some? && s.m.session.client.value in s.channels {
      var c, byID := s.m.session.client.value, s.m.registry.byID;
      if !t.channels[c].lost {
        forall sub | sub in t.channels[c].acked ensures Accounted(byID, t.ops, c, sub) || sub in stale {
          if c == on && AnswersFor(t.ops[o], on, sub) {
            assert OpAnswers(t.ops, o, c, sub);
          } else if Accounted(byID, s.ops, c, sub) {
            forall id | HasKey(byID, id, sub) ensures Accounted(byID, t.ops, c, sub) {
            }
            StillAccounted(byID, byID, s.ops, t.ops, o, c, sub);
          }
        }
      }
    }
  }

  lemma AcknowledgeTidy(s: Sys, e: Event, stale: set<SubId>)
    requires Tidy(s, stale) && Enabled(s, e) && e.Acknowledge?
    ensures Tidy(Next(s, e), stale)
  {
    var t, op := Next(s, e), s.ops[e.op];
    forall sub | sub in t.channels[op.channel].acked
      ensures AnswersFor(t.ops[e.op], op.channel, sub)
              || (sub in s.channels[op.channel].acked && !OpAnswers(s.ops, e.op, op.channel, sub))
    {
    }
    TripTidy(s, t, e.op, op.channel, stale);
  }

  lemma UndoPortTidy(s: Sys, e: Event, stale: set<SubId>)
    requires Tidy(s, stale) && Enabled(s, e) && e.UndoPort?
    ensures Tidy(Next(s, e), stale)
  {
    var t, op := Next(s, e), s.ops[e.op];
    var n := |op.registered| - 1;
    assert op.registered == op.registered[..n] + [LastId(op.registered)];
    TripTidy(s, t, e.op, op.channel, stale);
  }

  lemma UnregisterTidy(s: Sys, e: Event, stale: set<SubId>)
    requires Tidy(s, stale) && Enabled(s, e) && e.UnregisterPort?
    ensures Tidy(Next(s, e), stale)
  {
    var t, op := Next(s, e), s.ops[e.op];
    assert op.remaining == [op.remaining[0]] + op.remaining[1..];
    TripTidy(s, t, e.op, op.channel, stale);
  }

  // ---- the session ----

  predicate AboutClient(e: Event) {
    e.Connect? || e.StopAll? || e.BeginRecovery?
  }

  lemma ClientTidy(s: Sys, e: Event, stale: set<SubId>)
    requires Tidy(s, stale) && Enabled(s, e) && AboutClient(e)
    ensures Tidy(Next(s, e), StaleNext(s, e, stale))
  {
  }

  lemma LoseTidy(s: Sys, e: Event, stale: set<SubId>)
    requires Tidy(s, stale) && Enabled(s, e) && e.Lose?
    ensures Tidy(Next(s, e), stale)
  {
  }

  lemma FailRecoveryTidy(s: Sys, e: Event, stale: set<SubId>)
    requires Tidy(s, stale) && Enabled(s, e) && e.FailRecovery?
    ensures Tidy(Next(s, e), stale)
  {
    var t, byID := Next(s, e), s.m.registry.byID;
    if s.m.session.client.Some? {
      var c := s.m.session.client.value;
      forall sub | Accounted(byID, s.ops, c, sub) ensures Accounted(byID, t.ops, c, sub) {
        assert forall id :: HasKey(byID, id, sub) ==> Accounted(byID, t.ops, c, sub);
        StillAccounted(byID, byID, s.ops, t.ops, e.op, c, sub);
      }
    }
  }

  /** What the new channel has is what is published, or stale by what that means. */
  lemma AttachTidy(s: Sys, e: Event, stale: set<SubId>)
    requires Enabled(s, e) && e.EndRecovery? && s.m.CanAttach(s.ops[e.op].generation)
    ensures Tidy(Next(s, e), StaleNext(s, e, stale))
  {
    var t, byID := Next(s, e), s.m.registry.byID;
    Steps.EndNext(s, e);
    forall sub | sub in s.ops[e.op].snapshot
      ensures Accounted(byID, t.ops, e.channel, sub) || sub in StaleNext(s, e, stale)
    {
      if sub in PublishedIds(byID) {
        var id :| id in byID && sub in byID[id].portKeys;
        assert HasKey(byID, id, sub);
      }
    }
  }

  lemma DetachedTidy(s: Sys, e: Event, stale: set<SubId>)
    requires Tidy(s, stale) && Enabled(s, e) && e.EndRecovery? && !s.m.CanAttach(s.ops[e.op].generation)
    requires s.m.session.client.Some? ==> s.m.session.client.value in s.channels
    ensures Tidy(Next(s, e), stale)
  {
    var t, byID := Next(s, e), s.m.registry.byID;
    if s.m.session.client.Some? {
      var c := s.m.session.client.value;
      forall sub | Accounted(byID, s.ops, c, sub) ensures Accounted(byID, t.ops, c, sub) {
        assert forall id :: HasKey(byID, id, sub) ==> Accounted(byID, t.ops, c, sub);
        StillAccounted(byID, byID, s.ops, t.ops, e.op, c, sub);
      }
    }
  }

  lemma SessionTidy(s: Sys, e: Event, stale: set<SubId>)
    requires ReplayInv(s) && Tidy(s, stale) && Enabled(s, e) && Steps.AboutSession(e)
    ensures Tidy(Next(s, e), StaleNext(s, e, stale))
  {
    if AboutClient(e) {
      ClientTidy(s, e, stale);
    } else if e.Lose? {
      LoseTidy(s, e, stale);
    } else if e.FailRecovery? {
      FailRecoveryTidy(s, e, stale);
    } else if s.m.CanAttach(s.ops[e.op].generation) {
      AttachTidy(s, e, stale);
    } else {
      DetachedTidy(s, e, stale);
    }
  }

  lemma OperationTidy(s: Sys, e: Event, stale: set<SubId>)
    requires LL.Both(s) && ReplayInv(s) && Tidy(s, stale) && Enabled(s, e) && !Steps.AboutSession(e)
    requires !Steps.IsCalm(e)
    ensures Tidy(Next(s, e), stale)
  {
    match e
    case Acknowledge(_) => AcknowledgeTidy(s, e, stale);
    case Publish(_, _) => PublishTidy(s, e, stale);
    case UndoPort(_, _) => UndoPortTidy(s, e, stale);
    case BeginStop(_, _) => StopTidy(s, e, stale);
    case FailStop(_) => StopTidy(s, e, stale);
    case CommitStop(_, _) => CommitTidy(s, e, stale);
    case UnregisterPort(_, _) => UnregisterTidy(s, e, stale);
  }

  lemma TidyStep(s: Sys, e: Event, stale: set<SubId>)
    requires LL.Both(s) && ReplayInv(s) && Tidy(s, stale) && Enabled(s, e)
    ensures Tidy(Next(s, e), StaleNext(s, e, stale))
  {
    if Steps.AboutSession(e) {
      SessionTidy(s, e, stale);
    } else if Steps.IsCalm(e) {
      CalmTidy(s, e, stale);
    } else {
      OperationTidy(s, e, stale);
    }
  }

  lemma {:induction false} TidyRun(s: Sys, events: seq<Event>, stale: set<SubId>)
    requires Always(s) && ReplayInv(s) && Tidy(s, stale) && Runs(s, events) && GoodRun(s, events)
    ensures Tidy(After(s, events), Stale(s, events, stale))
    decreases |events|
  {
    if events != [] {
      TidyStep(s, events[0], stale);
      AlwaysStep(s, events[0]);
      Steps.StepKeeps(s, events[0]);
      TidyRun(Next(s, events[0]), events[1..], StaleNext(s, events[0], stale));
    }
  }

  /** In every good run, on an attached channel that is not lost: every id acknowledged there is a published runtime's,
      one a start on the channel still answers for, one a stop on it has still to unregister, or stale. */
  lemma AcknowledgedIsAccounted(events: seq<Event>, sub: SubId)
    requires Runs(INITIAL, events) && GoodRun(INITIAL, events)
    requires var t := After(INITIAL, events);
             t.m.session.Ready() && t.m.session.client.value in t.channels
             && !t.channels[t.m.session.client.value].lost
             && sub in t.channels[t.m.session.client.value].acked
    ensures var t := After(INITIAL, events);
            Accounted(t.m.registry.byID, t.ops, t.m.session.client.value, sub) || sub in Stale(INITIAL, events, {})
  {
    StartsWell();
    TidyRun(INITIAL, events, {});
  }

  /** No start or stop is under way on a channel that has registered something there. */
  predicate Quiet(ops: Ops, c: nat) {
    forall o :: o in ops ==>
      && (Holding(ops[o]) && ops[o].channel == c ==> ops[o].registered == [])
      && (ops[o].Unlisting? && ops[o].channel == c ==> ops[o].remaining == [])
  }

  /** Hence, with no operation under way and nothing stale, registered is exactly what is published. */
  lemma AcknowledgedIsPublished(events: seq<Event>)
    requires Runs(INITIAL, events) && GoodRun(INITIAL, events) && Stale(INITIAL, events, {}) == {}
    requires var t := After(INITIAL, events);
             t.m.session.Ready() && Quiet(t.ops, t.m.session.client.value)
             && t.m.session.client.value in t.channels && !t.channels[t.m.session.client.value].lost
    ensures var t := After(INITIAL, events);
            t.channels[t.m.session.client.value].acked.Keys == PublishedIds(t.m.registry.byID)
  {
    StartsWell();
    TidyRun(INITIAL, events, {});
    ReplayFrom(INITIAL, events);
    ExactlyPublished(After(INITIAL, events));
  }

  lemma ExactlyPublished(t: Sys)
    requires ReplayInv(t) && Tidy(t, {}) && t.m.session.Ready() && Quiet(t.ops, t.m.session.client.value)
    requires t.m.session.client.value in t.channels && !t.channels[t.m.session.client.value].lost
    ensures t.channels[t.m.session.client.value].acked.Keys == PublishedIds(t.m.registry.byID)
  {
    var byID, c := t.m.registry.byID, t.m.session.client.value;
    var acked := t.channels[c].acked;
    forall sub | sub in acked ensures sub in PublishedIds(byID) {
      assert forall o :: !OpAnswers(t.ops, o, c, sub);
      var id :| HasKey(byID, id, sub);
    }
    forall sub | sub in PublishedIds(byID) ensures sub in acked {
      var id :| id in byID && sub in byID[id].portKeys;
      assert RuntimeOk(id, byID[id]);
      HeldIds(id, byID[id], acked, sub);
    }
  }

  lemma NothingLeft(a: set<SubId>, b: set<SubId>)
    requires b <= a
    ensures a - b == {} <==> a == b
  {
    if a - b == {} {
      forall x | x in a ensures x in b {
        assert x !in a - b;
      }
    }
  }

  /** A recovery leaves something stale if and only if a stop committed while it was under way. */
  lemma StaleMeansStopped(before: seq<Event>, s: Sys, begin: Event, events: seq<Event>, end: Event, stale: set<SubId>)
    requires Reached(s, before) && begin.BeginRecovery? && Enabled(s, begin) && Runs(Next(s, begin), events)
    requires end.EndRecovery? && end.op == begin.op && Enabled(After(Next(s, begin), events), end)
    requires var t := After(Next(s, begin), events); t.m.CanAttach(t.ops[end.op].generation)
    ensures StaleNext(After(Next(s, begin), events), end, stale) == {} <==> NoCommit(events)
  {
    var t := After(Next(s, begin), events);
    RecoveredExactly(before, s, begin, events, end);
    Steps.EndNext(t, end);
    var ids, snapshot := PublishedIds(t.m.registry.byID), t.ops[end.op].snapshot.Keys;
    assert ids <= snapshot;
    NothingLeft(snapshot, ids);
  }
}
