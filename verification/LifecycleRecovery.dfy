/** What a recovery leaves registered: exactly what is published, unless a stop committed while it was under way. */
module LifecycleRecovery {
  import opened Wrappers
  import opened Intercepts
  import opened Registry
  import opened Lifecycle
  import opened LifecycleReplay
  import opened LifecycleRuns
  import LL = LifecycleLeases
  import LT = LifecycleRoutes
  import Steps = LifecycleReplaySteps

  /** The ids of every port of every published runtime. */
  ghost function PublishedIds(byID: Runtimes): (ids: set<SubId>) {
    set id, sub | id in byID && sub in byID[id].portKeys :: sub
  }

  lemma HeldIds(id: Key, rt: Runtime, acked: Acks, sub: SubId)
    requires RuntimeOk(id, rt) && Held(acked, id, rt.info.ports, |rt.info.ports|) && sub in rt.portKeys
    ensures sub in acked
  {
    var i :| 0 <= i < |rt.info.ports| && sub == SubOf(rt.info.id, rt.info.ports[i]);
    assert HeldPort(acked, id, rt.info.ports[i]);
  }

  /** The snapshot a recovery begins with has the published ids, no more and no fewer. */
  lemma SnapshotIds(r: Indexes, snapshot: Acks)
    requires RuntimesOk(r.byID) && IsSnapshot(r, snapshot)
    ensures snapshot.Keys == PublishedIds(r.byID)
  {
    Steps.SnapshotCovers(r, snapshot);
    forall sub | sub in PublishedIds(r.byID) ensures sub in snapshot {
      var id :| id in r.byID && sub in r.byID[id].portKeys;
      HeldIds(id, r.byID[id], snapshot, sub);
    }
    forall sub | sub in snapshot ensures sub in PublishedIds(r.byID) {
      assert snapshot[sub].id == sub;
      assert Replays(r, snapshot[sub]);
    }
  }

  /** Runtimes that go take their ids with them, and each has some. */
  lemma IdsShrink(a: Runtimes, b: Runtimes)
    requires RuntimesOk(a) && Steps.Within(a, b)
    ensures PublishedIds(b) <= PublishedIds(a)
    ensures PublishedIds(a) == PublishedIds(b) <==> a.Keys == b.Keys
  {
    forall id | id in a && id !in b
      ensures exists sub :: sub in PublishedIds(a) && sub !in PublishedIds(b)
    {
      assert RuntimeOk(id, a[id]);
      var sub := SubOf(id, a[id].info.ports[0]);
      assert sub in a[id].portKeys;
      assert sub in PublishedIds(a);
      forall k | k in b ensures sub !in b[k].portKeys {
        assert RuntimeOk(k, a[k]);
      }
    }
  }

  lemma CommitShrinks(s: Sys, e: Event)
    requires LL.Both(s) && Enabled(s, e) && e.CommitStop?
    ensures Steps.Within(s.m.registry.byID, Next(s, e).m.registry.byID)
    ensures Next(s, e).m.registry.byID.Keys < s.m.registry.byID.Keys
  {
    Steps.CommitNext(s, e);
    assert s.ops[e.op].id in s.m.registry.byID.Keys;
  }

  lemma MarkKeepsKeys(s: Sys, e: Event)
    requires Enabled(s, e) && (e.BeginStop? || e.FailStop?)
    ensures Steps.Within(s.m.registry.byID, Next(s, e).m.registry.byID)
    ensures Next(s, e).m.registry.byID.Keys == s.m.registry.byID.Keys
  {
    Steps.StopNext(s, e);
    LT.MarkNext(s, e);
  }

  /** What one section changes among the runtimes while the session recovers: only a stop's last section takes one
      away, and none is added. */
  lemma RecoveringStep(s: Sys, e: Event)
    requires LL.Both(s) && OneOrOther(s) && Enabled(s, e) && s.m.session.recovering
    ensures Steps.Within(s.m.registry.byID, Next(s, e).m.registry.byID)
    ensures if e.CommitStop? then Next(s, e).m.registry.byID.Keys < s.m.registry.byID.Keys
            else Next(s, e).m.registry.byID.Keys == s.m.registry.byID.Keys
  {
    if e.CommitStop? {
      CommitShrinks(s, e);
    } else if e.BeginStop? || e.FailStop? {
      MarkKeepsKeys(s, e);
    } else {
      NoPublish(s, e);
      LL.RuntimesUntouched(s, e);
    }
  }

  lemma NoPublish(s: Sys, e: Event)
    requires OneOrOther(s) && Enabled(s, e) && s.m.session.recovering
    ensures !e.Publish?
  {
  }

  /** Without a new start, stop or recovery, a session that recovers has been recovering. */
  lemma {:induction false} HasBeenRecovering(s: Sys, events: seq<Event>)
    requires Runs(s, events) && BumpCount(events) == 0 && After(s, events).m.session.recovering
    ensures s.m.session.recovering
    decreases |events|
  {
    if events != [] {
      HasBeenRecovering(Next(s, events[0]), events[1..]);
    }
  }

  predicate NoCommit(events: seq<Event>) {
    forall i :: 0 <= i < |events| ==> !events[i].CommitStop?
  }

  lemma {:induction false} RecoveringRun(s: Sys, events: seq<Event>)
    requires Always(s) && OneOrOther(s) && Runs(s, events)
    requires BumpCount(events) == 0 && After(s, events).m.session.recovering
    ensures var a, b := s.m.registry.byID, After(s, events).m.registry.byID;
            Steps.Within(a, b) && (a.Keys == b.Keys <==> NoCommit(events))
    decreases |events|
  {
    if events != [] {
      var e, rest := events[0], events[1..];
      HasBeenRecovering(s, events);
      RecoveringStep(s, e);
      AlwaysStep(s, e);
      RecoveringRun(Next(s, e), rest);
      NoCommitNext(events);
      WithinTrans(s.m.registry.byID, Next(s, e).m.registry.byID, After(s, events).m.registry.byID);
    }
  }

  lemma NoCommitNext(events: seq<Event>)
    requires events != []
    ensures NoCommit(events) <==> !events[0].CommitStop? && NoCommit(events[1..])
  {
    if !events[0].CommitStop? && NoCommit(events[1..]) {
      forall i | 0 <= i < |events| ensures !events[i].CommitStop? {
        assert i > 0 ==> events[i] == events[1..][i - 1];
      }
    }
  }

  lemma WithinTrans(a: Runtimes, b: Runtimes, c: Runtimes)
    requires Steps.Within(a, b) && Steps.Within(b, c)
    ensures Steps.Within(a, c) && c.Keys <= b.Keys <= a.Keys
  {
  }

  /** The state a good run reaches. */
  ghost predicate Reached(s: Sys, events: seq<Event>) {
    Runs(INITIAL, events) && GoodRun(INITIAL, events) && s == After(INITIAL, events)
  }

  lemma ReachedKeeps(s: Sys, events: seq<Event>)
    requires Reached(s, events)
    ensures Always(s) && ReplayInv(s) && OneOrOther(s)
  {
    StartsWell();
    EveryRun(events);
    ReplayFrom(INITIAL, events);
    OneOrOtherRun(INITIAL, events);
  }

  /** From the section that begins a recovery to the one that attaches its channel, in any good run: the ids
      registered on the new channel are those of the published runtimes if and only if no stop committed in between,
      and never fewer. */
  lemma RecoveredExactly(before: seq<Event>, s: Sys, begin: Event, events: seq<Event>, end: Event)
    requires Reached(s, before) && begin.BeginRecovery? && Enabled(s, begin) && Runs(Next(s, begin), events)
    requires end.EndRecovery? && end.op == begin.op && Enabled(After(Next(s, begin), events), end)
    requires var t := After(Next(s, begin), events); t.m.CanAttach(t.ops[end.op].generation)
    ensures var u := Next(After(Next(s, begin), events), end);
            && u.m.session.client == Some(end.channel) && end.channel in u.channels
            && PublishedIds(u.m.registry.byID) <= u.channels[end.channel].acked.Keys
            && (u.channels[end.channel].acked.Keys == PublishedIds(u.m.registry.byID) <==> NoCommit(events))
  {
    var s1 := Next(s, begin);
    var t := After(s1, events);
    ReachedKeeps(s, before);
    AlwaysStep(s, begin);
    GenerationCounts(s1, events);
    SameOpRun(s1, events, begin.op);
    Steps.EndNext(t, end);
    RecoveringRun(s1, events);
    SnapshotIds(s.m.registry, begin.snapshot);
    IdsShrink(s.m.registry.byID, t.m.registry.byID);
  }
}
