/** Lease accounting over all interleavings: a lease belongs to one published runtime, or was given back. */
module LifecycleLeases {
  import opened Wrappers
  import opened Intercepts
  import opened Registry
  import opened Lifecycle
  import LR = LifecycleRegistry

  /** Start o's runtime is in the registry. */
  predicate Owns(r: Indexes, ops: map<nat, Op>, o: nat) {
    o in ops && ops[o].Start? && ops[o].key in r.byID && r.byID[ops[o].key].ref == o
  }

  predicate Stopping(r: Indexes, ops: map<nat, Op>, o: nat) {
    Owns(r, ops, o) && r.byID[ops[o].key].stopping
  }

  /** A published start's lease. While its runtime is in the registry and is not being stopped no release is out and
      none has succeeded; while it is being stopped at most one is out, and a success means none is. Once the runtime
      has left, a release has succeeded. */
  predicate Owned(l: Lease, filed: bool, stopping: bool) {
    l.rollbacks == 0
    && if !filed then l.freed && l.inFlight == 0
       else if stopping then l.inFlight <= 1 && (l.freed ==> l.inFlight == 0)
       else !l.freed && l.inFlight == 0
  }

  const UNTOUCHED := Lease(0, 0, false)
  const ROLLED_BACK := Lease(1, 0, false)

  /** What each phase of a start says about its lease. */
  predicate LeaseFits(op: Op, lease: Option<Lease>, filed: bool, stopping: bool)
    requires op.Start?
  {
    match op.phase
    case Preparing => !op.leased && lease == None && !filed
    case Granted => op.leased && lease == Some(UNTOUCHED) && !filed
    case Published => op.leased && lease.Some? && Owned(lease.value, filed, stopping)
    case Undoing =>
      !filed && if op.leased then lease == Some(UNTOUCHED) else lease == None || lease == Some(ROLLED_BACK)
    case Finished =>
      if op.leased then lease.Some? && Owned(lease.value, filed, stopping)
      else !filed && (lease == None || lease == Some(ROLLED_BACK))
  }

  function LeaseAt(leases: map<nat, Lease>, o: nat): Option<Lease> {
    if o in leases then Some(leases[o]) else None
  }

  predicate StartFits(r: Indexes, ops: map<nat, Op>, leases: map<nat, Lease>, o: nat)
    requires o in ops && ops[o].Start?
  {
    LeaseFits(ops[o], LeaseAt(leases, o), Owns(r, ops, o), Stopping(r, ops, o))
  }

  ghost predicate StartsFit(r: Indexes, ops: map<nat, Op>, leases: map<nat, Lease>) {
    && (forall o :: o in leases ==> o in ops && ops[o].Start?)
    && (forall o :: o in ops && ops[o].Start? ==> StartFits(r, ops, leases, o))
  }

  /** What a stop has heard of its release is what has become of the lease. */
  predicate StageFits(l: Lease, stage: Stage) {
    match stage
    case Releasing => l.inFlight == 1 && !l.freed
    case Released => l.inFlight == 0 && l.freed
    case Refused => l.inFlight == 0 && !l.freed
  }

  predicate StopFits(r: Indexes, leases: map<nat, Lease>, op: Op)
    requires op.Stop?
  {
    && op.id in r.byID && r.byID[op.id].ref == op.ref && r.byID[op.id].stopping
    && op.ref in leases && StageFits(leases[op.ref], op.stage)
  }

  /** A stop works on a published runtime, marked, that no other stop works on. */
  ghost predicate StopsFit(r: Indexes, ops: map<nat, Op>, leases: map<nat, Lease>) {
    && (forall o :: o in ops && ops[o].Stop? ==> StopFits(r, leases, ops[o]))
    && (forall o, p :: o in ops && p in ops && ops[o].Stop? && ops[p].Stop? && o != p ==> ops[o].id != ops[p].id)
  }

  predicate Stops(ops: map<nat, Op>, o: nat, id: Key) {
    o in ops && ops[o].Stop? && ops[o].id == id
  }

  /** A marked runtime has a stop at work on it. */
  ghost predicate Marked(r: Indexes, ops: map<nat, Op>) {
    forall id :: id in r.byID && r.byID[id].stopping ==> exists o :: Stops(ops, o, id)
  }

  ghost predicate LeaseInv(s: Sys) {
    && StartsFit(s.m.registry, s.ops, s.leases) && StopsFit(s.m.registry, s.ops, s.leases)
    && Marked(s.m.registry, s.ops)
  }

  ghost predicate Both(s: Sys) {
    LR.Inv(s) && LeaseInv(s)
  }

  /** Op o, which is no stop, changed, and its lease if it has not published; the registry did not. */
  lemma OpKeeps(r: Indexes, ops: map<nat, Op>, leases: map<nat, Lease>, o: nat, op: Op, leases': map<nat, Lease>)
    requires StartsFit(r, ops, leases) && StopsFit(r, ops, leases) && LR.MadeByStart(r, ops)
    requires LR.Moves(ops, o, op) && !op.Stop? && (o in ops ==> !ops[o].Stop?)
    requires forall p :: p != o ==> LeaseAt(leases', p) == LeaseAt(leases, p)
    requires leases' == leases || (o in ops && !LR.Succeeded(ops[o]))
    requires if op.Start? then StartFits(r, ops[o := op], leases', o) else o !in leases'
    ensures StartsFit(r, ops[o := op], leases') && StopsFit(r, ops[o := op], leases')
  {
    var ops' := ops[o := op];
    forall p | p in ops' && ops'[p].Start? ensures StartFits(r, ops', leases', p) {
      if p != o {
        assert StartFits(r, ops, leases, p);
        assert Owns(r, ops, p) == Owns(r, ops', p);
      }
    }
    forall p | p in leases' ensures p in ops' && ops'[p].Start? {
      assert p != o ==> LeaseAt(leases, p).Some?;
    }
    forall p | p in ops && ops[p].Stop? ensures StopFits(r, leases', ops[p]) {
      assert StopFits(r, leases, ops[p]);
      assert leases' != leases ==> ops[p].ref != o;
      assert LeaseAt(leases', ops[p].ref) == LeaseAt(leases, ops[p].ref);
    }
  }

  /** Marks and stops come and go together. */
  lemma MarkedKeeps(r: Indexes, q: Indexes, ops: map<nat, Op>, ops': map<nat, Op>, o: nat)
    requires Marked(r, ops) && o in ops' && ops' == ops[o := ops'[o]]
    requires forall id :: id in q.byID && q.byID[id].stopping && !Stops(ops', o, id) ==>
               id in r.byID && r.byID[id].stopping && !Stops(ops, o, id)
    ensures Marked(q, ops')
  {
    forall id | id in q.byID && q.byID[id].stopping ensures exists p :: Stops(ops', p, id) {
      if !Stops(ops', o, id) {
        var p :| Stops(ops, p, id);
        assert Stops(ops', p, id);
      }
    }
  }

  predicate AboutStops(e: Event) {
    e.BeginStop? || e.ReleaseReturns? || e.FailStop? || e.CommitStop?
  }

  lemma NoStopChanges(s: Sys, e: Event)
    requires Enabled(s, e) && !e.Connect? && !e.StopAll? && !e.Lose? && !AboutStops(e)
    ensures var t := Next(s, e);
            && e.op in t.ops && t.ops == s.ops[e.op := t.ops[e.op]] && !t.ops[e.op].Stop?
            && (e.op in s.ops ==> !s.ops[e.op].Stop?)
            && forall id :: id in t.m.registry.byID && t.m.registry.byID[id].stopping ==>
                 id in s.m.registry.byID && s.m.registry.byID[id].stopping
  {
  }

  lemma MarkedEvent(s: Sys, e: Event)
    requires Both(s) && Enabled(s, e) && !e.Connect? && !e.StopAll? && !e.Lose? && !AboutStops(e)
    ensures Marked(Next(s, e).m.registry, Next(s, e).ops)
  {
    NoStopChanges(s, e);
    MarkedKeeps(s.m.registry, Next(s, e).m.registry, s.ops, Next(s, e).ops, e.op);
  }

  lemma MarkedBegin(s: Sys, e: Event)
    requires Both(s) && Enabled(s, e) && (e.BeginStop? || e.ReleaseReturns?)
    ensures Marked(Next(s, e).m.registry, Next(s, e).ops)
  {
    MarkedKeeps(s.m.registry, Next(s, e).m.registry, s.ops, Next(s, e).ops, e.op);
  }

  lemma MarkedEnd(s: Sys, e: Event)
    requires Both(s) && Enabled(s, e) && (e.FailStop? || e.CommitStop?)
    ensures Marked(Next(s, e).m.registry, Next(s, e).ops)
  {
    StopFindsItsRuntime(s, e.op);
    MarkedKeeps(s.m.registry, Next(s, e).m.registry, s.ops, Next(s, e).ops, e.op);
  }

  lemma QuietEvent(s: Sys, e: Event)
    requires Both(s) && Enabled(s, e)
    requires e.BeginRecovery? || e.FailRecovery? || e.EndRecovery? || e.UnregisterPort?
             || e.Allocate? || e.Acknowledge? || e.UndoPort?
    ensures var t := Next(s, e); StartsFit(t.m.registry, t.ops, t.leases) && StopsFit(t.m.registry, t.ops, t.leases)
  {
    var t := Next(s, e);
    if e.op in s.ops && s.ops[e.op].Start? {
      assert StartFits(s.m.registry, s.ops, s.leases, e.op);
    }
    OpKeeps(s.m.registry, s.ops, s.leases, e.op, t.ops[e.op], s.leases);
  }

  lemma PhaseEvent(s: Sys, e: Event)
    requires Both(s) && Enabled(s, e)
    requires e.Grant? || e.Abandon? || e.UndoLease?
    ensures var t := Next(s, e); StartsFit(t.m.registry, t.ops, t.leases) && StopsFit(t.m.registry, t.ops, t.leases)
  {
    var t := Next(s, e);
    assert StartFits(s.m.registry, s.ops, s.leases, e.op);
    OpKeeps(s.m.registry, s.ops, s.leases, e.op, t.ops[e.op], t.leases);
  }

  /** The registry's reservations are no business of the leases. */
  lemma ReservationsAside(r: Indexes, q: Indexes, ops: map<nat, Op>, leases: map<nat, Lease>)
    requires StartsFit(r, ops, leases) && StopsFit(r, ops, leases) && q.byID == r.byID
    ensures StartsFit(q, ops, leases) && StopsFit(q, ops, leases)
  {
    forall o | o in ops && ops[o].Start? ensures StartFits(q, ops, leases, o) {
      assert StartFits(r, ops, leases, o);
    }
    forall o | o in ops && ops[o].Stop? ensures StopFits(q, leases, ops[o]) {
      assert StopFits(r, leases, ops[o]);
    }
  }

  lemma ReserveEvent(s: Sys, e: Event)
    requires Both(s) && Enabled(s, e) && e.Reserve?
    ensures var t := Next(s, e); StartsFit(t.m.registry, t.ops, t.leases) && StopsFit(t.m.registry, t.ops, t.leases)
  {
    var t := Next(s, e);
    ReservationsAside(s.m.registry, t.m.registry, s.ops, s.leases);
    assert !Owns(t.m.registry, t.ops, e.op);
    NewStart(t.m.registry, s.ops, s.leases, e.op, t.ops[e.op]);
  }

  lemma NewStart(r: Indexes, ops: map<nat, Op>, leases: map<nat, Lease>, o: nat, op: Op)
    requires StartsFit(r, ops, leases) && StopsFit(r, ops, leases) && o !in ops
    requires op.Start? && op.phase.Preparing? && !op.leased && op.key !in r.byID
    ensures StartsFit(r, ops[o := op], leases) && StopsFit(r, ops[o := op], leases)
  {
    var ops' := ops[o := op];
    forall p | p in ops' && ops'[p].Start? ensures StartFits(r, ops', leases, p) {
      if p != o {
        assert StartFits(r, ops, leases, p);
        assert Owns(r, ops, p) == Owns(r, ops', p);
      }
    }
  }

  lemma UnreserveEvent(s: Sys, e: Event)
    requires Both(s) && Enabled(s, e) && e.Unreserve?
    ensures var t := Next(s, e); StartsFit(t.m.registry, t.ops, t.leases) && StopsFit(t.m.registry, t.ops, t.leases)
  {
    var t := Next(s, e);
    assert StartFits(s.m.registry, s.ops, s.leases, e.op);
    OpKeeps(s.m.registry, s.ops, s.leases, e.op, t.ops[e.op], s.leases);
    ReservationsAside(s.m.registry, t.m.registry, t.ops, s.leases);
  }

  lemma PublishEvent(s: Sys, e: Event)
    requires Both(s) && Enabled(s, e) && e.Publish?
    ensures var t := Next(s, e); StartsFit(t.m.registry, t.ops, t.leases) && StopsFit(t.m.registry, t.ops, t.leases)
  {
    var t := Next(s, e);
    var o, r, op := e.op, s.m.registry, s.ops[e.op];
    var rt := RuntimeOf(o, op, e.details);
    assert StartFits(r, s.ops, s.leases, o);
    assert r.Reserved(op.key, op.reservation);
    assert op.key !in r.byID;
    PublishedFits(r, s.ops, s.leases, o, op.(phase := Published), rt);
    ReservationsAside(r.Add(rt), t.m.registry, t.ops, s.leases);
  }

  lemma PublishedFits(r: Indexes, ops: map<nat, Op>, leases: map<nat, Lease>, o: nat, op: Op, rt: Runtime)
    requires StartsFit(r, ops, leases) && StopsFit(r, ops, leases)
    requires o in ops && ops[o].Start? && op.Start? && op.key == ops[o].key && op.leased && op.phase.Published?
    requires LeaseAt(leases, o) == Some(UNTOUCHED)
    requires rt.ref == o && rt.info.id == op.key && op.key !in r.byID && !rt.stopping
    ensures StartsFit(r.Add(rt), ops[o := op], leases) && StopsFit(r.Add(rt), ops[o := op], leases)
  {
    var ops', q := ops[o := op], r.Add(rt);
    forall p | p in ops' && ops'[p].Start? ensures StartFits(q, ops', leases, p) {
      if p != o {
        assert StartFits(r, ops, leases, p);
        assert Owns(r, ops, p) == Owns(q, ops', p);
        assert Stopping(r, ops, p) == Stopping(q, ops', p);
      }
    }
    forall p | p in ops' && ops'[p].Stop? ensures StopFits(q, leases, ops'[p]) {
      assert StopFits(r, leases, ops[p]);
    }
  }

  /** Only the stop under work changes among the operations. */
  predicate StopOpChanges(ops: map<nat, Op>, ops': map<nat, Op>, o: nat) {
    o in ops' && !ops'[o].Start? && (o in ops ==> !ops[o].Start?) && ops' == ops[o := ops'[o]]
  }

  /** A runtime's mark and its lease change together. */
  lemma MarkFits(r: Indexes, q: Indexes, ops: map<nat, Op>, ops': map<nat, Op>,
                 leases: map<nat, Lease>, leases': map<nat, Lease>, id: Key, flag: bool, o: nat)
    requires StartsFit(r, ops, leases) && LR.MadeByStart(r, ops) && StopOpChanges(ops, ops', o)
    requires id in r.byID && q.byID == r.Mark(id, flag).byID
    requires var ref := r.byID[id].ref;
             && ref in leases && ref in leases' && leases' == leases[ref := leases'[ref]]
             && Owned(leases'[ref], true, flag)
    ensures StartsFit(q, ops', leases')
  {
    var ref := r.byID[id].ref;
    assert StartFits(r, ops, leases, ref) && Owns(r, ops, ref);
    forall p | p in ops' && ops'[p].Start? ensures StartFits(q, ops', leases', p) {
      assert StartFits(r, ops, leases, p);
      assert Owns(r, ops, p) == Owns(q, ops', p);
      assert p != ref ==> Stopping(r, ops, p) == Stopping(q, ops', p);
    }
  }

  /** Taking a runtime out whose lease is freed. */
  lemma RemoveFits(r: Indexes, q: Indexes, ops: map<nat, Op>, ops': map<nat, Op>, leases: map<nat, Lease>, id: Key,
                   o: nat)
    requires StartsFit(r, ops, leases) && LR.MadeByStart(r, ops) && StopOpChanges(ops, ops', o)
    requires id in r.byID && q == r.Remove(id)
    requires var ref := r.byID[id].ref; ref in leases && leases[ref].freed && leases[ref].inFlight == 0
    ensures StartsFit(q, ops', leases)
  {
    var ref := r.byID[id].ref;
    assert StartFits(r, ops, leases, ref) && Owns(r, ops, ref);
    forall p | p in ops' && ops'[p].Start? ensures StartFits(q, ops', leases, p) {
      assert StartFits(r, ops, leases, p);
      assert p != ref ==> Owns(r, ops, p) == Owns(q, ops', p);
    }
  }

  /** The stops other than o neither work on o's runtime nor on its lease. */
  lemma OtherStop(r: Indexes, ops: map<nat, Op>, leases: map<nat, Lease>, p: nat, id: Key)
    requires StopsFit(r, ops, leases) && LR.MadeByStart(r, ops) && id in r.byID
    requires p in ops && ops[p].Stop? && ops[p].id != id
    ensures StopFits(r, leases, ops[p]) && ops[p].ref != r.byID[id].ref
  {
    assert StopFits(r, leases, ops[p]);
  }

  /** Whatever befalls runtime id and its lease, the stops of other runtimes are as they were. */
  lemma StopsFrame(r: Indexes, q: Indexes, ops: map<nat, Op>, leases: map<nat, Lease>, leases': map<nat, Lease>,
                   o: nat, op: Op, id: Key)
    requires StopsFit(r, ops, leases) && LR.MadeByStart(r, ops) && id in r.byID
    requires forall p :: p in ops && p != o && ops[p].Stop? ==> ops[p].id != id
    requires forall k :: k in r.byID && k != id ==> k in q.byID && q.byID[k] == r.byID[k]
    requires forall l :: l in leases && l != r.byID[id].ref ==> l in leases' && leases'[l] == leases[l]
    requires op.Stop? ==> op.id == id && StopFits(q, leases', op)
    ensures StopsFit(q, ops[o := op], leases')
  {
    forall p | p in ops && p != o && ops[p].Stop? ensures StopFits(q, leases', ops[p]) && ops[p].id != id {
      OtherStop(r, ops, leases, p, id);
    }
  }

  lemma BeginStopEvent(s: Sys, e: Event)
    requires Both(s) && Enabled(s, e) && e.BeginStop?
    ensures var t := Next(s, e); StartsFit(t.m.registry, t.ops, t.leases) && StopsFit(t.m.registry, t.ops, t.leases)
  {
    var t, r := Next(s, e), s.m.registry;
    var ref := r.byID[e.id].ref;
    assert StartFits(r, s.ops, s.leases, ref);
    MarkFits(r, t.m.registry, s.ops, t.ops, s.leases, t.leases, e.id, true, e.op);
    forall p | p in s.ops && s.ops[p].Stop? ensures s.ops[p].id != e.id {
      assert StopFits(r, s.leases, s.ops[p]);
    }
    StopsFrame(r, t.m.registry, s.ops, s.leases, t.leases, e.op, t.ops[e.op], e.id);
  }

  lemma ReturnStarts(s: Sys, e: Event)
    requires Both(s) && Enabled(s, e) && e.ReleaseReturns?
    ensures var t := Next(s, e); StartsFit(t.m.registry, t.ops, t.leases)
  {
    var t, r, id := Next(s, e), s.m.registry, s.ops[e.op].id;
    assert StopFits(r, s.leases, s.ops[e.op]);
    assert StartFits(r, s.ops, s.leases, r.byID[id].ref);
    MarkFits(r, r, s.ops, t.ops, s.leases, t.leases, id, true, e.op);
  }

  lemma ReturnStops(s: Sys, e: Event)
    requires Both(s) && Enabled(s, e) && e.ReleaseReturns?
    ensures var t := Next(s, e); StopsFit(t.m.registry, t.ops, t.leases)
  {
    var t, r, id := Next(s, e), s.m.registry, s.ops[e.op].id;
    assert StopFits(r, s.leases, s.ops[e.op]);
    StopsFrame(r, r, s.ops, s.leases, t.leases, e.op, t.ops[e.op], id);
  }

  lemma FailStopEvent(s: Sys, e: Event)
    requires Both(s) && Enabled(s, e) && e.FailStop?
    ensures var t := Next(s, e); StartsFit(t.m.registry, t.ops, t.leases) && StopsFit(t.m.registry, t.ops, t.leases)
  {
    var t, r, id := Next(s, e), s.m.registry, s.ops[e.op].id;
    assert StopFits(r, s.leases, s.ops[e.op]);
    assert StartFits(r, s.ops, s.leases, r.byID[id].ref);
    MarkFits(r, t.m.registry, s.ops, t.ops, s.leases, t.leases, id, false, e.op);
    StopsFrame(r, t.m.registry, s.ops, s.leases, t.leases, e.op, Over, id);
  }

  lemma CommitStopEvent(s: Sys, e: Event)
    requires Both(s) && Enabled(s, e) && e.CommitStop?
    ensures var t := Next(s, e); StartsFit(t.m.registry, t.ops, t.leases) && StopsFit(t.m.registry, t.ops, t.leases)
  {
    var t, r, id := Next(s, e), s.m.registry, s.ops[e.op].id;
    assert StopFits(r, s.leases, s.ops[e.op]);
    RemoveFits(r, t.m.registry, s.ops, t.ops, s.leases, id, e.op);
    StopsFrame(r, t.m.registry, s.ops, s.leases, t.leases, e.op, t.ops[e.op], id);
  }

  lemma RegistryStep(s: Sys, e: Event)
    requires Both(s) && Enabled(s, e)
    ensures LR.Inv(Next(s, e))
  {
    if e.Publish? {
      assert StartFits(s.m.registry, s.ops, s.leases, e.op);
    }
    LR.StepKeeps(s, e);
  }

  lemma MarkedStep(s: Sys, e: Event)
    requires Both(s) && Enabled(s, e)
    ensures Marked(Next(s, e).m.registry, Next(s, e).ops)
  {
    if e.BeginStop? || e.ReleaseReturns? {
      MarkedBegin(s, e);
    } else if e.FailStop? || e.CommitStop? {
      MarkedEnd(s, e);
    } else if !e.Connect? && !e.StopAll? && !e.Lose? {
      MarkedEvent(s, e);
    }
  }

  /** Sections that leave runtimes, operations and leases alone. */
  lemma SessionEvent(s: Sys, e: Event)
    requires Both(s) && Enabled(s, e) && (e.Connect? || e.StopAll? || e.Lose?)
    ensures var t := Next(s, e); StartsFit(t.m.registry, t.ops, t.leases) && StopsFit(t.m.registry, t.ops, t.leases)
  {
    assert Next(s, e).ops == s.ops && Next(s, e).leases == s.leases && Next(s, e).m.registry == s.m.registry;
  }

  predicate OfStop(e: Event) {
    e.BeginStop? || e.ReleaseReturns? || e.FailStop? || e.CommitStop?
  }

  lemma StartEvent(s: Sys, e: Event)
    requires Both(s) && Enabled(s, e) && OfStart(e) && !e.Allocate? && !e.Acknowledge? && !e.UndoPort?
    ensures var t := Next(s, e); StartsFit(t.m.registry, t.ops, t.leases) && StopsFit(t.m.registry, t.ops, t.leases)
  {
    match e
    case Reserve(_, _) => ReserveEvent(s, e);
    case Publish(_, _) => PublishEvent(s, e);
    case Unreserve(_) => UnreserveEvent(s, e);
    case _ => PhaseEvent(s, e);
  }

  lemma StopEvent(s: Sys, e: Event)
    requires Both(s) && Enabled(s, e) && OfStop(e)
    ensures var t := Next(s, e); StartsFit(t.m.registry, t.ops, t.leases) && StopsFit(t.m.registry, t.ops, t.leases)
  {
    match e
    case BeginStop(_, _) => BeginStopEvent(s, e);
    case ReleaseReturns(_, _) =>
      ReturnStarts(s, e);
      ReturnStops(s, e);
    case FailStop(_) => FailStopEvent(s, e);
    case CommitStop(_, _) => CommitStopEvent(s, e);
  }

  lemma AccountsStep(s: Sys, e: Event)
    requires Both(s) && Enabled(s, e)
    ensures var t := Next(s, e); StartsFit(t.m.registry, t.ops, t.leases) && StopsFit(t.m.registry, t.ops, t.leases)
  {
    if OfStart(e) && !e.Allocate? && !e.Acknowledge? && !e.UndoPort? {
      StartEvent(s, e);
    } else if OfStop(e) {
      StopEvent(s, e);
    } else if e.Connect? || e.StopAll? || e.Lose? {
      SessionEvent(s, e);
    } else {
      QuietEvent(s, e);
    }
  }

  /** Every section of every operation keeps the lease accounts. */
  lemma StepKeeps(s: Sys, e: Event)
    requires Both(s) && Enabled(s, e)
    ensures Both(Next(s, e))
  {
    RegistryStep(s, e);
    MarkedStep(s, e);
    AccountsStep(s, e);
  }

  // ---- what the accounts say ----

  /** A stop that comes back from a release always finds the runtime it left: "runtime changed" cannot happen. */
  lemma StopFindsItsRuntime(s: Sys, o: nat)
    requires Both(s) && o in s.ops && s.ops[o].Stop?
    ensures s.m.IsFiled(s.ops[o].id, s.ops[o].ref)
  {
    assert StopFits(s.m.registry, s.leases, s.ops[o]);
  }

  /** Release calls on one lease never overlap, and one that succeeded is the last. */
  lemma NoOverlappingReleases(s: Sys, o: nat)
    requires Both(s) && o in s.leases
    ensures s.leases[o].inFlight <= 1 && s.leases[o].rollbacks <= 1
    ensures s.leases[o].rollbacks > 0 ==> s.leases[o].inFlight == 0 && !s.leases[o].freed
    ensures s.leases[o].freed ==> s.leases[o].inFlight == 0
    ensures Owns(s.m.registry, s.ops, o) ==> s.leases[o].rollbacks == 0
  {
    assert StartFits(s.m.registry, s.ops, s.leases, o);
  }

  /** A stop whose release has succeeded and that has not come to its last section. */
  predicate ReleasedBy(ops: map<nat, Op>, p: nat, o: nat) {
    p in ops && ops[p].Stop? && ops[p].ref == o && ops[p].stage.Released?
  }

  /** A published runtime's lease has been freed exactly while a stop stands between its release and its last
      section. */
  lemma FreedWhilePublished(s: Sys, o: nat)
    requires Both(s) && o in s.leases && Owns(s.m.registry, s.ops, o)
    ensures s.leases[o].freed <==> exists p :: ReleasedBy(s.ops, p, o)
  {
    var id := s.ops[o].key;
    assert StartFits(s.m.registry, s.ops, s.leases, o);
    if s.leases[o].freed {
      var p :| Stops(s.ops, p, id);
      assert StopFits(s.m.registry, s.leases, s.ops[p]);
      assert ReleasedBy(s.ops, p, o);
    }
    if p :| ReleasedBy(s.ops, p, o) {
      assert StopFits(s.m.registry, s.leases, s.ops[p]);
    }
  }

  /** Who has the lease of a start that is over: its runtime, if it succeeded and no release of a stop has; nobody,
      one rollback release having been made, if it failed. */
  lemma LeaseAccounted(s: Sys, o: nat)
    requires Both(s) && o in s.ops && s.ops[o].Start? && s.ops[o].phase.Finished? && o in s.leases
    ensures if s.ops[o].leased then
              s.leases[o].rollbacks == 0
              && (s.leases[o].freed <==> !Owns(s.m.registry, s.ops, o) || exists p :: ReleasedBy(s.ops, p, o))
            else s.leases[o].rollbacks == 1 && !Owns(s.m.registry, s.ops, o)
  {
    assert StartFits(s.m.registry, s.ops, s.leases, o);
    if Owns(s.m.registry, s.ops, o) {
      FreedWhilePublished(s, o);
    }
  }

  /** No two published runtimes share a lease, and every one has an account. */
  lemma LeasesApart(s: Sys, id1: Key, id2: Key)
    requires Both(s) && id1 in s.m.registry.byID && id2 in s.m.registry.byID
    requires s.m.registry.byID[id1].ref == s.m.registry.byID[id2].ref
    ensures id1 == id2
    ensures s.m.registry.byID[id1].ref in s.leases
  {
    var o := s.m.registry.byID[id1].ref;
    assert StartFits(s.m.registry, s.ops, s.leases, o);
  }

  /** Only these sections touch the published runtimes. */
  lemma RuntimesUntouched(s: Sys, e: Event)
    requires Enabled(s, e) && !e.Publish? && !e.BeginStop? && !e.FailStop? && !e.CommitStop?
    ensures Next(s, e).m.registry.byID == s.m.registry.byID
  {
  }

  lemma MarksOnly(s: Sys, e: Event)
    requires Enabled(s, e) && (e.BeginStop? || e.FailStop?)
    ensures forall id :: id in s.m.registry.byID ==> Next(s, e).m.IsFiled(id, s.m.registry.byID[id].ref)
  {
  }

  lemma PublishAdds(s: Sys, e: Event)
    requires LR.Inv(s) && Enabled(s, e) && e.Publish?
    ensures s.ops[e.op].key !in s.m.registry.byID
    ensures forall id :: id in s.m.registry.byID ==> Next(s, e).m.IsFiled(id, s.m.registry.byID[id].ref)
  {
    var op := s.ops[e.op];
    assert s.m.registry.Reserved(op.key, op.reservation);
  }

  lemma StaysFiled(s: Sys, e: Event)
    requires LR.Inv(s) && Enabled(s, e) && !e.CommitStop?
    ensures forall id :: id in s.m.registry.byID ==> Next(s, e).m.IsFiled(id, s.m.registry.byID[id].ref)
  {
    if e.Publish? {
      PublishAdds(s, e);
    } else if e.BeginStop? || e.FailStop? {
      MarksOnly(s, e);
    } else {
      RuntimesUntouched(s, e);
    }
  }

  lemma CommitTakesItsOwn(s: Sys, e: Event, id: Key)
    requires Enabled(s, e) && e.CommitStop? && id in s.m.registry.byID
    requires !Next(s, e).m.IsFiled(id, s.m.registry.byID[id].ref)
    ensures s.ops[e.op] == Op.Stop(id, s.m.registry.byID[id].ref, Released)
  {
  }

  /** A runtime leaves the registry in one way only: by the stop whose release has succeeded before. */
  lemma LeavesOnlyReleased(s: Sys, e: Event, id: Key)
    requires Both(s) && Enabled(s, e) && id in s.m.registry.byID
    requires !Next(s, e).m.IsFiled(id, s.m.registry.byID[id].ref)
    ensures e.CommitStop? && s.ops[e.op] == Op.Stop(id, s.m.registry.byID[id].ref, Released)
    ensures s.m.registry.byID[id].ref in s.leases && s.leases[s.m.registry.byID[id].ref].freed
  {
    if e.CommitStop? {
      CommitTakesItsOwn(s, e, id);
      assert StopFits(s.m.registry, s.leases, s.ops[e.op]);
    } else {
      StaysFiled(s, e);
    }
  }
}
