/** The registry over all interleavings: its indexes stay inverse, a service is never reserved and published at
    once, and at most one start of a service is under way. */
module LifecycleRegistry {
  import opened Intercepts
  import opened Registry
  import opened Lifecycle

  /** byID and byKey are each other's inverse. */
  ghost predicate Filed(r: Indexes) {
    && r.byID.Keys == r.byKey.Keys
    && (forall k :: k in r.byKey ==> r.byKey[k] == k)
    && (forall id :: id in r.byID ==> r.byID[id].info.id == id && r.byID[id].info.key == id)
  }

  /** Tokens are positive and were handed out. */
  ghost predicate TokensIssued(r: Indexes) {
    && (forall k :: k in r.starting ==> 0 < r.starting[k] <= r.nextReservation)
  }

  /** Each start has its own token, and keeps its reservation until it is done with everything else. */
  ghost predicate TokensHeld(r: Indexes, ops: map<nat, Op>) {
    && (forall o :: o in ops && ops[o].Start? ==> 0 < ops[o].reservation <= r.nextReservation)
    && (forall o, p :: o in ops && p in ops && ops[o].Start? && ops[p].Start? && o != p ==>
          ops[o].reservation != ops[p].reservation)
    && (forall o :: o in ops && Holding(ops[o]) ==> r.Reserved(ops[o].key, ops[o].reservation))
  }

  predicate Succeeded(op: Op) {
    op.Start? && op.leased && (op.phase.Published? || op.phase.Finished?)
  }

  /** A published runtime was published by the start it is identified by. */
  ghost predicate MadeByStart(r: Indexes, ops: map<nat, Op>) {
    forall id :: id in r.byID ==>
      r.byID[id].ref in ops && Succeeded(ops[r.byID[id].ref]) && ops[r.byID[id].ref].key == id
  }

  ghost predicate RegistryInv(r: Indexes, ops: map<nat, Op>) {
    Filed(r) && r.byID.Keys !! r.starting.Keys && TokensIssued(r) && TokensHeld(r, ops) && MadeByStart(r, ops)
  }

  /** The changes of an operation that concern neither its token nor what it published. */
  predicate Moves(ops: map<nat, Op>, o: nat, op: Op) {
    if o in ops && ops[o].Start? then
      op.Start? && op.key == ops[o].key && op.reservation == ops[o].reservation
      && (Holding(op) ==> Holding(ops[o])) && (Succeeded(ops[o]) ==> Succeeded(op))
    else
      !op.Start?
  }

  lemma MovesKeep(r: Indexes, ops: map<nat, Op>, o: nat, op: Op)
    requires RegistryInv(r, ops) && Moves(ops, o, op)
    ensures RegistryInv(r, ops[o := op])
  {
  }

  lemma MarkKeeps(r: Indexes, ops: map<nat, Op>, id: Key, flag: bool)
    requires RegistryInv(r, ops) && id in r.byID
    ensures RegistryInv(r.Mark(id, flag), ops)
  {
    var q := r.Mark(id, flag);
    assert q.byID.Keys == r.byID.Keys;
    forall k | k in q.byID ensures q.byID[k].ref == r.byID[k].ref && q.byID[k].info == r.byID[k].info {
    }
    assert TokensHeld(q, ops) by {
      TokensDepend(r, q, ops);
    }
  }

  /** Tokens depend on the reservations alone. */
  lemma TokensDepend(r: Indexes, q: Indexes, ops: map<nat, Op>)
    requires TokensHeld(r, ops) && q.starting == r.starting && q.nextReservation == r.nextReservation
    ensures TokensHeld(q, ops)
  {
    forall o | o in ops && Holding(ops[o]) ensures q.Reserved(ops[o].key, ops[o].reservation) {
      assert r.Reserved(ops[o].key, ops[o].reservation);
    }
  }

  lemma ReserveKeeps(r: Indexes, ops: map<nat, Op>, o: nat, op: Op)
    requires RegistryInv(r, ops) && o !in ops
    requires op.Start? && r.CanReserve(op.key) && op.reservation == r.nextReservation + 1
    requires !Succeeded(op)
    ensures RegistryInv(r.Reserve(op.key), ops[o := op])
  {
    var q := r.Reserve(op.key);
    forall p | p in ops && Holding(ops[p]) ensures q.Reserved(ops[p].key, ops[p].reservation) {
      assert r.Reserved(ops[p].key, ops[p].reservation);
    }
  }

  /** Two starts of one service cannot both hold its reservation. */
  lemma OneStartPerService(r: Indexes, ops: map<nat, Op>, o: nat, p: nat)
    requires RegistryInv(r, ops)
    requires o in ops && p in ops && Holding(ops[o]) && Holding(ops[p]) && ops[o].key == ops[p].key
    ensures o == p
  {
    assert r.Reserved(ops[o].key, ops[o].reservation) && r.Reserved(ops[p].key, ops[p].reservation);
  }

  /** Releasing a token, early or late, takes away no other start's reservation. */
  lemma ReleaseKeepsOthers(r: Indexes, ops: map<nat, Op>, o: nat, p: nat)
    requires RegistryInv(r, ops) && o in ops && ops[o].Start? && p in ops && Holding(ops[p]) && p != o
    ensures r.Release(ops[o].key, ops[o].reservation).Reserved(ops[p].key, ops[p].reservation)
  {
    assert ops[o].reservation != ops[p].reservation;
    assert r.Reserved(ops[p].key, ops[p].reservation);
  }

  lemma ReleaseKeeps(r: Indexes, ops: map<nat, Op>, o: nat, op: Op)
    requires RegistryInv(r, ops) && o in ops && ops[o].Start? && Moves(ops, o, op) && !Holding(op)
    ensures RegistryInv(r.Release(op.key, op.reservation), ops[o := op])
  {
    forall p | p in ops && Holding(ops[p]) && p != o
      ensures r.Release(op.key, op.reservation).Reserved(ops[p].key, ops[p].reservation)
    {
      ReleaseKeepsOthers(r, ops, o, p);
    }
  }

  lemma PublishFiled(r: Indexes, rt: Runtime)
    requires Filed(r) && r.byID.Keys !! r.starting.Keys && rt.info.id == rt.info.key
    ensures Filed(r.Add(rt))
    ensures r.Add(rt).byID.Keys == r.byID.Keys + {rt.info.id}
  {
    var q := r.Add(rt);
    assert q.byID.Keys == r.byID.Keys + {rt.info.id} && q.byKey.Keys == r.byKey.Keys + {rt.info.id};
  }

  lemma PublishTokens(r: Indexes, ops: map<nat, Op>, o: nat, op: Op)
    requires RegistryInv(r, ops) && o in ops && Holding(ops[o])
    requires op.Start? && op.key == ops[o].key && op.reservation == ops[o].reservation && !Holding(op)
    ensures TokensHeld(r.Release(op.key, op.reservation), ops[o := op])
  {
    forall p | p in ops && Holding(ops[p]) && p != o
      ensures r.Release(op.key, op.reservation).Reserved(ops[p].key, ops[p].reservation)
    {
      ReleaseKeepsOthers(r, ops, o, p);
    }
  }

  lemma PublishMade(r: Indexes, ops: map<nat, Op>, o: nat, op: Op, rt: Runtime)
    requires MadeByStart(r, ops) && o in ops && !Succeeded(ops[o])
    requires Succeeded(op) && rt.ref == o && rt.info.id == op.key
    ensures MadeByStart(r.Add(rt), ops[o := op])
  {
  }

  lemma PublishKeeps(r: Indexes, ops: map<nat, Op>, o: nat, op: Op, rt: Runtime)
    requires RegistryInv(r, ops) && o in ops && Holding(ops[o])
    requires op.Start? && op.key == ops[o].key && op.reservation == ops[o].reservation
    requires Succeeded(op) && !Holding(op)
    requires rt.ref == o && rt.info.id == op.key && rt.info.key == op.key
    ensures RegistryInv(r.Add(rt).Release(op.key, op.reservation), ops[o := op])
    ensures op.key !in r.byID
  {
    assert r.Reserved(op.key, op.reservation);
    PublishFiled(r, rt);
    PublishTokens(r, ops, o, op);
    TokensDepend(r.Release(op.key, op.reservation), r.Add(rt).Release(op.key, op.reservation), ops[o := op]);
    PublishMade(r, ops, o, op, rt);
  }

  lemma RemoveKeeps(r: Indexes, ops: map<nat, Op>, id: Key)
    requires RegistryInv(r, ops)
    ensures RegistryInv(r.Remove(id), ops)
  {
    if id in r.byID {
      assert r.Remove(id).byID.Keys == r.byID.Keys - {id};
      TokensDepend(r, r.Remove(id), ops);
    }
  }

  // ---- one lemma per event ----

  ghost predicate Inv(s: Sys) {
    RegistryInv(s.m.registry, s.ops)
  }

  lemma StartEvent(s: Sys, e: Event)
    requires Inv(s) && Enabled(s, e)
    requires e.Allocate? || e.Acknowledge? || e.Grant? || e.Abandon? || e.UndoPort? || e.UndoLease?
    ensures Inv(Next(s, e))
  {
    MovesKeep(s.m.registry, s.ops, e.op, Next(s, e).ops[e.op]);
  }

  lemma RecoveryEvent(s: Sys, e: Event)
    requires Inv(s) && Enabled(s, e)
    requires e.BeginRecovery? || e.FailRecovery? || e.EndRecovery? || e.UnregisterPort? || e.ReleaseReturns?
    ensures Inv(Next(s, e))
  {
    MovesKeep(s.m.registry, s.ops, e.op, Next(s, e).ops[e.op]);
  }

  lemma ReserveEvent(s: Sys, e: Event)
    requires Inv(s) && Enabled(s, e) && e.Reserve?
    ensures Inv(Next(s, e))
  {
    ReserveKeeps(s.m.registry, s.ops, e.op, Next(s, e).ops[e.op]);
  }

  lemma PublishEvent(s: Sys, e: Event)
    requires Inv(s) && Enabled(s, e) && e.Publish? && s.ops[e.op].leased
    ensures Inv(Next(s, e))
  {
    var op := s.ops[e.op];
    PublishKeeps(s.m.registry, s.ops, e.op, op.(phase := Published), RuntimeOf(e.op, op, e.details));
  }

  lemma UnreserveEvent(s: Sys, e: Event)
    requires Inv(s) && Enabled(s, e) && e.Unreserve?
    ensures Inv(Next(s, e))
  {
    ReleaseKeeps(s.m.registry, s.ops, e.op, s.ops[e.op].(phase := Finished));
  }

  lemma StopEvent(s: Sys, e: Event)
    requires Inv(s) && Enabled(s, e) && (e.BeginStop? || e.FailStop?)
    ensures Inv(Next(s, e))
  {
    var r, t := s.m.registry, Next(s, e);
    MovesKeep(r, s.ops, e.op, t.ops[e.op]);
    if e.BeginStop? {
      MarkKeeps(r, t.ops, e.id, true);
    } else if s.m.IsFiled(s.ops[e.op].id, s.ops[e.op].ref) {
      MarkKeeps(r, t.ops, s.ops[e.op].id, false);
    }
  }

  lemma CommitEvent(s: Sys, e: Event)
    requires Inv(s) && Enabled(s, e) && e.CommitStop?
    ensures Inv(Next(s, e))
  {
    var r, t := s.m.registry, Next(s, e);
    MovesKeep(r, s.ops, e.op, t.ops[e.op]);
    RemoveKeeps(r, t.ops, s.ops[e.op].id);
  }

  /** Every section of every operation keeps the registry's invariant. */
  lemma StepKeeps(s: Sys, e: Event)
    requires Inv(s) && Enabled(s, e)
    requires e.Publish? ==> s.ops[e.op].leased
    ensures Inv(Next(s, e))
  {
    match e
    case Connect(_) =>
    case StopAll =>
    case Lose(_) =>
    case BeginRecovery(_, _) => RecoveryEvent(s, e);
    case FailRecovery(_) => RecoveryEvent(s, e);
    case EndRecovery(_, _) => RecoveryEvent(s, e);
    case Reserve(_, _) => ReserveEvent(s, e);
    case Allocate(_, _, _) => StartEvent(s, e);
    case Acknowledge(_) => StartEvent(s, e);
    case Grant(_) => StartEvent(s, e);
    case Abandon(_) => StartEvent(s, e);
    case Publish(_, _) => PublishEvent(s, e);
    case UndoLease(_) => StartEvent(s, e);
    case UndoPort(_, _) => StartEvent(s, e);
    case Unreserve(_) => UnreserveEvent(s, e);
    case BeginStop(_, _) => StopEvent(s, e);
    case ReleaseReturns(_, _) => RecoveryEvent(s, e);
    case FailStop(_) => StopEvent(s, e);
    case CommitStop(_, _) => CommitEvent(s, e);
    case UnregisterPort(_, _) => RecoveryEvent(s, e);
  }
}
