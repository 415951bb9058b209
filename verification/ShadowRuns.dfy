/** Every interleaving of the shadow writer's callers, its run loop, failures of the local service and Close. */
module ShadowRuns {
  import opened Bytes
  import opened ShadowWriters

  /** The run loop: waiting, holding a payload it has not looked further at, in the middle of sending one, or back
      from a failed send. */
  datatype Loop = Waiting | Holding(payload: seq<byte>) | Sending(rest: seq<byte>) | Failed | Finished

  /** `offered` is everything the callers wrote, `received` what the local service got. */
  datatype Sys = Sys(w: Shadow, run: Loop, offered: seq<byte>, received: seq<byte>, queueCloses: nat)

  const INITIAL := Sys(Shadow([], false, false, false), Waiting, [], [], 0)

  datatype Event =
    | Write(payload: seq<byte>)
    | Close
    | CloseConn
    | Take
    | Look
    | Send(size: nat)
    | Sent
    | FailSend
    | Abort
    | Finish

  predicate Enabled(s: Sys, e: Event) {
    match e
    case Write(_) => true
    case Close => true
    case CloseConn => s.w.closed
    case Take => s.run.Waiting? && s.w.queue != []
    case Look => s.run.Holding?
    case Send(size) => s.run.Sending? && 0 < size <= |s.run.rest| && !s.w.connClosed
    case Sent => s.run.Sending? && s.run.rest == []
    case FailSend => s.run.Sending?
    case Abort => s.run.Failed?
    case Finish => s.run.Waiting? && s.w.queue == [] && s.w.closed
  }

  function Next(s: Sys, e: Event): (t: Sys)
    requires Enabled(s, e)
  {
    match e
    case Write(p) => s.(w := s.w.Write(p), offered := s.offered + p)
    case Close => s.(w := s.w.Close(), queueCloses := s.queueCloses + if s.w.closed then 0 else 1)
    case CloseConn => s.(w := s.w.(connClosed := true))
    case Take => s.(w := s.w.Take(), run := Holding(s.w.queue[0]))
    case Look => s.(run := if s.w.aborted then Waiting else Sending(s.run.payload))
    case Send(size) => s.(run := Sending(s.run.rest[size..]), received := s.received + s.run.rest[..size])
    case Sent => s.(run := Waiting)
    case FailSend => s.(run := Failed)
    case Abort => s.(w := s.w.Abort(), run := Waiting)
    case Finish => s.(run := Finished)
  }

  ghost predicate Runs(s: Sys, events: seq<Event>)
    decreases |events|
  {
    events == [] || (Enabled(s, events[0]) && Runs(Next(s, events[0]), events[1..]))
  }

  ghost function After(s: Sys, events: seq<Event>): (t: Sys)
    requires Runs(s, events)
    decreases |events|
  {
    if events == [] then s else After(Next(s, events[0]), events[1..])
  }

  /** What the run loop has in hand. */
  function InHand(run: Loop): seq<byte> {
    match run
    case Holding(payload) => payload
    case Sending(rest) => rest
    case _ => []
  }

  /** Everything still to be sent, in order. */
  function Owed(s: Sys): seq<byte> {
    InHand(s.run) + Joined(s.w.queue)
  }

  ghost predicate Inv(s: Sys) {
    && |s.w.queue| <= QUEUE_SIZE
    && s.queueCloses == (if s.w.closed then 1 else 0)
    && (s.run.Finished? ==> s.w.closed && s.w.queue == [])
    && s.received <= s.offered
    && (s.run.Sending? ==> s.received + s.run.rest <= s.offered)
    && (!s.w.aborted && !s.run.Failed? ==> s.received + Owed(s) <= s.offered)
    && (!s.w.aborted && !s.run.Failed? && !s.w.closed ==> s.received + Owed(s) == s.offered)
  }

  lemma WriteKeeps(s: Sys, p: seq<byte>)
    requires Inv(s)
    ensures Inv(Next(s, Write(p)))
  {
    var t := Next(s, Write(p));
    if t.w.queue != s.w.queue {
      JoinedNext(s.w.queue, p);
      assert s.received + (InHand(s.run) + (Joined(s.w.queue) + p)) == s.received + Owed(s) + p;
      assert Owed(t) == InHand(s.run) + (Joined(s.w.queue) + p);
    }
  }

  lemma TakeKeeps(s: Sys)
    requires Inv(s) && Enabled(s, Take)
    ensures Inv(Next(s, Take))
  {
    assert Owed(s) == [] + (s.w.queue[0] + Joined(s.w.queue[1..]));
    assert Owed(Next(s, Take)) == Owed(s);
  }

  lemma SendKeeps(s: Sys, size: nat)
    requires Inv(s) && Enabled(s, Send(size))
    ensures Inv(Next(s, Send(size)))
  {
    var t := Next(s, Send(size));
    var sent := s.run.rest[..size];
    assert s.run.rest == sent + t.run.rest;
    assert s.received + s.run.rest == t.received + t.run.rest;
    assert s.received + (s.run.rest + Joined(s.w.queue)) == t.received + (t.run.rest + Joined(s.w.queue));
  }

  lemma LoopKeeps(s: Sys, e: Event)
    requires Inv(s) && Enabled(s, e) && (e.Look? || e.Sent? || e.FailSend? || e.Abort? || e.Finish?)
    ensures Inv(Next(s, e))
  {
    if e.Look? && !s.w.aborted {
      assert s.received + Owed(s) == s.received + s.run.payload + Joined(s.w.queue);
    }
    assert !e.FailSend? && !e.Abort? && !s.w.aborted ==> Owed(Next(s, e)) == Owed(s);
  }

  lemma StepKeeps(s: Sys, e: Event)
    requires Inv(s) && Enabled(s, e)
    ensures Inv(Next(s, e))
  {
    match e
    case Write(p) => WriteKeeps(s, p);
    case Close =>
    case CloseConn =>
    case Take => TakeKeeps(s);
    case Send(size) => SendKeeps(s, size);
    case _ => LoopKeeps(s, e);
  }

  lemma {:induction false} RunKeeps(s: Sys, events: seq<Event>)
    requires Inv(s) && Runs(s, events)
    ensures Inv(After(s, events))
    decreases |events|
  {
    if events != [] {
      StepKeeps(s, events[0]);
      RunKeeps(Next(s, events[0]), events[1..]);
    }
  }

  /** Whatever interleaves, the local service has received a prefix of what was written; at most sixteen payloads
      wait; and the queue is closed at most once. */
  lemma ReceivedIsPrefix(events: seq<Event>)
    requires Runs(INITIAL, events)
    ensures var t := After(INITIAL, events);
            t.received <= t.offered && |t.w.queue| <= 16 && t.queueCloses <= 1
  {
    RunKeeps(INITIAL, events);
  }

  /** A shadow that neither overflowed nor failed loses nothing: what was written and not received is waiting, and
      when nothing waits all of it has arrived. */
  lemma NothingLost(events: seq<Event>)
    requires Runs(INITIAL, events)
    requires var t := After(INITIAL, events); !t.w.aborted && !t.run.Failed? && !t.w.closed
    ensures var t := After(INITIAL, events);
            t.received + Owed(t) == t.offered && (t.run.Waiting? && t.w.queue == [] ==> t.received == t.offered)
  {
    RunKeeps(INITIAL, events);
    var t := After(INITIAL, events);
    assert t.run.Waiting? && t.w.queue == [] ==> Owed(t) == [];
  }

  /** Nothing is put on a closed queue, and a shadow given up is given up for good: from there on nothing new
      is even begun. */
  lemma ClosedTakesNothing(s: Sys, e: Event)
    requires Enabled(s, e) && (s.w.closed || s.w.aborted)
    ensures |Next(s, e).w.queue| <= |s.w.queue|
    ensures Next(s, e).w.closed == (s.w.closed || e.Close?) && (s.w.aborted ==> Next(s, e).w.aborted)
    ensures s.w.aborted && !s.run.Sending? ==> !Next(s, e).run.Sending? && Next(s, e).received == s.received
  {
  }

  /** An overflow, and nothing else a caller does, gives the shadow up, and cuts off what is being sent. */
  lemma OverflowGivesUp(s: Sys, p: seq<byte>)
    requires Inv(s) && !s.w.closed && !s.w.aborted
    ensures Next(s, Write(p)).w.aborted <==> |s.w.queue| == 16
    ensures Next(s, Write(p)).w.aborted ==>
              forall size :: !Enabled(Next(s, Write(p)), Send(size))
  {
  }
}
