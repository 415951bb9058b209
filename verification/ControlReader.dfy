/** The desktop's end of the control channel: the read loop of internal/intercept/control.go. */
module ControlReader {
  import opened Wrappers
  import opened Bytes
  import opened Streams
  import opened ControlFrames
  import opened ControlStreams
  import opened ControlChannel

  /** The messages of one sort, in order. */
  function NoticesIn(ms: seq<ControlMessage>): (r: seq<ControlMessage>)
    ensures forall i :: 0 <= i < |r| ==> r[i].kind == CTRL_INBOUND_READY
  {
    if ms == [] then []
    else (if ms[0].kind == CTRL_INBOUND_READY then [ms[0]] else []) + NoticesIn(ms[1..])
  }

  function RepliesIn(ms: seq<ControlMessage>): (r: seq<ControlMessage>)
    ensures forall i :: 0 <= i < |r| ==> IsReply(r[i])
  {
    if ms == [] then [] else (if IsReply(ms[0]) then [ms[0]] else []) + RepliesIn(ms[1..])
  }

  predicate IsNotice(m: ControlMessage) {
    m.kind == CTRL_INBOUND_READY
  }

  /** r is the messages of ms at the places idx, in their order. */
  predicate Picks(r: seq<ControlMessage>, ms: seq<ControlMessage>, idx: seq<nat>) {
    && |idx| == |r| && (forall i :: 0 <= i < |idx| ==> idx[i] < |ms| && r[i] == ms[idx[i]])
    && (forall i, j :: 0 <= i < j < |idx| ==> idx[i] < idx[j])
  }

  function Shifted(idx: seq<nat>): (r: seq<nat>)
    ensures |r| == |idx| && forall i :: 0 <= i < |r| ==> r[i] == idx[i] + 1
  {
    if idx == [] then [] else [idx[0] + 1] + Shifted(idx[1..])
  }

  lemma PicksNext(r: seq<ControlMessage>, ms: seq<ControlMessage>, idx: seq<nat>, m: ControlMessage)
    requires Picks(r, ms, idx)
    ensures Picks(r, [m] + ms, Shifted(idx)) && Picks([m] + r, [m] + ms, [0] + Shifted(idx))
  {
    var up, all := Shifted(idx), [m] + ms;
    forall i | 0 <= i < |up| ensures up[i] < |all| && r[i] == all[up[i]] {
      assert all[idx[i] + 1] == ms[idx[i]];
    }
  }

  /** A message as often as it is there, if it is of the sort. */
  predicate Counts(r: seq<ControlMessage>, ms: seq<ControlMessage>, m: ControlMessage, sort: bool) {
    multiset(r)[m] == if sort then multiset(ms)[m] else 0
  }

  lemma CountsNext(r: seq<ControlMessage>, ms: seq<ControlMessage>, first: ControlMessage, keep: bool,
                   m: ControlMessage, sort: bool)
    requires Counts(r, ms, m, sort) && (m == first ==> sort == keep)
    ensures Counts((if keep then [first] else []) + r, [first] + ms, m, sort)
  {
    assert multiset([first] + ms) == multiset{first} + multiset(ms);
    assert multiset([first] + r) == multiset{first} + multiset(r);
    assert [] + r == r;
  }

  /** The notices, and the replies, are picked in order, each as often as it is there, and nothing else is. */
  lemma {:induction false} NoticesOrdered(ms: seq<ControlMessage>) returns (idx: seq<nat>)
    ensures Picks(NoticesIn(ms), ms, idx)
  {
    idx := [];
    if ms != [] {
      var rest := NoticesOrdered(ms[1..]);
      PicksNext(NoticesIn(ms[1..]), ms[1..], rest, ms[0]);
      assert ms == [ms[0]] + ms[1..];
      assert [] + NoticesIn(ms[1..]) == NoticesIn(ms[1..]);
      idx := if IsNotice(ms[0]) then [0] + Shifted(rest) else Shifted(rest);
    }
  }

  lemma {:induction false} NoticesCounted(ms: seq<ControlMessage>, m: ControlMessage)
    ensures Counts(NoticesIn(ms), ms, m, IsNotice(m))
  {
    if ms != [] {
      NoticesCounted(ms[1..], m);
      CountsNext(NoticesIn(ms[1..]), ms[1..], ms[0], IsNotice(ms[0]), m, IsNotice(m));
      assert ms == [ms[0]] + ms[1..];
    }
  }

  lemma {:induction false} RepliesOrdered(ms: seq<ControlMessage>) returns (idx: seq<nat>)
    ensures Picks(RepliesIn(ms), ms, idx)
  {
    idx := [];
    if ms != [] {
      var rest := RepliesOrdered(ms[1..]);
      PicksNext(RepliesIn(ms[1..]), ms[1..], rest, ms[0]);
      assert ms == [ms[0]] + ms[1..];
      assert [] + RepliesIn(ms[1..]) == RepliesIn(ms[1..]);
      idx := if IsReply(ms[0]) then [0] + Shifted(rest) else Shifted(rest);
    }
  }

  lemma {:induction false} RepliesCounted(ms: seq<ControlMessage>, m: ControlMessage)
    ensures Counts(RepliesIn(ms), ms, m, IsReply(m))
  {
    if ms != [] {
      RepliesCounted(ms[1..], m);
      CountsNext(RepliesIn(ms[1..]), ms[1..], ms[0], IsReply(ms[0]), m, IsReply(m));
      assert ms == [ms[0]] + ms[1..];
    }
  }

  /** What the bytes still to come say. */
  ghost function NoticesOf(rest: seq<byte>): seq<ControlMessage> {
    NoticesIn(ReadAll(rest).0)
  }

  ghost function RepliesOf(rest: seq<byte>): seq<ControlMessage> {
    RepliesIn(ReadAll(rest).0)
  }

  class ControlReader {
    var ready: seq<ControlMessage>
    var replies: seq<ControlMessage>
    var taken: seq<ControlMessage>
    var dropped: nat
    var closed: bool

    constructor ()
      ensures ready == [] && replies == [] && taken == [] && dropped == 0 && !closed
    {
      ready, replies, taken, dropped, closed := [], [], [], 0, false;
    }

    /** The callers' side of the reply channel: some of what is queued is received, oldest first. */
    method Receive()
      modifies this`replies, this`taken
      ensures taken + replies == old(taken + replies) && |replies| <= |old(replies)|
    {
      var n: nat :| n <= |replies|;
      assert replies[..n] + replies[n..] == replies;
      taken := taken + replies[..n];
      replies := replies[n..];
    }

    /** readLoop, with callers receiving between any two messages: every notice is passed on in order, and the loop
        ends, closed, where the bytes stop making messages. Unless a reply is dropped, the replies received and queued
        are all there were, in order; none is dropped if there is room for all; and every reply is received, queued or
        dropped. */
    method ReadLoop(r: Reader)
      requires |replies| <= REPLY_QUEUE
      modifies this, r
      ensures closed && |replies| <= REPLY_QUEUE
      ensures ready == old(ready) + NoticesOf(old(r.rest))
      ensures dropped == old(dropped) ==> taken + replies == old(taken + replies) + RepliesOf(old(r.rest))
      ensures |taken| + |replies| + dropped
           == |old(taken)| + |old(replies)| + old(dropped) + |RepliesOf(old(r.rest))|
      ensures |old(replies)| + |RepliesOf(old(r.rest))| <= REPLY_QUEUE ==> dropped == old(dropped)
    {
      ghost var notices, all := ready + NoticesOf(r.rest), taken + replies + RepliesOf(r.rest);
      ghost var lost, fits := dropped, |replies| + |RepliesOf(r.rest)| <= REPLY_QUEUE;
      var goes := true;
      while goes
        invariant |replies| <= REPLY_QUEUE && dropped >= lost && closed == (!goes || old(closed))
        invariant ready + (if goes then NoticesOf(r.rest) else []) == notices
        invariant dropped == lost ==> taken + replies + (if goes then RepliesOf(r.rest) else []) == all
        invariant |taken| + |replies| + dropped + (if goes then |RepliesOf(r.rest)| else 0) == |all| + lost
        invariant fits ==> dropped == lost && (goes ==> |replies| + |RepliesOf(r.rest)| <= REPLY_QUEUE)
        decreases goes, |r.rest|
      {
        goes := Turn(r);
      }
    }

    /** One turn of the loop. */
    method Turn(r: Reader) returns (goes: bool)
      requires |replies| <= REPLY_QUEUE
      modifies this, r
      ensures |replies| <= REPLY_QUEUE && dropped >= old(dropped) && closed == (!goes || old(closed))
      ensures goes ==>
                && |r.rest| < |old(r.rest)| && ready + NoticesOf(r.rest) == old(ready) + NoticesOf(old(r.rest))
                && (dropped == old(dropped) ==>
                      taken + replies + RepliesOf(r.rest) == old(taken + replies) + RepliesOf(old(r.rest)))
                && |taken| + |replies| + dropped + |RepliesOf(r.rest)|
                   == |old(taken)| + |old(replies)| + old(dropped) + |RepliesOf(old(r.rest))|
                && (|old(replies)| + |RepliesOf(old(r.rest))| <= REPLY_QUEUE ==>
                      dropped == old(dropped) && |replies| + |RepliesOf(r.rest)| <= REPLY_QUEUE)
      ensures !goes ==>
                && NoticesOf(old(r.rest)) == [] && RepliesOf(old(r.rest)) == [] && ready == old(ready)
                && taken + replies == old(taken + replies) && dropped == old(dropped)
    {
      Receive();
      ghost var before := r.rest;
      var message := ReadControlMessage(r);
      if message.Err? {
        closed := true;
        return false;
      }
      ghost var more := ReadAll(r.rest).0;
      assert ReadAll(before).0 == [message.value] + more;
      Dispatch(message.value, more);
      return true;
    }

    method Dispatch(m: ControlMessage, ghost more: seq<ControlMessage>)
      requires |replies| <= REPLY_QUEUE
      modifies this`ready, this`replies, this`dropped
      ensures |replies| <= REPLY_QUEUE && dropped >= old(dropped)
      ensures ready + NoticesIn(more) == old(ready) + NoticesIn([m] + more)
      ensures dropped == old(dropped) ==>
                taken + replies + RepliesIn(more) == old(taken + replies) + RepliesIn([m] + more)
      ensures |replies| + dropped + |RepliesIn(more)| == |old(replies)| + old(dropped) + |RepliesIn([m] + more)|
      ensures |old(replies)| < REPLY_QUEUE || |RepliesIn([m] + more)| == |RepliesIn(more)| ==> dropped == old(dropped)
    {
      assert ([m] + more)[1..] == more;
      if m.kind == CTRL_INBOUND_READY {
        ready := ready + [m];
      } else if m.kind == CTRL_ACK || m.kind == CTRL_ERROR {
        if |replies| < REPLY_QUEUE {
          assert taken + (replies + [m]) + RepliesIn(more) == taken + replies + ([m] + RepliesIn(more));
          replies := replies + [m];
        } else {
          dropped := dropped + 1;
        }
      }
    }
  }

  /** From messages written to what is passed on: a fresh client that reads a connection's frames passes on exactly the
      notices among them, in order, and, if there is room, has exactly the replies among them, in order. */
  method HearWritten(ms: seq<ControlMessage>)
    returns (client: ControlReader, ghost notices: seq<nat>, ghost replies: seq<nat>)
    requires AllCarried(ms)
    ensures Picks(client.ready, Meanings(ms), notices)
    ensures forall m :: Counts(client.ready, Meanings(ms), m, IsNotice(m))
    ensures client.dropped == 0 ==>
              Picks(client.taken + client.replies, Meanings(ms), replies)
              && forall m :: Counts(client.taken + client.replies, Meanings(ms), m, IsReply(m))
    ensures |ms| <= 8 ==> client.dropped == 0
  {
    client := new ControlReader();
    var r := new Reader(Frames(ms));
    client.ReadLoop(r);
    WrittenIsRead(ms);
    ghost var said := Meanings(ms);
    notices := NoticesOrdered(said);
    replies := RepliesOrdered(said);
    PickedFewer(RepliesIn(said), said, replies);
    forall m ensures Counts(NoticesIn(said), said, m, IsNotice(m)) && Counts(RepliesIn(said), said, m, IsReply(m)) {
      NoticesCounted(said, m);
      RepliesCounted(said, m);
    }
    NothingBefore(NoticesIn(said));
    NothingBefore(RepliesIn(said));
  }

  lemma NothingBefore(s: seq<ControlMessage>)
    ensures [] + s == s && [] + [] + s == s
  {
  }

  lemma {:induction false} PickedFewer(r: seq<ControlMessage>, ms: seq<ControlMessage>, idx: seq<nat>)
    requires Picks(r, ms, idx)
    ensures |r| <= |ms|
  {
    if |r| > 0 {
      var n := |r| - 1;
      AtLeast(idx, n);
    }
  }

  lemma {:induction false} AtLeast(idx: seq<nat>, i: nat)
    requires i < |idx| && forall i, j :: 0 <= i < j < |idx| ==> idx[i] < idx[j]
    ensures idx[i] >= i
  {
    if i > 0 {
      AtLeast(idx, i - 1);
    }
  }

  lemma WrittenIsRead(ms: seq<ControlMessage>)
    requires AllCarried(ms)
    ensures NoticesOf(Frames(ms)) == NoticesIn(Meanings(ms)) && RepliesOf(Frames(ms)) == RepliesIn(Meanings(ms))
  {
    ReadAllInvertsFrames(ms, []);
    assert Frames(ms) + [] == Frames(ms);
    assert Meanings(ms) + ReadAll([]).0 == Meanings(ms);
  }
}
