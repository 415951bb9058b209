/** Mirror's best-effort local copy: shadowWriter of internal/intercept/mirror.go, its sections under the mutex as
    functions and as methods on the queue of copies, and the tee in front of the primary. */
module ShadowWriters {
  import opened Wrappers
  import opened Bytes
  import opened Streams

  const QUEUE_SIZE := 16

  datatype Shadow = Shadow(queue: seq<seq<byte>>, aborted: bool, closed: bool, connClosed: bool) {
    /** Write: queued if there is room; an overflow gives the shadow up. */
    function Write(payload: seq<byte>): Shadow {
      if aborted || closed then this
      else if |queue| < QUEUE_SIZE then this.(queue := queue + [payload])
      else this.(aborted := true, connClosed := true)
    }

    function Close(): Shadow {
      this.(closed := true)
    }

    function Abort(): Shadow {
      this.(aborted := true, connClosed := true)
    }

    function Take(): Shadow
      requires queue != []
    {
      this.(queue := queue[1..])
    }
  }

  ghost function Contents(q: seq<array<byte>>): (c: seq<seq<byte>>)
    reads q
    ensures |c| == |q| && forall i :: 0 <= i < |q| ==> c[i] == q[i][..]
  {
    if q == [] then [] else [q[0][..]] + Contents(q[1..])
  }

  class ShadowWriter {
    var queue: seq<array<byte>>
    var aborted: bool
    var closed: bool
    var connClosed: bool

    ghost function State(): Shadow
      reads this, queue
    {
      Shadow(Contents(queue), aborted, closed, connClosed)
    }

    constructor ()
      ensures State() == Shadow([], false, false, false) && queue == []
    {
      queue, aborted, closed, connClosed := [], false, false, false;
    }

    /** Write: the queue gets a copy of its own, and the caller is always told that everything was taken. */
    method Write(payload: array<byte>, size: nat) returns (taken: nat, failed: bool)
      requires size <= payload.Length
      modifies this
      ensures State() == old(State().Write(payload[..size]))
      ensures taken == size && !failed
      ensures forall a :: a in queue ==> a in old(queue) || fresh(a)
      ensures old(queue) <= queue
    {
      var copyOfPayload := new byte[size](i requires 0 <= i < size <= payload.Length reads payload => payload[i]);
      assert copyOfPayload[..] == payload[..size];
      if aborted || closed {
        return size, false;
      }
      if |queue| < QUEUE_SIZE {
        queue := queue + [copyOfPayload];
      } else {
        aborted := true;
        connClosed := true;
      }
      return size, false;
    }

    /** Close, up to the unlock: only the first call closes the queue. */
    method Close() returns (first: bool)
      modifies this`closed
      ensures first <==> !old(closed)
      ensures State() == old(State().Close())
    {
      first := !closed;
      closed := true;
    }

    /** The run loop's receive. */
    method Take() returns (payload: Option<array<byte>>)
      modifies this`queue
      ensures payload.Some? <==> old(queue) != []
      ensures payload.Some? ==> payload.value[..] == old(State()).queue[0] && State() == old(State().Take())
      ensures payload.None? ==> State() == old(State())
    {
      if queue == [] {
        return None;
      }
      payload := Some(queue[0]);
      queue := queue[1..];
    }
  }

  function Joined(chunks: seq<seq<byte>>): (b: seq<byte>) {
    if chunks == [] then [] else chunks[0] + Joined(chunks[1..])
  }

  function Writes(s: Shadow, chunks: seq<seq<byte>>): (t: Shadow)
    decreases |chunks|
  {
    if chunks == [] then s else Writes(s.Write(chunks[0]), chunks[1..])
  }

  lemma {:induction false} WritesNext(s: Shadow, chunks: seq<seq<byte>>, chunk: seq<byte>)
    ensures Writes(s, chunks + [chunk]) == Writes(s, chunks).Write(chunk)
    decreases |chunks|
  {
    if chunks == [] {
      assert chunks + [chunk] == [chunk];
    } else {
      assert (chunks + [chunk])[1..] == chunks[1..] + [chunk];
      WritesNext(s.Write(chunks[0]), chunks[1..], chunk);
    }
  }

  lemma {:induction false} JoinedNext(chunks: seq<seq<byte>>, chunk: seq<byte>)
    ensures Joined(chunks + [chunk]) == Joined(chunks) + chunk
  {
    if chunks == [] {
      assert chunks + [chunk] == [chunk];
    } else {
      assert (chunks + [chunk])[1..] == chunks[1..] + [chunk];
      JoinedNext(chunks[1..], chunk);
    }
  }

  /** A read into the front of a buffer. */
  method Fill(buffer: array<byte>, chunk: seq<byte>)
    requires |chunk| <= buffer.Length
    modifies buffer
    ensures buffer[..|chunk|] == chunk
  {
    var i := 0;
    while i < |chunk|
      invariant 0 <= i <= |chunk| && buffer[..i] == chunk[..i]
    {
      buffer[i] := chunk[i];
      i := i + 1;
    }
  }

  /** io.MultiWriter on one read: the shadow first, then the primary; anything less than all of it is an error. */
  method TeeOne(chunk: seq<byte>, buffer: array<byte>, shadow: ShadowWriter, primary: Writer) returns (failed: bool)
    requires |chunk| <= buffer.Length && buffer !in shadow.queue
    modifies buffer, shadow, primary
    ensures old(primary.sent) <= primary.sent <= old(primary.sent) + chunk
    ensures !failed ==> primary.sent == old(primary.sent) + chunk
    ensures shadow.State() == old(shadow.State()).Write(chunk)
    ensures forall a :: a in shadow.queue ==> a in old(shadow.queue) || fresh(a)
  {
    Fill(buffer, chunk);
    var taken, refused := shadow.Write(buffer, |chunk|);
    var written, broken := primary.Write(buffer[..|chunk|]);
    assert buffer[..|chunk|] == chunk;
    return broken || written != |chunk|;
  }

  /** The client-to-primary copy of mirrorTCP: each read lands in one buffer, used again and again, and goes to the
      shadow and then to the primary. The primary gets the client's bytes in order as far as it takes them, whatever
      the shadow does; and what was queued stays what it was when the buffer is overwritten. */
  method Tee(chunks: seq<seq<byte>>, buffer: array<byte>, shadow: ShadowWriter, primary: Writer)
    returns (done: nat, failed: bool)
    requires forall i :: 0 <= i < |chunks| ==> |chunks[i]| <= buffer.Length
    requires buffer !in shadow.queue
    modifies buffer, shadow, primary
    ensures done <= |chunks| && (!failed ==> done == |chunks|)
    ensures old(primary.sent) <= primary.sent <= old(primary.sent) + Joined(chunks[..done])
    ensures !failed ==> primary.sent == old(primary.sent) + Joined(chunks)
    ensures shadow.State() == Writes(old(shadow.State()), chunks[..done])
  {
    done, failed := 0, false;
    ghost var first, had := primary.sent, shadow.State();
    while done < |chunks| && !failed
      invariant done <= |chunks| && buffer !in shadow.queue
      invariant forall a :: a in shadow.queue ==> a in old(shadow.queue) || fresh(a)
      invariant first <= primary.sent <= first + Joined(chunks[..done])
      invariant !failed ==> primary.sent == first + Joined(chunks[..done])
      invariant shadow.State() == Writes(had, chunks[..done])
      decreases !failed, |chunks| - done
    {
      ghost var sent := primary.sent;
      failed := TeeOne(chunks[done], buffer, shadow, primary);
      ChunkDone(had, chunks, done, first);
      assert sent <= primary.sent <= sent + chunks[done];
      done := done + 1;
    }
    assert done == |chunks| ==> chunks[..done] == chunks;
  }

  lemma ChunkDone(s: Shadow, chunks: seq<seq<byte>>, done: nat, first: seq<byte>)
    requires done < |chunks|
    ensures Writes(s, chunks[..done + 1]) == Writes(s, chunks[..done]).Write(chunks[done])
    ensures first + Joined(chunks[..done + 1]) == first + Joined(chunks[..done]) + chunks[done]
  {
    WritesNext(s, chunks[..done], chunks[done]);
    JoinedNext(chunks[..done], chunks[done]);
    assert chunks[..done + 1] == chunks[..done] + [chunks[done]];
  }
}
