/** The two ends of a connection, as the wire code uses them. A write may be short or fail; a read fails when
    the stream ends before the bytes asked for. */
module Streams {
  import opened Wrappers
  import opened Bytes

  datatype StreamError = Failed | ShortWrite | UnexpectedEof

  class Writer {
    var sent: seq<byte>

    constructor ()
      ensures sent == []
    {
      sent := [];
    }

    /** The io.Writer under the wire code: it takes some prefix, and may report a failure as well. */
    method Write(value: seq<byte>) returns (written: nat, failed: bool)
      modifies this
      ensures written <= |value|
      ensures sent == old(sent) + value[..written]
    {
      var n: nat :| n <= |value|;
      written := n;
      failed := *;
      sent := sent + value[..written];
    }
  }

  /** writeAll: success means every byte went out once, in order, however the writes were cut; a failure leaves
      a prefix behind. */
  method WriteAll(w: Writer, value: seq<byte>) returns (err: Option<StreamError>)
    modifies w
    ensures old(w.sent) <= w.sent <= old(w.sent) + value
    ensures err.None? ==> w.sent == old(w.sent) + value
  {
    var remaining := value;
    while |remaining| > 0
      invariant old(w.sent) <= w.sent
      invariant w.sent + remaining == old(w.sent) + value
    {
      var written, failed := w.Write(remaining);
      assert w.sent + remaining[written..] == old(w.sent) + value by {
        assert remaining == remaining[..written] + remaining[written..];
      }
      if failed {
        return Some(Failed);
      }
      if written == 0 {
        return Some(ShortWrite);
      }
      remaining := remaining[written..];
    }
    assert w.sent == w.sent + remaining;
    return None;
  }

  class Reader {
    var rest: seq<byte>

    constructor (stream: seq<byte>)
      ensures rest == stream
    {
      rest := stream;
    }

    /** io.ReadFull into a new buffer. */
    method ReadFull(n: nat) returns (r: Result<seq<byte>, StreamError>)
      modifies this
      ensures n <= |old(rest)| ==> r == Ok(old(rest)[..n]) && rest == old(rest)[n..]
      ensures n > |old(rest)| ==> r == Err(UnexpectedEof)
    {
      if n > |rest| {
        rest := [];
        return Err(UnexpectedEof);
      }
      r := Ok(rest[..n]);
      rest := rest[n..];
    }

    /** io.ReadFull over the first n places of a buffer the caller owns. */
    method ReadInto(buffer: array<byte>, n: nat) returns (ok: bool)
      requires n <= buffer.Length
      modifies this, buffer
      ensures ok == (n <= |old(rest)|)
      ensures ok ==> buffer[..n] == old(rest)[..n] && rest == old(rest)[n..]
    {
      var data := ReadFull(n);
      if data.Err? {
        return false;
      }
      forall i | 0 <= i < n {
        buffer[i] := data.value[i];
      }
      return true;
    }
  }
}
