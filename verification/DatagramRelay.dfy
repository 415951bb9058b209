/** ReadDatagram's reused buffer and the relay loops built on it: internal/tunnel/protocol.go and
    internal/gateway/server.go. */
module DatagramRelay {
  import opened Wrappers
  import opened Bytes
  import opened Streams
  import opened TunnelFrames

  /** ReadDatagram: the caller's buffer is filled when it is large enough, and replaced when it is not. */
  method ReadDatagram(r: Reader, buffer: array<byte>)
    returns (err: Option<TunnelError>, payload: array<byte>, size: nat)
    modifies r, buffer
    ensures payload == buffer || fresh(payload)
    ensures size <= payload.Length
    ensures match ReadDatagramBytes(old(r.rest))
            case Ok(pair) => err == None && payload[..size] == pair.0 && r.rest == pair.1
            case Err(e) => err == Some(e)
  {
    payload, size := buffer, 0;
    ghost var all := r.rest;
    var prefix := r.ReadFull(2);
    if prefix.Err? {
      return Some(Eof), payload, size;
    }
    assert prefix.value == all[..2];
    var length := FromBigEndian(prefix.value);
    if length == 0 || length > MAX_DATAGRAM_SIZE {
      return Some(DatagramSize), payload, size;
    }
    if payload.Length < length {
      payload := new byte[length](i => 0);
    }
    var ok := r.ReadInto(payload, length);
    if !ok {
      return Some(Eof), payload, size;
    }
    assert all[2..][..length] == all[2..2 + length];
    return None, payload, length;
  }

  /** The socket datagrams are forwarded to; it takes the bytes the slice holds at the call. */
  class PacketSink {
    var packets: seq<seq<byte>>

    constructor ()
      ensures packets == []
    {
      packets := [];
    }

    method Write(payload: array<byte>, size: nat) returns (failed: bool)
      requires size <= payload.Length
      modifies this
      ensures packets == if failed then old(packets) else old(packets) + [payload[..size]]
    {
      failed := *;
      if !failed {
        packets := packets + [payload[..size]];
      }
    }
  }

  datatype Step = Forwarded | Ended | Refused

  /** One turn of the relay loop: the first datagram of the stream is read into the buffer and written out. */
  method Forward(r: Reader, buffer: array<byte>, target: PacketSink) returns (step: Step, next: array<byte>)
    modifies r, buffer, target
    ensures next == buffer || fresh(next)
    ensures step.Ended? ==> ReadDatagrams(old(r.rest)) == [] && target.packets == old(target.packets)
    ensures step.Refused? ==> target.packets == old(target.packets)
    ensures step.Forwarded? ==>
              && |r.rest| < |old(r.rest)| && ReadDatagrams(old(r.rest)) != []
              && target.packets == old(target.packets) + [ReadDatagrams(old(r.rest))[0]]
              && ReadDatagrams(r.rest) == ReadDatagrams(old(r.rest))[1..]
  {
    var err, payload, size := ReadDatagram(r, buffer);
    if err.Some? {
      return Ended, payload;
    }
    var failed := target.Write(payload, size);
    return if failed then Refused else Forwarded, payload;
  }

  /** The relay loop: one buffer carries every datagram, yet each arrives unchanged, once and in order, until
      the stream ends or the target fails. */
  method Relay(r: Reader, target: PacketSink) returns (failed: bool)
    modifies r, target
    ensures old(target.packets) <= target.packets <= old(target.packets) + ReadDatagrams(old(r.rest))
    ensures !failed ==> target.packets == old(target.packets) + ReadDatagrams(old(r.rest))
  {
    ghost var all, first := ReadDatagrams(r.rest), target.packets;
    ghost var done := 0;
    var buffer := new byte[0];
    while true
      invariant fresh(buffer)
      invariant done <= |all| && ReadDatagrams(r.rest) == all[done..]
      invariant target.packets == first + all[..done]
      decreases |r.rest|
    {
      var step;
      step, buffer := Forward(r, buffer, target);
      if !step.Forwarded? {
        return step.Refused?;
      }
      assert all[..done + 1] == all[..done] + [all[done]];
      done := done + 1;
    }
  }

  /** A sender's datagrams through a relay that meets no failure are the datagrams sent. */
  method RelayStream(ps: seq<seq<byte>>, target: PacketSink) returns (failed: bool)
    requires forall i :: 0 <= i < |ps| ==> ValidDatagram(ps[i])
    modifies target
    ensures old(target.packets) <= target.packets <= old(target.packets) + ps
    ensures !failed ==> target.packets == old(target.packets) + ps
  {
    ReadInvertsDatagrams(ps, []);
    assert DatagramStream(ps) + [] == DatagramStream(ps);
    assert ps + ReadDatagrams([]) == ps;
    var r := new Reader(DatagramStream(ps));
    failed := Relay(r, target);
  }
}
