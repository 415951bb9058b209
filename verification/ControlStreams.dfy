/** WriteControlMessage and ReadControlMessage over a connection: internal/tunnel/control.go. */
module ControlStreams {
  import opened Wrappers
  import opened Bytes
  import opened Streams
  import opened ControlFrames

  datatype WriteOutcome = Written | Refused(codec: CodecError) | Broken(stream: StreamError)

  /** A refused message leaves the connection untouched, and a written one adds exactly its frame. */
  method WriteControlMessage(w: Writer, m: ControlMessage) returns (outcome: WriteOutcome)
    modifies w
    ensures EncodePayload(m).Err? <==> outcome.Refused?
    ensures outcome.Refused? ==> outcome.codec == EncodePayload(m).error && w.sent == old(w.sent)
    ensures outcome.Written? ==> w.sent == old(w.sent) + Frame(m)
    ensures outcome.Broken? ==> old(w.sent) <= w.sent <= old(w.sent) + Frame(m)
  {
    var payload := EncodePayload(m);
    if payload.Err? {
      return Refused(payload.error);
    }
    var header := [m.kind] + BigEndian(|payload.value|, 2);
    assert header + payload.value == Frame(m);
    assert old(w.sent) + Frame(m) == old(w.sent) + header + payload.value;
    var err := WriteAll(w, header);
    if err.Some? {
      return Broken(err.value);
    }
    err := WriteAll(w, payload.value);
    if err.Some? {
      return Broken(err.value);
    }
    return Written;
  }

  /** What is read is what the bytes say, and nothing beyond the frame is consumed. */
  method ReadControlMessage(r: Reader) returns (result: Result<ControlMessage, CodecError>)
    modifies r
    ensures var parsed := ReadFrame(old(r.rest));
            match parsed
            case Ok(pair) => result == Ok(pair.0) && r.rest == pair.1
            case Err(e) => result == Err(e)
  {
    ghost var all := r.rest;
    var header := r.ReadFull(3);
    if header.Err? {
      return Err(Eof);
    }
    assert header.value[1..3] == all[1..3];
    var size := FromBigEndian(header.value[1..3]);
    if size > MAX_READ_SIZE {
      return Err(TooLarge);
    }
    var payload: seq<byte> := [];
    if size > 0 {
      var body := r.ReadFull(size);
      if body.Err? {
        return Err(Eof);
      }
      payload := body.value;
    }
    assert payload == all[3..3 + size] && r.rest == all[3 + size..];
    return DecodePayload(header.value[0], payload);
  }
}
