/** The control channel's messages and frames: internal/tunnel/control.go. */
module ControlFrames {
  import opened Wrappers
  import opened Bytes

  const CTRL_REGISTER: byte := 1
  const CTRL_UNREGISTER: byte := 2
  const CTRL_INBOUND_READY: byte := 3
  const CTRL_ACK: byte := 4
  const CTRL_ERROR: byte := 5

  const NETWORK_TCP: byte := 1
  const NETWORK_UDP: byte := 2

  const MAX_ID_SIZE := 256

  /** The largest payload ReadControlMessage accepts. */
  const MAX_READ_SIZE := MAX_HOST_SIZE + MAX_ID_SIZE + 32

  type uint16 = x: int | 0 <= x < 65536
  type uint64 = x: int | 0 <= x < 0x1_0000_0000_0000_0000

  datatype ControlMessage = ControlMessage(
    kind: byte,
    interceptID: seq<byte>,
    network: byte,
    listenPort: uint16,
    streamID: uint64,
    error: seq<byte>)

  datatype CodecError =
    | IdLength
    | BadNetwork
    | PortRequired
    | StreamRequired
    | ErrorRequired
    | BadPayload
    | BadKind
    | MissingLength
    | Truncated
    | TooLarge
    | Eof

  predicate ValidNetwork(network: byte) {
    network == NETWORK_TCP || network == NETWORK_UDP
  }

  predicate ValidId(id: seq<byte>) {
    0 < |id| <= MAX_ID_SIZE
  }

  function LengthPrefixed(text: seq<byte>): (b: seq<byte>) {
    BigEndian(|text|, 2) + text
  }

  function EncodePayload(m: ControlMessage): (r: Result<seq<byte>, CodecError>) {
    if m.kind == CTRL_REGISTER then
      if !ValidId(m.interceptID) then Err(IdLength)
      else if !ValidNetwork(m.network) then Err(BadNetwork)
      else if m.listenPort == 0 then Err(PortRequired)
      else Ok(LengthPrefixed(m.interceptID) + [m.network] + BigEndian(m.listenPort, 2))
    else if m.kind == CTRL_UNREGISTER then
      if !ValidId(m.interceptID) then Err(IdLength)
      else Ok(LengthPrefixed(m.interceptID))
    else if m.kind == CTRL_INBOUND_READY then
      if !ValidId(m.interceptID) then Err(IdLength)
      else if m.streamID == 0 then Err(StreamRequired)
      else if !ValidNetwork(m.network) then Err(BadNetwork)
      else Ok(BigEndian(m.streamID, 8) + LengthPrefixed(m.interceptID) + [m.network])
    else if m.kind == CTRL_ACK then
      Ok([])
    else if m.kind == CTRL_ERROR then
      if m.error == [] then Err(ErrorRequired)
      else if |m.error| > MAX_ERROR_SIZE then Ok(m.error[..MAX_ERROR_SIZE])
      else Ok(m.error)
    else
      Err(BadKind)
  }

  function ReadLengthPrefixed(p: seq<byte>): (r: Result<(seq<byte>, seq<byte>), CodecError>) {
    if |p| < 2 then Err(MissingLength)
    else
      var size := FromBigEndian(p[..2]);
      if size == 0 || size > MAX_ID_SIZE then Err(IdLength)
      else if |p| < 2 + size then Err(Truncated)
      else Ok((p[2..2 + size], p[2 + size..]))
  }

  function DecodePayload(kind: byte, p: seq<byte>): (r: Result<ControlMessage, CodecError>) {
    Widths();
    if kind == CTRL_REGISTER then
      var parsed := ReadLengthPrefixed(p);
      if parsed.Err? then Err(parsed.error)
      else
        var (id, rest) := parsed.value;
        if |rest| != 3 then Err(BadPayload)
        else if !ValidNetwork(rest[0]) then Err(BadNetwork)
        else if FromBigEndian(rest[1..3]) == 0 then Err(PortRequired)
        else Ok(ControlMessage(kind, id, rest[0], FromBigEndian(rest[1..3]), 0, []))
    else if kind == CTRL_UNREGISTER then
      var parsed := ReadLengthPrefixed(p);
      if parsed.Err? then Err(parsed.error)
      else
        var (id, rest) := parsed.value;
        if |rest| != 0 then Err(BadPayload)
        else Ok(ControlMessage(kind, id, 0, 0, 0, []))
    else if kind == CTRL_INBOUND_READY then
      if |p| < 11 then Err(BadPayload)
      else
        var stream := FromBigEndian(p[..8]);
        var parsed := ReadLengthPrefixed(p[8..]);
        if parsed.Err? then Err(parsed.error)
        else
          var (id, rest) := parsed.value;
          if |rest| != 1 then Err(BadPayload)
          else if stream == 0 then Err(StreamRequired)
          else if !ValidNetwork(rest[0]) then Err(BadNetwork)
          else Ok(ControlMessage(kind, id, rest[0], 0, stream, []))
    else if kind == CTRL_ACK then
      if |p| != 0 then Err(BadPayload) else Ok(ControlMessage(kind, [], 0, 0, 0, []))
    else if kind == CTRL_ERROR then
      if |p| == 0 then Err(ErrorRequired) else Ok(ControlMessage(kind, [], 0, 0, 0, p))
    else
      Err(BadKind)
  }

  /** What a message says: the fields its kind carries, with an over-long error text cut. */
  function Meaning(m: ControlMessage): (c: ControlMessage) {
    if m.kind == CTRL_REGISTER then m.(streamID := 0, error := [])
    else if m.kind == CTRL_UNREGISTER then m.(network := 0, listenPort := 0, streamID := 0, error := [])
    else if m.kind == CTRL_INBOUND_READY then m.(listenPort := 0, error := [])
    else if m.kind == CTRL_ERROR then
      ControlMessage(m.kind, [], 0, 0, 0, if |m.error| > MAX_ERROR_SIZE then m.error[..MAX_ERROR_SIZE] else m.error)
    else ControlMessage(m.kind, [], 0, 0, 0, [])
  }

  lemma LengthPrefixedReads(id: seq<byte>, rest: seq<byte>)
    requires ValidId(id)
    ensures ReadLengthPrefixed(LengthPrefixed(id) + rest) == Ok((id, rest))
  {
    Widths();
    BigEndianReads(|id|, 2);
    var p := LengthPrefixed(id) + rest;
    assert p[..2] == BigEndian(|id|, 2);
    assert p[2..2 + |id|] == id && p[2 + |id|..] == rest;
  }

  lemma LengthPrefixedExact(p: seq<byte>)
    requires ReadLengthPrefixed(p).Ok?
    ensures var (id, rest) := ReadLengthPrefixed(p).value;
            ValidId(id) && p == LengthPrefixed(id) + rest
  {
    BigEndianWrites(p[..2]);
    var (id, rest) := ReadLengthPrefixed(p).value;
    assert p == p[..2] + id + rest;
  }

  /** Decoding an encoded payload gives back what the message says. */
  lemma DecodeInvertsEncode(m: ControlMessage)
    requires EncodePayload(m).Ok?
    ensures DecodePayload(m.kind, EncodePayload(m).value) == Ok(Meaning(m))
  {
    Widths();
    var p := EncodePayload(m).value;
    if m.kind == CTRL_REGISTER {
      var rest := [m.network] + BigEndian(m.listenPort, 2);
      assert p == LengthPrefixed(m.interceptID) + rest;
      LengthPrefixedReads(m.interceptID, rest);
      assert rest[1..3] == BigEndian(m.listenPort, 2);
      BigEndianReads(m.listenPort, 2);
    } else if m.kind == CTRL_UNREGISTER {
      assert p == LengthPrefixed(m.interceptID) + [];
      LengthPrefixedReads(m.interceptID, []);
    } else if m.kind == CTRL_INBOUND_READY {
      assert p[..8] == BigEndian(m.streamID, 8);
      assert p[8..] == LengthPrefixed(m.interceptID) + [m.network];
      BigEndianReads(m.streamID, 8);
      LengthPrefixedReads(m.interceptID, [m.network]);
    }
  }

  lemma RegisterExact(p: seq<byte>)
    requires DecodePayload(CTRL_REGISTER, p).Ok?
    ensures EncodePayload(DecodePayload(CTRL_REGISTER, p).value) == Ok(p)
  {
    Widths();
    LengthPrefixedExact(p);
    var (id, rest) := ReadLengthPrefixed(p).value;
    assert |rest| == 3;
    BigEndianWrites(rest[1..3]);
    assert LengthPrefixed(id) + rest == LengthPrefixed(id) + [rest[0]] + rest[1..3];
  }

  lemma UnregisterExact(p: seq<byte>)
    requires DecodePayload(CTRL_UNREGISTER, p).Ok?
    ensures EncodePayload(DecodePayload(CTRL_UNREGISTER, p).value) == Ok(p)
  {
    LengthPrefixedExact(p);
    var (id, rest) := ReadLengthPrefixed(p).value;
    assert p == LengthPrefixed(id);
  }

  lemma InboundReadyExact(p: seq<byte>)
    requires DecodePayload(CTRL_INBOUND_READY, p).Ok?
    ensures EncodePayload(DecodePayload(CTRL_INBOUND_READY, p).value) == Ok(p)
  {
    Widths();
    LengthPrefixedExact(p[8..]);
    BigEndianWrites(p[..8]);
    var (id, rest) := ReadLengthPrefixed(p[8..]).value;
    assert p == p[..8] + p[8..];
    assert rest == [rest[0]];
    assert p == p[..8] + LengthPrefixed(id) + [rest[0]];
  }

  /** A payload that decodes has exactly one encoding: itself. Only an error text over 4096 bytes would be
      cut, so that is the one payload the encoder does not give back. */
  lemma EncodeInvertsDecode(kind: byte, p: seq<byte>)
    requires DecodePayload(kind, p).Ok?
    ensures var m := DecodePayload(kind, p).value;
            m.kind == kind
            && ((EncodePayload(m) == Ok(p) && Meaning(m) == m) <==> (kind != CTRL_ERROR || |p| <= MAX_ERROR_SIZE))
  {
    if kind == CTRL_REGISTER {
      RegisterExact(p);
    } else if kind == CTRL_UNREGISTER {
      UnregisterExact(p);
    } else if kind == CTRL_INBOUND_READY {
      InboundReadyExact(p);
    }
  }

  /** The bytes WriteControlMessage puts on the connection. */
  function Frame(m: ControlMessage): (f: seq<byte>)
    requires EncodePayload(m).Ok?
  {
    [m.kind] + LengthPrefixed(EncodePayload(m).value)
  }

  /** ReadControlMessage on the bytes still to come: the message and the bytes left. */
  function ReadFrame(b: seq<byte>): (r: Result<(ControlMessage, seq<byte>), CodecError>) {
    if |b| < 3 then Err(Eof)
    else
      var size := FromBigEndian(b[1..3]);
      if size > MAX_READ_SIZE then Err(TooLarge)
      else if |b| < 3 + size then Err(Eof)
      else
        var decoded := DecodePayload(b[0], b[3..3 + size]);
        if decoded.Err? then Err(decoded.error) else Ok((decoded.value, b[3 + size..]))
  }

  /** A message both ends can carry: the writer encodes it and the reader's size limit admits it. */
  predicate Carried(m: ControlMessage) {
    EncodePayload(m).Ok? && |EncodePayload(m).value| <= MAX_READ_SIZE
  }

  predicate AllCarried(ms: seq<ControlMessage>) {
    forall i :: 0 <= i < |ms| ==> Carried(ms[i])
  }

  lemma PayloadSizes(m: ControlMessage)
    requires EncodePayload(m).Ok?
    ensures |EncodePayload(m).value| <= MAX_ERROR_SIZE
    ensures m.kind != CTRL_ERROR ==> |EncodePayload(m).value| <= 11 + MAX_ID_SIZE
    ensures Carried(m) <==> m.kind != CTRL_ERROR || |m.error| <= MAX_READ_SIZE
  {
  }

  /** What the reader makes of any written frame: the message and the tail, or a size error that is the
      reader's limit being below the writer's. The error messages of 1313 bytes and more are that gap. */
  lemma ReadFrameInvertsFrame(m: ControlMessage, tail: seq<byte>)
    requires EncodePayload(m).Ok?
    ensures ReadFrame(Frame(m) + tail)
         == if m.kind == CTRL_ERROR && |m.error| > MAX_READ_SIZE then Err(TooLarge) else Ok((Meaning(m), tail))
  {
    Widths();
    PayloadSizes(m);
    var p := EncodePayload(m).value;
    var b := Frame(m) + tail;
    BigEndianReads(|p|, 2);
    assert b[1..3] == BigEndian(|p|, 2);
    assert b[0] == m.kind;
    if |p| <= MAX_READ_SIZE {
      assert b[3..3 + |p|] == p && b[3 + |p|..] == tail;
      DecodeInvertsEncode(m);
    }
  }

  lemma FrameSlices(b: seq<byte>, size: nat)
    requires |b| >= 3 + size
    ensures b == [b[0]] + (b[1..3] + b[3..3 + size]) + b[3 + size..]
  {
  }

  /** The reader accepts nothing the writer would not have written, and consumes exactly that. */
  lemma ReadFrameExact(b: seq<byte>)
    requires ReadFrame(b).Ok?
    ensures var (m, tail) := ReadFrame(b).value;
            Carried(m) && Meaning(m) == m && b == Frame(m) + tail
  {
    var size := FromBigEndian(b[1..3]);
    var p := b[3..3 + size];
    var m := ReadFrame(b).value.0;
    assert DecodePayload(b[0], p) == Ok(m);
    EncodeInvertsDecode(b[0], p);
    assert Frame(m) == [b[0]] + (b[1..3] + p) by {
      BigEndianWrites(b[1..3]);
    }
    FrameSlices(b, size);
  }

  /** A peer's read loop: messages until the bytes run out or one is refused. */
  function ReadAll(b: seq<byte>): (r: (seq<ControlMessage>, seq<byte>))
    decreases |b|
  {
    var one := ReadFrame(b);
    if one.Err? then ([], b)
    else
      var rest := ReadAll(one.value.1);
      ([one.value.0] + rest.0, rest.1)
  }

  lemma ReadAllStep(m: ControlMessage, tail: seq<byte>)
    requires Carried(m)
    ensures ReadAll(Frame(m) + tail) == ([Meaning(m)] + ReadAll(tail).0, ReadAll(tail).1)
  {
    PayloadSizes(m);
    ReadFrameInvertsFrame(m, tail);
  }

  function Frames(ms: seq<ControlMessage>): (b: seq<byte>)
    requires forall i :: 0 <= i < |ms| ==> EncodePayload(ms[i]).Ok?
  {
    if ms == [] then [] else Frame(ms[0]) + Frames(ms[1..])
  }

  function Meanings(ms: seq<ControlMessage>): (r: seq<ControlMessage>)
    ensures |r| == |ms| && forall i :: 0 <= i < |ms| ==> r[i] == Meaning(ms[i])
  {
    if ms == [] then [] else [Meaning(ms[0])] + Meanings(ms[1..])
  }

  /** Reading a concatenation of frames gives the messages in order; what follows them, whether it reads
      further or not, is read exactly as if it stood alone. */
  lemma {:induction false} ReadAllInvertsFrames(ms: seq<ControlMessage>, tail: seq<byte>)
    requires AllCarried(ms)
    ensures ReadAll(Frames(ms) + tail) == (Meanings(ms) + ReadAll(tail).0, ReadAll(tail).1)
  {
    if ms == [] {
      assert Frames(ms) + tail == tail;
      assert Meanings(ms) + ReadAll(tail).0 == ReadAll(tail).0;
    } else {
      FramesSplit(ms, tail);
      ReadAllStep(ms[0], Frames(ms[1..]) + tail);
      ReadAllInvertsFrames(ms[1..], tail);
      MeaningsSplit(ms, ReadAll(tail).0);
    }
  }

  lemma FramesSplit(ms: seq<ControlMessage>, tail: seq<byte>)
    requires AllCarried(ms) && ms != []
    ensures Frames(ms) + tail == Frame(ms[0]) + (Frames(ms[1..]) + tail)
  {
  }

  lemma MeaningsSplit(ms: seq<ControlMessage>, more: seq<ControlMessage>)
    requires ms != []
    ensures Meanings(ms) + more == [Meaning(ms[0])] + (Meanings(ms[1..]) + more)
  {
  }

  /** Two message lists with the same bytes say the same: a frame boundary cannot be misread. */
  lemma FramesInjective(a: seq<ControlMessage>, b: seq<ControlMessage>)
    requires AllCarried(a)
    requires AllCarried(b)
    requires Frames(a) == Frames(b)
    ensures Meanings(a) == Meanings(b)
  {
    ReadAllInvertsFrames(a, []);
    ReadAllInvertsFrames(b, []);
    assert Frames(a) + [] == Frames(b) + [];
    assert Meanings(a) + [] == Meanings(a) && Meanings(b) + [] == Meanings(b);
  }

  /** A refused frame stops the read loop: an over-long error message hides every message written after it. */
  lemma OversizedErrorHidesRest(ms: seq<ControlMessage>, bad: ControlMessage, after: seq<byte>)
    requires AllCarried(ms)
    requires EncodePayload(bad).Ok? && !Carried(bad)
    ensures ReadAll(Frames(ms) + (Frame(bad) + after)) == (Meanings(ms), Frame(bad) + after)
  {
    PayloadSizes(bad);
    ReadFrameInvertsFrame(bad, after);
    ReadAllInvertsFrames(ms, Frame(bad) + after);
    assert Meanings(ms) + [] == Meanings(ms);
  }

  // ---- the bytes, by example ----

  lemma Framed(m: ControlMessage, p: seq<byte>)
    requires EncodePayload(m) == Ok(p) && |p| < 256
    ensures Frame(m) == [m.kind, 0, |p|] + p
  {
    MostSignificantFirst(|p|);
  }

  /** Register "web" for TCP on port 8080; unregister it; a stream 7 for it; an acknowledgement; an error "no". */
  lemma FrameBytes()
    ensures MAX_ID_SIZE == 256 && MAX_ERROR_SIZE == 4096 && MAX_READ_SIZE == 1312
    ensures EncodePayload(ControlMessage(1, [119, 101, 98], 1, 8080, 0, [])).Ok?
    ensures Frame(ControlMessage(1, [119, 101, 98], 1, 8080, 0, [])) == [1, 0, 8, 0, 3, 119, 101, 98, 1, 0x1F, 0x90]
    ensures EncodePayload(ControlMessage(2, [119], 0, 0, 0, [])).Ok?
    ensures Frame(ControlMessage(2, [119], 0, 0, 0, [])) == [2, 0, 3, 0, 1, 119]
    ensures EncodePayload(ControlMessage(3, [119], 2, 0, 7, [])).Ok?
    ensures Frame(ControlMessage(3, [119], 2, 0, 7, [])) == [3, 0, 12, 0, 0, 0, 0, 0, 0, 0, 7, 0, 1, 119, 2]
    ensures EncodePayload(ControlMessage(4, [], 0, 0, 0, [])).Ok?
    ensures Frame(ControlMessage(4, [], 0, 0, 0, [])) == [4, 0, 0]
    ensures EncodePayload(ControlMessage(5, [], 0, 0, 0, [110, 111])).Ok?
    ensures Frame(ControlMessage(5, [], 0, 0, 0, [110, 111])) == [5, 0, 2, 110, 111]
  {
    RegisterBytes();
    OtherBytes();
  }

  lemma RegisterBytes()
    ensures EncodePayload(ControlMessage(1, [119, 101, 98], 1, 8080, 0, [])).Ok?
    ensures Frame(ControlMessage(1, [119, 101, 98], 1, 8080, 0, [])) == [1, 0, 8, 0, 3, 119, 101, 98, 1, 0x1F, 0x90]
  {
    MostSignificantFirst(3);
    MostSignificantFirst(8080);
    var m := ControlMessage(1, [119, 101, 98], 1, 8080, 0, []);
    assert EncodePayload(m) == Ok([0, 3] + [119, 101, 98] + [1] + [0x1F, 0x90]);
    assert [0, 3] + [119, 101, 98] + [1] + [0x1F, 0x90] == [0, 3, 119, 101, 98, 1, 0x1F, 0x90];
    Framed(m, [0, 3, 119, 101, 98, 1, 0x1F, 0x90]);
  }

  lemma OtherBytes()
    ensures EncodePayload(ControlMessage(2, [119], 0, 0, 0, [])).Ok?
    ensures Frame(ControlMessage(2, [119], 0, 0, 0, [])) == [2, 0, 3, 0, 1, 119]
    ensures EncodePayload(ControlMessage(3, [119], 2, 0, 7, [])).Ok?
    ensures Frame(ControlMessage(3, [119], 2, 0, 7, [])) == [3, 0, 12, 0, 0, 0, 0, 0, 0, 0, 7, 0, 1, 119, 2]
    ensures EncodePayload(ControlMessage(4, [], 0, 0, 0, [])).Ok?
    ensures Frame(ControlMessage(4, [], 0, 0, 0, [])) == [4, 0, 0]
    ensures EncodePayload(ControlMessage(5, [], 0, 0, 0, [110, 111])).Ok?
    ensures Frame(ControlMessage(5, [], 0, 0, 0, [110, 111])) == [5, 0, 2, 110, 111]
  {
    MostSignificantFirst(1);
    MostSignificantFirst(7);
    var u, r := ControlMessage(2, [119], 0, 0, 0, []), ControlMessage(3, [119], 2, 0, 7, []);
    assert EncodePayload(u) == Ok([0, 1] + [119]);
    assert [0, 1] + [119] == [0, 1, 119];
    Framed(u, [0, 1, 119]);
    assert EncodePayload(r) == Ok([0, 0, 0, 0, 0, 0, 0, 7] + ([0, 1] + [119]) + [2]);
    assert [0, 0, 0, 0, 0, 0, 0, 7] + ([0, 1] + [119]) + [2] == [0, 0, 0, 0, 0, 0, 0, 7, 0, 1, 119, 2];
    Framed(r, [0, 0, 0, 0, 0, 0, 0, 7, 0, 1, 119, 2]);
    Framed(ControlMessage(4, [], 0, 0, 0, []), []);
    Framed(ControlMessage(5, [], 0, 0, 0, [110, 111]), [110, 111]);
  }
}
