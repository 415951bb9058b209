/** Session greetings, statuses and datagrams of the tunnel: internal/tunnel/protocol.go. */
module TunnelFrames {
  import opened Wrappers
  import opened Bytes

  const COMMAND_TCP: byte := 1
  const COMMAND_UDP: byte := 2
  const COMMAND_CONTROL: byte := 3
  const COMMAND_ACCEPT: byte := 4

  const STATUS_OK: byte := 0
  const STATUS_ERROR: byte := 1

  const MAX_DATAGRAM_SIZE := 65507

  const MAGIC: seq<byte> := [0x4B, 0x43, 0x47, 2]
  const TOKEN_SIZE := 32
  const HALF_TOKEN: seq<byte> := [0, 0, 0, 0, 0, 0, 0, 0, 0, 0, 0, 0, 0, 0, 0, 0]
  const NO_TOKEN: seq<byte> := HALF_TOKEN + HALF_TOKEN

  type Token = t: seq<byte> | |t| == TOKEN_SIZE witness HALF_TOKEN + HALF_TOKEN

  datatype TunnelError =
    | BadCommand
    | HostLength
    | PortRequired
    | TokenRequired
    | BadMagic
    | DatagramSize
    | ErrorTooLarge
    | BadStatus
    | Eof

  /** What a connection to the Gateway opens with, by command. */
  datatype Greeting =
    | Open(command: byte, host: seq<byte>, port: int)
    | Control
    | Accept(streamID: int)

  predicate InRange(g: Greeting) {
    (g.Open? ==> 0 <= g.port < 65536) && (g.Accept? ==> 0 <= g.streamID < 0x1_0000_0000_0000_0000)
  }

  function SessionHeader(command: byte, token: Token): (r: Result<seq<byte>, TunnelError>) {
    if token == NO_TOKEN then Err(TokenRequired) else Ok(MAGIC + [command] + token)
  }

  /** WriteOpen, WriteControlSession and WriteAccept: the bytes of one greeting. */
  function GreetingBytes(g: Greeting, token: Token): (r: Result<seq<byte>, TunnelError>)
    requires InRange(g)
  {
    match g
    case Open(command, host, port) =>
      if command != COMMAND_TCP && command != COMMAND_UDP then Err(BadCommand)
      else if host == [] || |host| > MAX_HOST_SIZE then Err(HostLength)
      else if port == 0 then Err(PortRequired)
      else
        var header := SessionHeader(command, token);
        if header.Err? then header else Ok(header.value + BigEndian(|host|, 2) + host + BigEndian(port, 2))
    case Control =>
      SessionHeader(COMMAND_CONTROL, token)
    case Accept(streamID) =>
      var header := SessionHeader(COMMAND_ACCEPT, token);
      if header.Err? then header else Ok(header.value + BigEndian(streamID, 8))
  }

  function ReadSessionHeader(b: seq<byte>): (r: Result<(byte, Token, seq<byte>), TunnelError>) {
    if |b| < 5 + TOKEN_SIZE then Err(Eof)
    else if b[..4] != MAGIC then Err(BadMagic)
    else if b[5..5 + TOKEN_SIZE] == NO_TOKEN then Err(TokenRequired)
    else Ok((b[4], b[5..5 + TOKEN_SIZE], b[5 + TOKEN_SIZE..]))
  }

  function ReadOpenBody(b: seq<byte>, command: byte): (r: Result<(Greeting, seq<byte>), TunnelError>) {
    if command != COMMAND_TCP && command != COMMAND_UDP then Err(BadCommand)
    else if |b| < 2 then Err(Eof)
    else
      var size := FromBigEndian(b[..2]);
      if size == 0 || size > MAX_HOST_SIZE then Err(HostLength)
      else if |b| < 2 + size + 2 then Err(Eof)
      else
        var port := FromBigEndian(b[2 + size..2 + size + 2]);
        if port == 0 then Err(PortRequired)
        else Ok((Open(command, b[2..2 + size], port), b[2 + size + 2..]))
  }

  /** The Gateway's dispatch on a new connection: the header, then the body its command asks for. */
  function ReadGreeting(b: seq<byte>): (r: Result<(Greeting, Token, seq<byte>), TunnelError>) {
    var header := ReadSessionHeader(b);
    if header.Err? then Err(header.error)
    else
      var (command, token, rest) := header.value;
      if command == COMMAND_TCP || command == COMMAND_UDP then
        var body := ReadOpenBody(rest, command);
        if body.Err? then Err(body.error) else Ok((body.value.0, token, body.value.1))
      else if command == COMMAND_CONTROL then
        Ok((Control, token, rest))
      else if command == COMMAND_ACCEPT then
        if |rest| < 8 then Err(Eof) else Ok((Accept(FromBigEndian(rest[..8])), token, rest[8..]))
      else
        Err(BadCommand)
  }

  lemma HeaderReads(command: byte, token: Token, tail: seq<byte>)
    requires token != NO_TOKEN
    ensures ReadSessionHeader(MAGIC + [command] + token + tail) == Ok((command, token, tail))
  {
    var b := MAGIC + [command] + token + tail;
    assert b[..4] == MAGIC && b[4] == command;
    assert b[5..5 + TOKEN_SIZE] == token && b[5 + TOKEN_SIZE..] == tail;
  }

  lemma HeaderExact(b: seq<byte>)
    requires ReadSessionHeader(b).Ok?
    ensures var (command, token, rest) := ReadSessionHeader(b).value;
            token != NO_TOKEN && b == MAGIC + [command] + token + rest
  {
    assert b == b[..4] + [b[4]] + b[5..5 + TOKEN_SIZE] + b[5 + TOKEN_SIZE..];
  }

  lemma OpenBodyReads(command: byte, size: seq<byte>, host: seq<byte>, number: seq<byte>, tail: seq<byte>)
    requires command == COMMAND_TCP || command == COMMAND_UDP
    requires |size| == 2 && FromBigEndian(size) == |host| && 0 < |host| <= MAX_HOST_SIZE
    requires |number| == 2 && FromBigEndian(number) > 0
    ensures ReadOpenBody(size + host + number + tail, command)
         == Ok((Open(command, host, FromBigEndian(number)), tail))
  {
    BodySliced(size, host, number, tail);
  }

  lemma BodySliced(size: seq<byte>, host: seq<byte>, number: seq<byte>, tail: seq<byte>)
    requires |size| == 2 && |number| == 2
    ensures var b, n := size + host + number + tail, |host|;
            b[..2] == size && b[2..2 + n] == host && b[2 + n..2 + n + 2] == number && b[2 + n + 2..] == tail
  {
    Sliced(size, host, number + tail);
    assert size + host + number + tail == size + host + (number + tail);
    Sliced(size + host, number, tail);
  }

  lemma ReadInvertsOpen(command: byte, host: seq<byte>, port: nat, token: Token, tail: seq<byte>)
    requires InRange(Open(command, host, port)) && GreetingBytes(Open(command, host, port), token).Ok?
    ensures ReadGreeting(GreetingBytes(Open(command, host, port), token).value + tail)
         == Ok((Open(command, host, port), token, tail))
  {
    var size, number := BigEndian(|host|, 2), BigEndian(port, 2);
    var body := size + host + number + tail;
    assert GreetingBytes(Open(command, host, port), token).value + tail == MAGIC + [command] + token + body;
    HeaderReads(command, token, body);
    ReadsBack(|host|);
    ReadsBack(port);
    OpenBodyReads(command, size, host, number, tail);
  }

  lemma ReadInvertsAccept(streamID: nat, token: Token, tail: seq<byte>)
    requires InRange(Accept(streamID)) && GreetingBytes(Accept(streamID), token).Ok?
    ensures ReadGreeting(GreetingBytes(Accept(streamID), token).value + tail) == Ok((Accept(streamID), token, tail))
  {
    var id := BigEndian(streamID, 8);
    assert GreetingBytes(Accept(streamID), token).value + tail == MAGIC + [COMMAND_ACCEPT] + token + (id + tail);
    HeaderReads(COMMAND_ACCEPT, token, id + tail);
    assert (id + tail)[..8] == id && (id + tail)[8..] == tail;
    ReadsBack(streamID);
  }

  /** Every greeting that can be written is read back, token and tail included. */
  lemma ReadInvertsGreeting(g: Greeting, token: Token, tail: seq<byte>)
    requires InRange(g)
    requires GreetingBytes(g, token).Ok?
    ensures ReadGreeting(GreetingBytes(g, token).value + tail) == Ok((g, token, tail))
  {
    match g
    case Open(command, host, port) => ReadInvertsOpen(command, host, port, token, tail);
    case Control => HeaderReads(COMMAND_CONTROL, token, tail);
    case Accept(streamID) => ReadInvertsAccept(streamID, token, tail);
  }

  lemma OpenBodyExact(b: seq<byte>, command: byte)
    requires ReadOpenBody(b, command).Ok?
    ensures var (g, tail) := ReadOpenBody(b, command).value;
            g.Open? && g.command == command && 0 < |g.host| <= MAX_HOST_SIZE && 0 < g.port < 65536
            && b == BigEndian(|g.host|, 2) + g.host + BigEndian(g.port, 2) + tail
  {
    Widths();
    var size := FromBigEndian(b[..2]);
    BigEndianWrites(b[..2]);
    BigEndianWrites(b[2 + size..2 + size + 2]);
    assert b == b[..2] + b[2..2 + size] + b[2 + size..2 + size + 2] + b[2 + size + 2..];
  }

  /** The Gateway accepts only bytes some client writer produces, and consumes exactly those. */
  lemma ReadGreetingExact(b: seq<byte>)
    requires ReadGreeting(b).Ok?
    ensures var (g, token, tail) := ReadGreeting(b).value;
            InRange(g) && GreetingBytes(g, token).Ok? && b == GreetingBytes(g, token).value + tail
  {
    HeaderExact(b);
    var (command, token, rest) := ReadSessionHeader(b).value;
    var header := MAGIC + [command] + token;
    if command == COMMAND_TCP || command == COMMAND_UDP {
      OpenBodyExact(rest, command);
      var (g, tail) := ReadOpenBody(rest, command).value;
      var body := BigEndian(|g.host|, 2) + g.host + BigEndian(g.port, 2);
      assert header + (body + tail) == header + BigEndian(|g.host|, 2) + g.host + BigEndian(g.port, 2) + tail;
    } else if command == COMMAND_ACCEPT {
      Widths();
      BigEndianWrites(rest[..8]);
      assert header + rest == header + rest[..8] + rest[8..];
    }
  }

  /** WriteStatus: nothing wrong, or an error text cut to 4096 bytes. */
  function StatusBytes(err: Option<seq<byte>>): (b: seq<byte>) {
    match err
    case None => [STATUS_OK]
    case Some(text) => var kept := Cut(text); [STATUS_ERROR] + BigEndian(|kept|, 2) + kept
  }

  function Cut(text: seq<byte>): (kept: seq<byte>)
    ensures kept <= text && |kept| <= MAX_ERROR_SIZE
    ensures |text| <= MAX_ERROR_SIZE ==> kept == text
    ensures |text| > MAX_ERROR_SIZE ==> |kept| == MAX_ERROR_SIZE
  {
    if |text| > MAX_ERROR_SIZE then text[..MAX_ERROR_SIZE] else text
  }

  function ReadStatus(b: seq<byte>): (r: Result<(Option<seq<byte>>, seq<byte>), TunnelError>) {
    if |b| < 1 then Err(Eof)
    else if b[0] == STATUS_OK then Ok((None, b[1..]))
    else if b[0] == STATUS_ERROR then
      if |b| < 3 then Err(Eof)
      else
        var size := FromBigEndian(b[1..3]);
        if size > MAX_ERROR_SIZE then Err(ErrorTooLarge)
        else if |b| < 3 + size then Err(Eof)
        else Ok((Some(b[3..3 + size]), b[3 + size..]))
    else Err(BadStatus)
  }

  lemma StatusReads(size: seq<byte>, kept: seq<byte>, tail: seq<byte>)
    requires |size| == 2 && FromBigEndian(size) == |kept| <= MAX_ERROR_SIZE
    ensures ReadStatus([STATUS_ERROR] + size + kept + tail) == Ok((Some(kept), tail))
  {
    var b := [STATUS_ERROR] + size + kept + tail;
    Sliced([STATUS_ERROR], size, kept + tail);
    assert b == [STATUS_ERROR] + size + (kept + tail);
    Sliced([STATUS_ERROR] + size, kept, tail);
  }

  lemma ReadInvertsStatus(err: Option<seq<byte>>, tail: seq<byte>)
    ensures ReadStatus(StatusBytes(err) + tail)
         == Ok((if err.None? then None else Some(Cut(err.value)), tail))
  {
    if err.Some? {
      var kept := Cut(err.value);
      ReadsBack(|kept|);
      StatusReads(BigEndian(|kept|, 2), kept, tail);
    }
  }

  lemma ReadStatusExact(b: seq<byte>)
    requires ReadStatus(b).Ok?
    ensures b == StatusBytes(ReadStatus(b).value.0) + ReadStatus(b).value.1
  {
    if b[0] == STATUS_ERROR {
      var size := FromBigEndian(b[1..3]);
      BigEndianWrites(b[1..3]);
      assert Cut(b[3..3 + size]) == b[3..3 + size];
      assert b == [b[0]] + b[1..3] + b[3..3 + size] + b[3 + size..];
    }
  }

  predicate ValidDatagram(p: seq<byte>) {
    0 < |p| <= MAX_DATAGRAM_SIZE
  }

  function DatagramBytes(p: seq<byte>): (b: seq<byte>) {
    BigEndian(|p|, 2) + p
  }

  function ReadDatagramBytes(b: seq<byte>): (r: Result<(seq<byte>, seq<byte>), TunnelError>) {
    if |b| < 2 then Err(Eof)
    else
      var size := FromBigEndian(b[..2]);
      if size == 0 || size > MAX_DATAGRAM_SIZE then Err(DatagramSize)
      else if |b| < 2 + size then Err(Eof)
      else Ok((b[2..2 + size], b[2 + size..]))
  }

  lemma DatagramReads(p: seq<byte>, tail: seq<byte>)
    requires ValidDatagram(p)
    ensures ReadDatagramBytes(DatagramBytes(p) + tail) == Ok((p, tail))
  {
    var b := DatagramBytes(p) + tail;
    Sliced(BigEndian(|p|, 2), p, tail);
    ReadsBack(|p|);
  }

  /** Exactly the datagrams the writer accepts come back, whole and with the tail. */
  lemma ReadInvertsDatagram(p: seq<byte>, tail: seq<byte>)
    ensures ReadDatagramBytes(DatagramBytes(p) + tail) == Ok((p, tail)) <==> ValidDatagram(p)
  {
    if ValidDatagram(p) {
      DatagramReads(p, tail);
    }
    if ReadDatagramBytes(DatagramBytes(p) + tail) == Ok((p, tail)) {
      ReadDatagramExact(DatagramBytes(p) + tail);
    }
  }

  lemma ReadDatagramExact(b: seq<byte>)
    requires ReadDatagramBytes(b).Ok?
    ensures var (p, tail) := ReadDatagramBytes(b).value;
            ValidDatagram(p) && b == DatagramBytes(p) + tail
  {
    BigEndianWrites(b[..2]);
    var (p, tail) := ReadDatagramBytes(b).value;
    assert b == b[..2] + p + tail;
  }

  /** Every datagram of a stream, up to its end or the first one that is refused. */
  function ReadDatagrams(b: seq<byte>): (ps: seq<seq<byte>>)
    decreases |b|
  {
    var one := ReadDatagramBytes(b);
    if one.Err? then [] else [one.value.0] + ReadDatagrams(one.value.1)
  }

  function DatagramStream(ps: seq<seq<byte>>): (b: seq<byte>) {
    if ps == [] then [] else DatagramBytes(ps[0]) + DatagramStream(ps[1..])
  }

  lemma ReadDatagramsStep(p: seq<byte>, rest: seq<byte>)
    requires ValidDatagram(p)
    ensures ReadDatagrams(DatagramBytes(p) + rest) == [p] + ReadDatagrams(rest)
  {
    ReadInvertsDatagram(p, rest);
  }

  lemma {:induction false} ReadInvertsDatagrams(ps: seq<seq<byte>>, tail: seq<byte>)
    requires forall i :: 0 <= i < |ps| ==> ValidDatagram(ps[i])
    ensures ReadDatagrams(DatagramStream(ps) + tail) == ps + ReadDatagrams(tail)
  {
    if ps == [] {
      assert DatagramStream(ps) + tail == tail;
    } else {
      var rest := DatagramStream(ps[1..]) + tail;
      assert DatagramStream(ps) + tail == DatagramBytes(ps[0]) + rest;
      ReadDatagramsStep(ps[0], rest);
      ReadInvertsDatagrams(ps[1..], tail);
      assert ps + ReadDatagrams(tail) == [ps[0]] + (ps[1..] + ReadDatagrams(tail));
    }
  }

  // ---- the bytes, by example ----

  /** "KCG", version 2, the command and the token; then, for a connection to "db" on port 5432, its length, the host
      and the port, and for stream 7 its number; statuses and a datagram. */
  lemma GreetingLayout(token: Token)
    requires token != NO_TOKEN
    ensures MAX_HOST_SIZE == 1024 && MAX_ERROR_SIZE == 4096 && MAX_DATAGRAM_SIZE == 65507 && TOKEN_SIZE == 32
    ensures GreetingBytes(Control, token) == Ok([0x4B, 0x43, 0x47, 2, 3] + token)
    ensures GreetingBytes(Accept(7), token) == Ok([0x4B, 0x43, 0x47, 2, 4] + token + [0, 0, 0, 0, 0, 0, 0, 7])
    ensures GreetingBytes(Open(1, [100, 98], 5432), token)
         == Ok([0x4B, 0x43, 0x47, 2, 1] + token + [0, 2] + [100, 98] + [0x15, 0x38])
    ensures StatusBytes(None) == [0] && StatusBytes(Some([110, 111])) == [1, 0, 2, 110, 111]
    ensures DatagramBytes([9, 8, 7]) == [0, 3, 9, 8, 7]
  {
    MostSignificantFirst(2);
    MostSignificantFirst(3);
    MostSignificantFirst(7);
    MostSignificantFirst(5432);
    assert MAGIC + [1] == [0x4B, 0x43, 0x47, 2, 1] && MAGIC + [3] == [0x4B, 0x43, 0x47, 2, 3];
    assert MAGIC + [4] == [0x4B, 0x43, 0x47, 2, 4];
    assert Cut([110, 111]) == [110, 111];
  }
}
