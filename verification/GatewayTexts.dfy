/** The Gateway's error replies: every text it makes itself is one the desktop can read. */
module GatewayTexts {
  import opened Wrappers
  import opened Bytes
  import opened ControlFrames
  import opened ControlChannel
  import opened Intercepts

  /** What an id looks like quoted, %q: no byte takes more than four characters. */
  type Quoting = seq<byte> -> seq<byte>

  ghost predicate Quotes(quote: Quoting) {
    forall id :: |quote(id)| <= 4 * |id| + 2
  }

  /** The failures of registerIntercept and of a message the control loop does not know; `reason` is the operating
      system's text. */
  datatype Failure =
    | PortTooLow
    | AlreadyRegistered(id: seq<byte>)
    | PortInUse(port: uint16)
    | ListenFailed(network: Net, reason: seq<byte>)
    | UnsupportedNetwork(code: byte)
    | UnsupportedType(kind: byte)

  function Ascii(s: string): (b: seq<byte>)
    ensures |b| == |s|
  {
    seq(|s|, i requires 0 <= i < |s| => s[i] as int % 256)
  }

  function Text(f: Failure, quote: Quoting): (t: seq<byte>) {
    match f
    case PortTooLow => Ascii("listen port must be >= 1024")
    case AlreadyRegistered(id) => Ascii("intercept ") + quote(id) + Ascii(" already registered")
    case PortInUse(port) => Ascii("listen port ") + Ascii(Decimal(port)) + Ascii(" already in use")
    case ListenFailed(network, reason) => Ascii("listen ") + Ascii(NetworkName(network)) + Ascii(": ") + reason
    case UnsupportedNetwork(code) => Ascii("unsupported network ") + Ascii(Decimal(code))
    case UnsupportedType(kind) => Ascii("unsupported control type ") + Ascii(Decimal(kind))
  }

  /** The ids the Gateway quotes were read, so they have their limit; the system's reasons have room. */
  predicate Short(f: Failure) {
    match f
    case AlreadyRegistered(id) => ValidId(id)
    case ListenFailed(_, reason) => |reason| <= MAX_ID_SIZE * 5
    case _ => true
  }

  lemma DigitsShort(n: nat)
    requires n < 100000
    ensures |Digits(n)| <= 5
  {
    assert n >= 10 ==> |Digits(n)| == |Digits(n / 10)| + 1;
    assert n >= 100 ==> |Digits(n / 10)| == |Digits(n / 100)| + 1;
    assert n >= 1000 ==> |Digits(n / 100)| == |Digits(n / 1000)| + 1;
    assert n >= 10000 ==> |Digits(n / 1000)| == |Digits(n / 10000)| + 1;
  }

  /** No text of the Gateway's own is empty or over the reader's limit, even with the longest id. */
  lemma TextsFit(f: Failure, quote: Quoting)
    requires Quotes(quote) && Short(f)
    ensures 0 < |Text(f, quote)| <= MAX_READ_SIZE
  {
    match f
    case AlreadyRegistered(id) => assert |quote(id)| <= 4 * |id| + 2;
    case PortInUse(port) => DigitsShort(port);
    case UnsupportedNetwork(code) => DigitsShort(code);
    case UnsupportedType(kind) => DigitsShort(kind);
    case _ =>
  }

  function ErrorReply(text: seq<byte>): (m: ControlMessage) {
    ControlMessage(CTRL_ERROR, [], 0, 0, 0, text)
  }

  lemma RepliesCarried(f: Failure, quote: Quoting)
    requires Quotes(quote) && Short(f)
    ensures Carried(ErrorReply(Text(f, quote)))
  {
    TextsFit(f, quote);
    PayloadSizes(ErrorReply(Text(f, quote)));
  }

  /** A reply the control loop makes: an acknowledgement, or an error with one of its texts. */
  ghost predicate OwnReply(m: ControlMessage, quote: Quoting) {
    m.kind == CTRL_ACK || exists f :: Short(f) && m == ErrorReply(Text(f, quote))
  }

  ghost predicate OwnReplies(events: seq<Event>, quote: Quoting) {
    forall i :: 0 <= i < |events| && events[i].Answer? ==> OwnReply(events[i].m, quote)
  }

  predicate Readable(unread: seq<Outgoing>) {
    forall i :: 0 <= i < |unread| ==> unread[i].m.kind == CTRL_ERROR ==> |unread[i].m.error| <= MAX_READ_SIZE
  }

  lemma ReadableStep(s: Chan, e: Event, quote: Quoting)
    requires Quotes(quote) && Enabled(s, e) && (e.Answer? ==> OwnReply(e.m, quote)) && Readable(s.unread)
    ensures Readable(Next(s, e).unread)
  {
    if e.Answer? && e.m.kind == CTRL_ERROR {
      var f :| Short(f) && e.m == ErrorReply(Text(f, quote));
      TextsFit(f, quote);
    }
  }

  lemma {:induction false} ReadableRun(s: Chan, events: seq<Event>, quote: Quoting)
    requires Quotes(quote) && Runs(s, events) && OwnReplies(events, quote) && Readable(s.unread)
    ensures Readable(After(s, events).unread)
    decreases |events|
  {
    if events != [] {
      ReadableStep(s, events[0], quote);
      assert forall i :: 0 <= i < |events[1..]| ==> events[1..][i] == events[i + 1];
      ReadableRun(Next(s, events[0]), events[1..], quote);
    }
  }

  /** So no reply of the Gateway ever ends a read loop: in every run, whenever whole frames have arrived, the next one
      reads. */
  lemma NoReplyStopsTheLoop(events: seq<Event>, quote: Quoting)
    requires Quotes(quote) && Runs(INITIAL, events) && OwnReplies(events, quote)
    requires After(INITIAL, events).writing == [] && After(INITIAL, events).unread != []
    ensures ReadFrame(After(INITIAL, events).wire).Ok?
  {
    ReadableRun(INITIAL, events, quote);
    ReadStopsOnlyAtOversized(events);
    assert Readable(After(INITIAL, events).unread);
  }

  // ---- which refusals may pass ----

  predicate IsAt(needle: seq<byte>, text: seq<byte>, i: int) {
    0 <= i <= |text| - |needle| && text[i..i + |needle|] == needle
  }

  ghost predicate Contains(text: seq<byte>, needle: seq<byte>) {
    exists i :: IsAt(needle, text, i)
  }

  const REGISTERED := Ascii("already registered")
  const IN_USE := Ascii("already in use")

  /** isTransientControlRegistrationError, on an error's text. */
  ghost predicate IsTransient(text: seq<byte>) {
    Contains(text, REGISTERED) || Contains(text, IN_USE)
  }

  /** A text without the needle's first letter before its rest has the needle in its rest, if anywhere. */
  lemma InRest(head: seq<byte>, rest: seq<byte>, needle: seq<byte>)
    requires needle != [] && needle[0] !in head
    ensures Contains(head + rest, needle) <==> Contains(rest, needle)
  {
    var text := head + rest;
    if i: int :| IsAt(needle, text, i) {
      assert text[i] == needle[0];
      assert i >= |head|;
      assert text[i..i + |needle|] == rest[i - |head|..i - |head| + |needle|];
      assert IsAt(needle, rest, i - |head|);
    }
    if i: int :| IsAt(needle, rest, i) {
      assert text[|head| + i..|head| + i + |needle|] == rest[i..i + |needle|];
      assert IsAt(needle, text, |head| + i);
    }
  }

  lemma AtEnd(head: seq<byte>, needle: seq<byte>)
    ensures Contains(head + needle, needle)
  {
    assert IsAt(needle, head + needle, |head|);
  }

  lemma AsciiJoins(a: string, b: string)
    ensures Ascii(a + b) == Ascii(a) + Ascii(b)
  {
  }

  /** Plain characters other than the letter a. */
  predicate Without(s: string) {
    forall i :: 0 <= i < |s| ==> s[i] != 'a' && s[i] as int < 128
  }

  lemma AsciiWithout(s: string)
    requires Without(s)
    ensures 97 !in Ascii(s)
  {
    forall i | 0 <= i < |s| ensures Ascii(s)[i] != 97 {
      assert s[i] as int != 'a' as int;
    }
  }

  lemma {:induction false} DigitsWithout(n: nat)
    ensures Without(Digits(n))
  {
    if n >= 10 {
      DigitsWithout(n / 10);
    }
  }

  lemma NumberWithout(head: string, n: nat)
    requires Without(head)
    ensures 97 !in Ascii(head) + Ascii(Decimal(n))
  {
    DigitsWithout(n);
    AsciiWithout(head);
    AsciiWithout(Decimal(n));
  }

  lemma FixedTexts(f: Failure, quote: Quoting)
    requires f.PortTooLow? || f.UnsupportedNetwork? || f.UnsupportedType?
    ensures 97 !in Text(f, quote)
  {
    match f
    case PortTooLow => AsciiWithout("listen port must be >= 1024");
    case UnsupportedNetwork(code) => NumberWithout("unsupported network ", code);
    case UnsupportedType(kind) => NumberWithout("unsupported control type ", kind);
  }

  lemma NowhereWithoutA(text: seq<byte>)
    requires 97 !in text
    ensures !IsTransient(text)
  {
    InRest(text, [], REGISTERED);
    InRest(text, [], IN_USE);
    assert text + [] == text;
  }

  lemma ListenHead(network: Net)
    ensures 97 !in Ascii("listen ") + Ascii(NetworkName(network)) + Ascii(": ")
  {
    AsciiWithout("listen ");
    AsciiWithout(NetworkName(network));
    AsciiWithout(": ");
  }

  lemma RegisteredTransient(id: seq<byte>, quote: Quoting)
    ensures IsTransient(Text(AlreadyRegistered(id), quote))
  {
    AsciiJoins(" ", "already registered");
    assert " " + "already registered" == " already registered";
    var head := Ascii("intercept ") + quote(id) + Ascii(" ");
    AtEnd(head, REGISTERED);
    assert Text(AlreadyRegistered(id), quote) == head + REGISTERED;
  }

  lemma InUseTransient(port: uint16, quote: Quoting)
    ensures IsTransient(Text(PortInUse(port), quote))
  {
    AsciiJoins(" ", "already in use");
    assert " " + "already in use" == " already in use";
    var head := Ascii("listen port ") + Ascii(Decimal(port)) + Ascii(" ");
    AtEnd(head, IN_USE);
    assert Text(PortInUse(port), quote) == head + IN_USE;
  }

  lemma ListenTransient(network: Net, reason: seq<byte>, quote: Quoting)
    ensures IsTransient(Text(ListenFailed(network, reason), quote)) <==> IsTransient(reason)
  {
    ListenHead(network);
    var head := Ascii("listen ") + Ascii(NetworkName(network)) + Ascii(": ");
    InRest(head, reason, REGISTERED);
    InRest(head, reason, IN_USE);
  }

  /** The desktop tries again exactly after the refusals that an older session can cause: an id or a port that is still
      taken, or a listen that failed for a port in use. */
  lemma TransientExactly(f: Failure, quote: Quoting)
    ensures IsTransient(Text(f, quote))
       <==> f.AlreadyRegistered? || f.PortInUse? || (f.ListenFailed? && IsTransient(f.reason))
  {
    match f
    case AlreadyRegistered(id) => RegisteredTransient(id, quote);
    case PortInUse(port) => InUseTransient(port, quote);
    case ListenFailed(network, reason) => ListenTransient(network, reason, quote);
    case _ =>
      FixedTexts(f, quote);
      NowhereWithoutA(Text(f, quote));
  }
}
