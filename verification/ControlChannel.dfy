/** The control channel as a state machine: internal/intercept/control.go against internal/gateway/reverse.go.
    Round trips hold the desktop's write lock; replies and inbound notices share the Gateway's, one frame at a time;
    bytes arrive in pieces of any size. */
module ControlChannel {
  import opened Wrappers
  import opened Bytes
  import opened ControlFrames

  const REPLY_QUEUE := 8

  /** A message the Gateway has begun to write, with its bytes: the answer of a request, or a notice of nobody's. */
  datatype Outgoing = Outgoing(m: ControlMessage, frame: seq<byte>, answers: Option<nat>)

  datatype Reply = Reply(request: nat, m: ControlMessage)

  datatype Chan = Chan(
    asked: nat,
    waiting: bool,
    requests: seq<nat>,
    serving: Option<nat>,
    writing: seq<byte>,
    wire: seq<byte>,
    unread: seq<Outgoing>,
    queue: seq<Reply>,
    closed: bool,
    written: map<nat, ControlMessage>,
    received: seq<Reply>,
    dropped: nat,
    noticed: seq<ControlMessage>,
    heard: seq<ControlMessage>)

  const INITIAL := Chan(0, false, [], None, [], [], [], [], false, map[], [], 0, [], [])

  datatype Event =
    | Ask
    | Serve
    | Answer(m: ControlMessage)
    | Notice(m: ControlMessage)
    | Push(size: nat)
    | Read
    | Lose
    | Receive
    | GiveUp

  predicate IsReply(m: ControlMessage) {
    m.kind == CTRL_ACK || m.kind == CTRL_ERROR
  }

  predicate Enabled(s: Chan, e: Event) {
    match e
    case Ask => !s.waiting && !s.closed
    case Serve => s.serving.None? && s.requests != []
    case Answer(m) => s.serving.Some? && s.writing == [] && IsReply(m) && EncodePayload(m).Ok?
    case Notice(m) => s.writing == [] && m.kind == CTRL_INBOUND_READY && EncodePayload(m).Ok?
    case Push(size) => 0 < size <= |s.writing|
    case Read => !s.closed && ReadFrame(s.wire).Ok? && s.unread != []
    case Lose => true
    case Receive => s.waiting && s.asked > 0 && s.queue != []
    case GiveUp => s.waiting && s.closed && s.queue == []
  }

  /** What the read loop does with a message: a notice is passed on, a reply queued if there is room. The queued
      reply carries the number of the request it was written for, which the reader does not see. */
  function Dispatch(s: Chan, m: ControlMessage, answers: Option<nat>): Chan {
    if m.kind == CTRL_INBOUND_READY then s.(heard := s.heard + [m])
    else if IsReply(m) then
      if |s.queue| < REPLY_QUEUE then s.(queue := s.queue + [Reply(if answers.Some? then answers.value else 0, m)])
      else s.(dropped := s.dropped + 1)
    else s
  }

  function Next(s: Chan, e: Event): (t: Chan)
    requires Enabled(s, e)
  {
    match e
    case Ask => s.(asked := s.asked + 1, waiting := true, requests := s.requests + [s.asked])
    case Serve => s.(serving := Some(s.requests[0]), requests := s.requests[1..])
    case Answer(m) =>
      s.(serving := None, writing := Frame(m), unread := s.unread + [Outgoing(Meaning(m), Frame(m), s.serving)],
         written := s.written[s.serving.value := Meaning(m)])
    case Notice(m) =>
      s.(writing := Frame(m), unread := s.unread + [Outgoing(Meaning(m), Frame(m), None)],
         noticed := s.noticed + [Meaning(m)])
    case Push(size) => s.(wire := s.wire + s.writing[..size], writing := s.writing[size..])
    case Read =>
      var (m, tail) := ReadFrame(s.wire).value;
      Dispatch(s.(wire := tail, unread := s.unread[1..]), m, s.unread[0].answers)
    case Lose => s.(closed := true)
    case Receive =>
      // the caller takes whatever reply comes: it has no number to match
      s.(waiting := false, queue := s.queue[1..], received := s.received + [Reply(s.asked - 1, s.queue[0].m)])
    case GiveUp => s.(waiting := false)
  }

  ghost predicate Runs(s: Chan, events: seq<Event>)
    decreases |events|
  {
    events == [] || (Enabled(s, events[0]) && Runs(Next(s, events[0]), events[1..]))
  }

  ghost function After(s: Chan, events: seq<Event>): (t: Chan)
    requires Runs(s, events)
    decreases |events|
  {
    if events == [] then s else After(Next(s, events[0]), events[1..])
  }

  // ---- bytes ----

  ghost predicate IsFrameOf(x: Outgoing, m: ControlMessage) {
    EncodePayload(m).Ok? && x.frame == Frame(m) && x.m == Meaning(m)
  }

  ghost predicate Framed(x: Outgoing) {
    x.frame != [] && exists m :: IsFrameOf(x, m)
  }

  function FramesOf(unread: seq<Outgoing>): (b: seq<byte>) {
    if unread == [] then [] else unread[0].frame + FramesOf(unread[1..])
  }

  lemma {:induction false} FramesNext(unread: seq<Outgoing>, x: Outgoing)
    ensures FramesOf(unread + [x]) == FramesOf(unread) + x.frame
  {
    if unread == [] {
      assert unread + [x] == [x] && FramesOf([x]) == x.frame + [];
    } else {
      assert (unread + [x])[1..] == unread[1..] + [x];
      FramesNext(unread[1..], x);
    }
  }

  /** However they were cut up on the way, the bytes not read yet are whole frames in the order they were begun. */
  ghost predicate BytesFit(unread: seq<Outgoing>, wire: seq<byte>, writing: seq<byte>) {
    (forall i :: 0 <= i < |unread| ==> Framed(unread[i])) && wire + writing == FramesOf(unread)
  }

  lemma ReadFrameGrows(b: seq<byte>, more: seq<byte>)
    requires ReadFrame(b).Ok?
    ensures ReadFrame(b + more) == Ok((ReadFrame(b).value.0, ReadFrame(b).value.1 + more))
  {
    var size := FromBigEndian(b[1..3]);
    var c := b + more;
    assert c[1..3] == b[1..3] && c[3..3 + size] == b[3..3 + size] && c[3 + size..] == b[3 + size..] + more;
  }

  /** Reading a framed message, whole and followed by anything. */
  lemma ReadsFramed(x: Outgoing, tail: seq<byte>)
    requires Framed(x)
    ensures ReadFrame(x.frame + tail)
         == if x.m.kind == CTRL_ERROR && |x.m.error| > MAX_READ_SIZE then Err(TooLarge) else Ok((x.m, tail))
  {
    var m :| IsFrameOf(x, m);
    ReadFrameInvertsFrame(m, tail);
  }

  /** A message that can be read is the first one not read, whole, and the rest of the bytes are the rest's. */
  lemma ReadsFirst(unread: seq<Outgoing>, wire: seq<byte>, writing: seq<byte>)
    requires BytesFit(unread, wire, writing) && ReadFrame(wire).Ok?
    ensures unread != [] && ReadFrame(wire).value.0 == unread[0].m
    ensures BytesFit(unread[1..], ReadFrame(wire).value.1, writing)
  {
    assert |wire + writing| > 0;
    ReadFrameGrows(wire, writing);
    ReadsFramed(unread[0], FramesOf(unread[1..]));
  }

  // ---- requests and replies ----

  function Ones(o: Option<nat>): nat {
    if o.Some? then 1 else 0
  }

  function Answers(unread: seq<Outgoing>): (n: nat)
    ensures n == 0 ==> forall i :: 0 <= i < |unread| ==> unread[i].answers.None?
  {
    if unread == [] then 0 else Ones(unread[0].answers) + Answers(unread[1..])
  }

  /** The requests whose answer has not been received: answered and queued, answered and unread, being served, or on
      their way. */
  function InFlight(s: Chan): (n: nat) {
    |s.queue| + Answers(s.unread) + Ones(s.serving) + |s.requests|
  }

  lemma {:induction false} AnswersNext(unread: seq<Outgoing>, x: Outgoing)
    ensures Answers(unread + [x]) == Answers(unread) + Ones(x.answers)
  {
    if unread == [] {
      assert unread + [x] == [x];
    } else {
      assert (unread + [x])[1..] == unread[1..] + [x];
      AnswersNext(unread[1..], x);
    }
  }

  /** At most one request is in flight, and one is whenever a caller waits. */
  ghost predicate OneInFlight(s: Chan) {
    InFlight(s) <= 1 && (s.waiting ==> InFlight(s) == 1) && (!s.waiting && !s.closed ==> InFlight(s) == 0)
  }

  predicate IsLatest(s: Chan, n: nat) {
    n + 1 == s.asked
  }

  /** Whatever is in flight is the latest request. */
  ghost predicate AllLatest(s: Chan) {
    && (s.waiting ==> s.asked > 0)
    && (forall i :: 0 <= i < |s.queue| ==> IsLatest(s, s.queue[i].request))
    && (forall i :: 0 <= i < |s.unread| && s.unread[i].answers.Some? ==> IsLatest(s, s.unread[i].answers.value))
    && (s.serving.Some? ==> IsLatest(s, s.serving.value))
    && (forall i :: 0 <= i < |s.requests| ==> IsLatest(s, s.requests[i]))
  }

  /** Only replies answer requests. */
  ghost predicate KindsFit(unread: seq<Outgoing>) {
    forall i :: 0 <= i < |unread| ==>
      if unread[i].answers.Some? then IsReply(unread[i].m) else unread[i].m.kind == CTRL_INBOUND_READY
  }

  // ---- what was said ----

  predicate IsWritten(written: map<nat, ControlMessage>, n: nat, m: ControlMessage) {
    n in written && written[n] == m
  }

  /** A number that was asked and has no answer written for it. */
  predicate Open(s: Chan, n: nat) {
    n < s.asked && n !in s.written
  }

  ghost predicate SaidFits(s: Chan) {
    && (forall n :: n in s.written ==> n < s.asked)
    && (s.serving.Some? ==> Open(s, s.serving.value))
    && (forall i :: 0 <= i < |s.requests| ==> Open(s, s.requests[i]))
    && (forall i :: 0 <= i < |s.unread| && s.unread[i].answers.Some? ==>
          IsWritten(s.written, s.unread[i].answers.value, s.unread[i].m))
    && (forall i :: 0 <= i < |s.queue| ==> IsWritten(s.written, s.queue[i].request, s.queue[i].m))
    && (forall i :: 0 <= i < |s.received| ==> IsWritten(s.written, s.received[i].request, s.received[i].m))
  }

  function Spoken(x: Outgoing): seq<ControlMessage> {
    if x.answers.None? then [x.m] else []
  }

  function Notices(unread: seq<Outgoing>): (r: seq<ControlMessage>) {
    if unread == [] then [] else Spoken(unread[0]) + Notices(unread[1..])
  }

  lemma {:induction false} NoticesNext(unread: seq<Outgoing>, x: Outgoing)
    ensures Notices(unread + [x]) == Notices(unread) + Spoken(x)
  {
    if unread == [] {
      assert unread + [x] == [x] && Notices([x]) == Spoken(x) + [];
    } else {
      assert (unread + [x])[1..] == unread[1..] + [x];
      NoticesNext(unread[1..], x);
    }
  }

  /** What the listeners said is what has been heard, and then what is still to be read. */
  ghost predicate HeardFits(s: Chan) {
    s.noticed == s.heard + Notices(s.unread)
  }

  /** All of it but the bytes. */
  ghost predicate TalkFits(s: Chan) {
    OneInFlight(s) && AllLatest(s) && KindsFit(s.unread) && SaidFits(s) && HeardFits(s) && s.dropped == 0
  }

  ghost predicate Inv(s: Chan) {
    BytesFit(s.unread, s.wire, s.writing) && TalkFits(s)
  }

  // ---- one lemma per event ----

  lemma AskEvent(s: Chan)
    requires Inv(s) && Enabled(s, Ask)
    ensures Inv(Next(s, Ask))
  {
  }

  lemma ServeEvent(s: Chan)
    requires Inv(s) && Enabled(s, Serve)
    ensures Inv(Next(s, Serve))
  {
    assert IsLatest(s, s.requests[0]) && Open(s, s.requests[0]);
  }

  lemma PushEvent(s: Chan, e: Event)
    requires Inv(s) && Enabled(s, e) && (e.Push? || e.Lose? || e.GiveUp?)
    ensures Inv(Next(s, e))
  {
    if e.Push? {
      assert (s.wire + s.writing[..e.size]) + s.writing[e.size..] == s.wire + s.writing;
    }
  }

  lemma ReceiveEvent(s: Chan)
    requires Inv(s) && Enabled(s, Receive)
    ensures Inv(Next(s, Receive))
  {
    assert IsLatest(s, s.queue[0].request);
    assert IsWritten(s.written, s.queue[0].request, s.queue[0].m);
  }

  lemma WriteBytes(unread: seq<Outgoing>, wire: seq<byte>, x: Outgoing)
    requires BytesFit(unread, wire, []) && Framed(x)
    ensures BytesFit(unread + [x], wire, x.frame)
  {
    FramesNext(unread, x);
    assert wire + [] == wire;
  }

  /** A message begun: the answer to what is being served, or a notice. */
  predicate Writes(s: Chan, t: Chan, x: Outgoing) {
    && t == s.(unread := s.unread + [x], serving := t.serving, written := t.written, noticed := t.noticed,
               writing := t.writing)
    && if x.answers.Some? then
         IsReply(x.m) && s.serving == x.answers && t.serving.None?
         && t.written == s.written[x.answers.value := x.m] && t.noticed == s.noticed
       else
         x.m.kind == CTRL_INBOUND_READY && t.serving == s.serving && t.written == s.written
         && t.noticed == s.noticed + [x.m]
  }

  lemma WriteFlight(s: Chan, t: Chan, x: Outgoing)
    requires OneInFlight(s) && AllLatest(s) && KindsFit(s.unread) && Writes(s, t, x)
    ensures OneInFlight(t) && AllLatest(t) && KindsFit(t.unread)
  {
    AnswersNext(s.unread, x);
  }

  lemma WriteSaid(s: Chan, t: Chan, x: Outgoing)
    requires SaidFits(s) && OneInFlight(s) && Writes(s, t, x)
    ensures SaidFits(t)
  {
    assert x.answers.Some? ==> s.requests == [] && s.queue == [] && Answers(s.unread) == 0;
  }

  lemma WriteHeard(s: Chan, t: Chan, x: Outgoing)
    requires HeardFits(s) && Writes(s, t, x)
    ensures HeardFits(t)
  {
    NoticesNext(s.unread, x);
    assert t.noticed == s.heard + (Notices(s.unread) + Spoken(x));
  }

  lemma WriteEvent(s: Chan, e: Event)
    requires Inv(s) && Enabled(s, e) && (e.Answer? || e.Notice?)
    ensures Inv(Next(s, e))
  {
    var t := Next(s, e);
    var x := Outgoing(Meaning(e.m), Frame(e.m), if e.Answer? then s.serving else None);
    assert IsFrameOf(x, e.m);
    WriteBytes(s.unread, s.wire, x);
    WriteFlight(s, t, x);
    WriteSaid(s, t, x);
    WriteHeard(s, t, x);
  }

  /** A message read: a reply finds room in the queue, a notice is passed on. */
  predicate Reads(s: Chan, t: Chan) {
    s.unread != []
    && var x := s.unread[0];
       && t == s.(wire := t.wire, unread := s.unread[1..], queue := t.queue, heard := t.heard)
       && t.heard == s.heard + Spoken(x)
       && t.queue == if x.answers.Some? then s.queue + [Reply(x.answers.value, x.m)] else s.queue
  }

  lemma ReadNext(s: Chan)
    requires Inv(s) && Enabled(s, Read)
    ensures Reads(s, Next(s, Read))
    ensures BytesFit(Next(s, Read).unread, Next(s, Read).wire, Next(s, Read).writing)
  {
    ReadsFirst(s.unread, s.wire, s.writing);
    assert if s.unread[0].answers.Some? then IsReply(s.unread[0].m) else s.unread[0].m.kind == CTRL_INBOUND_READY;
  }

  lemma ReadFlight(s: Chan, t: Chan)
    requires OneInFlight(s) && AllLatest(s) && KindsFit(s.unread) && Reads(s, t)
    ensures OneInFlight(t) && AllLatest(t) && KindsFit(t.unread)
  {
    var x := s.unread[0];
    assert x.answers.Some? ==> IsLatest(s, x.answers.value);
  }

  lemma ReadSaid(s: Chan, t: Chan)
    requires SaidFits(s) && Reads(s, t)
    ensures SaidFits(t)
  {
    var x := s.unread[0];
    assert x.answers.Some? ==> IsWritten(s.written, x.answers.value, x.m);
  }

  lemma ReadHeard(s: Chan, t: Chan)
    requires HeardFits(s) && Reads(s, t)
    ensures HeardFits(t)
  {
    var x := s.unread[0];
    assert s.heard + (Spoken(x) + Notices(t.unread)) == t.heard + Notices(t.unread);
  }

  lemma ReadEvent(s: Chan)
    requires Inv(s) && Enabled(s, Read)
    ensures Inv(Next(s, Read))
  {
    ReadNext(s);
    ReadFlight(s, Next(s, Read));
    ReadSaid(s, Next(s, Read));
    ReadHeard(s, Next(s, Read));
  }

  lemma StepKeeps(s: Chan, e: Event)
    requires Inv(s) && Enabled(s, e)
    ensures Inv(Next(s, e))
  {
    match e
    case Ask => AskEvent(s);
    case Serve => ServeEvent(s);
    case Answer(_) => WriteEvent(s, e);
    case Notice(_) => WriteEvent(s, e);
    case Read => ReadEvent(s);
    case Receive => ReceiveEvent(s);
    case _ => PushEvent(s, e);
  }

  lemma {:induction false} RunKeeps(s: Chan, events: seq<Event>)
    requires Inv(s) && Runs(s, events)
    ensures Inv(After(s, events))
    decreases |events|
  {
    if events != [] {
      StepKeeps(s, events[0]);
      RunKeeps(Next(s, events[0]), events[1..]);
    }
  }

  /** In every run without a timeout: what a round trip receives was written in answer to its own request; the reply
      queue never holds two, so none is dropped; and the notices heard are the notices written, in order. */
  lemma RepliesMatch(events: seq<Event>)
    requires Runs(INITIAL, events)
    ensures var t := After(INITIAL, events);
            && (forall i :: 0 <= i < |t.received| ==> IsWritten(t.written, t.received[i].request, t.received[i].m))
            && |t.queue| <= 1 && t.dropped == 0
            && t.heard <= t.noticed
  {
    RunKeeps(INITIAL, events);
  }

  /** When nothing is on its way any more, every notice has been heard. */
  lemma NoNoticeLost(events: seq<Event>)
    requires Runs(INITIAL, events) && After(INITIAL, events).unread == []
    ensures After(INITIAL, events).heard == After(INITIAL, events).noticed
  {
    RunKeeps(INITIAL, events);
  }

  /** Frames never split one another: once a whole number of them has arrived, what stops the read loop is an error
      text past the reader's 1312 bytes, and nothing else. */
  lemma ReadStopsOnlyAtOversized(events: seq<Event>)
    requires Runs(INITIAL, events) && After(INITIAL, events).writing == [] && After(INITIAL, events).unread != []
    ensures var t := After(INITIAL, events);
            var m := t.unread[0].m;
            ReadFrame(t.wire).Err? <==> m.kind == CTRL_ERROR && |m.error| > MAX_READ_SIZE
  {
    RunKeeps(INITIAL, events);
    var t := After(INITIAL, events);
    assert t.wire + [] == t.wire;
    ReadsFramed(t.unread[0], FramesOf(t.unread[1..]));
  }

  /** The read loop's guard costs no run anything: bytes that read are the first unread message's. */
  lemma ReadIsAlwaysOfAMessage(events: seq<Event>)
    requires Runs(INITIAL, events) && ReadFrame(After(INITIAL, events).wire).Ok?
    ensures var t := After(INITIAL, events); t.unread != [] && ReadFrame(t.wire).value.0 == t.unread[0].m
  {
    RunKeeps(INITIAL, events);
    var t := After(INITIAL, events);
    ReadsFirst(t.unread, t.wire, t.writing);
  }
}
