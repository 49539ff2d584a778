/**
 Whole responses, and connections that carry any number of them: what is printed is what the parser
 reports.
 */
module HttpResponses {
  import opened HttpTypes
  import opened HttpStep
  import opened HttpRun
  import opened HttpBlocks
  import opened HttpCuts
  import opened HttpReach
  import opened HttpLengths
  import opened HttpHeaders
  import opened HttpValues
  import opened HttpChunks
  import opened HttpOptions
  import opened HttpRequests
  import HttpFramingRules

  // ---------------------------------------------------------------- status lines

  lemma StatusByte(c: Config, s: StatusState, ch: Byte, hc: Callback)
    requires Running(c) && c.p.state == AtStatus(s) && s != ResStatus
    requires StatusTransition(c.p, s, ch).acts == Nil && StatusTransition(c.p, s, ch).p.errno == OK
    ensures Reaches(c, [ch], hc, StatusTransition(c.p, s, ch).p, c.log)
  {
    hide Run, StepEvents, StatusTransition;
    ReachQuiet(c, ch, hc);
  }

  lemma StatusProtocol(c: Config, hc: Callback)
    requires Running(c) && c.p.state == AtStart(StartRes)
    ensures Reaches(c, "HTTP/", hc, Cleared(c.p).(state := AtStatus(ResFirstMajor)), c.log + [Notify(MessageBegin)])
  {
    hide Run, StepEvents;
    var p, l := Cleared(c.p).(state := AtStatus(ResFirstMajor)), c.log + [Notify(MessageBegin)];
    ReachCall(c, 'H', hc, MessageBegin);
    var c1 := Run(c, "H", hc);
    StatusByte(c1, ResH, 'T', hc);
    var c2 := Run(c1, "T", hc);
    StatusByte(c2, ResHT, 'T', hc);
    var c3 := Run(c2, "T", hc);
    StatusByte(c3, ResHTT, 'P', hc);
    var c4 := Run(c3, "P", hc);
    StatusByte(c4, ResHTTP, '/', hc);
    Then(c3, "P", "/", hc, p, l);
    Then(c2, "T", "P" + "/", hc, p, l);
    Then(c1, "T", "T" + ("P" + "/"), hc, p, l);
    Then(c, "H", "T" + ("T" + ("P" + "/")), hc, p, l);
    assert "H" + ("T" + ("T" + ("P" + "/"))) == "HTTP/";
  }

  lemma StatusVersion(c: Config, a: Byte, b: Byte, hc: Callback)
    requires Running(c) && c.p.state == AtStatus(ResFirstMajor) && IsNum(a) && IsNum(b)
    ensures Reaches(c, [a, '.', b, ' '], hc,
                    c.p.(state := AtStatus(ResFirstStatusCode), major := DigitOf(a), minor := DigitOf(b)), c.log)
  {
    hide Run;
    var p, l := c.p.(state := AtStatus(ResFirstStatusCode), major := DigitOf(a), minor := DigitOf(b)), c.log;
    StatusByte(c, ResFirstMajor, a, hc);
    var c1 := Run(c, [a], hc);
    StatusByte(c1, ResMajor, '.', hc);
    var c2 := Run(c1, ".", hc);
    StatusByte(c2, ResFirstMinor, b, hc);
    var c3 := Run(c2, [b], hc);
    StatusByte(c3, ResMinor, ' ', hc);
    Then(c2, [b], " ", hc, p, l);
    Then(c1, ".", [b] + " ", hc, p, l);
    Then(c, [a], "." + ([b] + " "), hc, p, l);
    assert [a] + ("." + ([b] + " ")) == [a, '.', b, ' '];
  }

  function CodeOf(x: Byte, y: Byte, z: Byte): nat
    requires IsNum(x) && IsNum(y) && IsNum(z)
  {
    DigitOf(x) * 100 + DigitOf(y) * 10 + DigitOf(z)
  }

  lemma StatusCode(c: Config, x: Byte, y: Byte, z: Byte, hc: Callback)
    requires Running(c) && c.p.state == AtStatus(ResFirstStatusCode) && IsNum(x) && IsNum(y) && IsNum(z)
    ensures Reaches(c, [x, y, z], hc, c.p.(state := AtStatus(ResStatusCode), status := CodeOf(x, y, z)), c.log)
  {
    hide Run;
    var p, l := c.p.(state := AtStatus(ResStatusCode), status := CodeOf(x, y, z)), c.log;
    StatusByte(c, ResFirstStatusCode, x, hc);
    var c1 := Run(c, [x], hc);
    StatusByte(c1, ResStatusCode, y, hc);
    var c2 := Run(c1, [y], hc);
    StatusByte(c2, ResStatusCode, z, hc);
    Then(c1, [y], [z], hc, p, l);
    Then(c, [x], [y] + [z], hc, p, l);
    assert [x] + ([y] + [z]) == [x, y, z];
  }

  // ---------------------------------------------------------------- responses

  // A response.  Its body is delimited as that of a request, or by the end of the connection.
  datatype Reply = Reply(
    major: Byte, minor: Byte, hundreds: Byte, tens: Byte, ones: Byte, reason: Bytes, headers: seq<Header>,
    content: Content)

  datatype Content = Closed(body: Body) | Open(data: Bytes)

  function StatusLine(m: Reply): Bytes {
    "HTTP/" + ([m.major, '.', m.minor, ' '] + ([m.hundreds, m.tens, m.ones] + (" " + (m.reason + "\r\n"))))
  }

  predicate IsReason(s: Bytes) { CR !in s && LF !in s }

  predicate IsStatusLine(m: Reply) {
    && IsNum(m.major) && IsNum(m.minor) && IsNum(m.hundreds) && IsNum(m.tens) && IsNum(m.ones) && IsReason(m.reason)
  }

  function StatusOf(m: Reply): nat
    requires IsStatusLine(m)
  {
    CodeOf(m.hundreds, m.tens, m.ones)
  }

  function StatusEvents(m: Reply): seq<Event> {
    [Notify(MessageBegin)] + if m.reason == [] then [] else [Data(OnStatus, m.reason)]
  }

  // ---------------------------------------------------------------- the reason phrase

  lemma ReasonFirst(c: Config, ch: Byte, hc: Callback)
    requires Running(c) && c.p.state == AtStatus(ResStatusStart) && ch != CR && ch != LF
    ensures Reaches(c, [ch], hc, c.p.(state := AtStatus(ResStatus), index := 0), Push(c.log, Data(OnStatus, [ch])))
  {
    hide Run, StepEvents;
    ReachMark(c, ch, hc, OnStatus);
  }

  lemma ReasonNext(c: Config, ch: Byte, hc: Callback)
    requires Running(c) && c.p.state == AtStatus(ResStatus) && ch != CR && ch != LF
    ensures Reaches(c, [ch], hc, c.p, Push(c.log, Data(OnStatus, [ch])))
  {
    hide Run, StepEvents;
    ReachData(c, ch, hc, OnStatus);
  }

  lemma {:induction false} ReasonRun(c: Config, s: Bytes, hc: Callback)
    requires Running(c) && c.p.state == AtStatus(ResStatusStart) && s != [] && IsReason(s)
    ensures Reaches(c, s, hc, c.p.(state := AtStatus(ResStatus), index := 0), Push(c.log, Data(OnStatus, s)))
    decreases |s|
  {
    hide Run, Push;
    var t, ch := s[..|s| - 1], s[|s| - 1];
    assert s == t + [ch];
    if t == [] {
      assert s == [ch];
      ReasonFirst(c, ch, hc);
    } else {
      ReasonRun(c, t, hc);
      var d := Run(c, t, hc);
      ReasonNext(d, ch, hc);
      PushSplit(c.log, OnStatus, t, [ch]);
      Then(c, t, [ch], hc, d.p, Push(c.log, Data(OnStatus, s)));
    }
  }

  lemma ReasonEnds(c: Config, hc: Callback)
    requires Running(c) && (c.p.state == AtStatus(ResStatusStart) ||
                            (c.p.state == AtStatus(ResStatus) && EndsWith(c.log, OnStatus)))
    ensures Reaches(c, "\r\n", hc, c.p.(state := AtField(HeaderFieldStart)), c.log)
  {
    hide Run, StepEvents;
    if c.p.state == AtStatus(ResStatusStart) {
      StatusByte(c, ResStatusStart, CR, hc);
    } else {
      ReachFlush(c, CR, hc, OnStatus);
    }
    var d := Run(c, "\r", hc);
    StatusByte(d, ResLineAlmostDone, LF, hc);
    Then(c, "\r", "\n", hc, c.p.(state := AtField(HeaderFieldStart)), c.log);
    assert "\r" + "\n" == "\r\n";
  }

  // The reason phrase, or nothing, and the line end.
  lemma ReasonLine(c: Config, s: Bytes, hc: Callback) returns (p: Parser)
    requires Running(c) && c.p.state == AtStatus(ResStatusStart) && IsReason(s)
    ensures p == c.p.(state := AtField(HeaderFieldStart), index := p.index)
    ensures Reaches(c, s + "\r\n", hc, p, if s == [] then c.log else Push(c.log, Data(OnStatus, s)))
  {
    hide Run, Push;
    if s == [] {
      ReasonEnds(c, hc);
      assert s + "\r\n" == "\r\n";
      p := c.p.(state := AtField(HeaderFieldStart));
    } else {
      ReasonRun(c, s, hc);
      var d := Run(c, s, hc);
      PushEnds(c.log, OnStatus, s);
      ReasonEnds(d, hc);
      p := d.p.(state := AtField(HeaderFieldStart));
      Then(c, s, "\r\n", hc, p, d.log);
    }
  }

  // ---------------------------------------------------------------- the status line

  // The parser has read the status line of m.
  predicate LineRead(p: Parser, m: Reply, q: Parser)
    requires IsStatusLine(m)
  {
    q == Cleared(p).(state := AtField(HeaderFieldStart), index := q.index, major := DigitOf(m.major),
                     minor := DigitOf(m.minor), status := StatusOf(m))
  }

  lemma StatusLineRun(c: Config, m: Reply, hc: Callback)
    requires Running(c) && c.p.state == AtStart(StartRes) && IsStatusLine(m)
    ensures var d := Run(c, StatusLine(m), hc);
            Running(d) && LineRead(c.p, m, d.p) && d.log == Emit(c.log, StatusEvents(m))
  {
    hide Run, Push, Emit;
    var s1, s2 := [m.major, '.', m.minor, ' '], [m.hundreds, m.tens, m.ones];
    var s3 := m.reason + "\r\n";
    StatusProtocol(c, hc);
    var c1 := Run(c, "HTTP/", hc);
    StatusVersion(c1, m.major, m.minor, hc);
    var c2 := Run(c1, s1, hc);
    StatusCode(c2, m.hundreds, m.tens, m.ones, hc);
    var c3 := Run(c2, s2, hc);
    StatusByte(c3, ResStatusCode, ' ', hc);
    var c4 := Run(c3, " ", hc);
    var p := ReasonLine(c4, m.reason, hc);
    var d := Run(c4, s3, hc);
    Then(c3, " ", s3, hc, p, d.log);
    Then(c2, s2, " " + s3, hc, p, d.log);
    Then(c1, s1, s2 + (" " + s3), hc, p, d.log);
    Then(c, "HTTP/", s1 + (s2 + (" " + s3)), hc, p, d.log);
    EmitStatus(c.log, m);
  }

  lemma EmitStatus(log: seq<Event>, m: Reply)
    ensures var begun := log + [Notify(MessageBegin)];
            Emit(log, StatusEvents(m)) == if m.reason == [] then begun else Push(begun, Data(OnStatus, m.reason))
  {
    var x := [Notify(MessageBegin)];
    EmitOne(log, x[0]);
    if m.reason == [] {
      assert StatusEvents(m) == x;
    } else {
      EmitConcat(log, x, [Data(OnStatus, m.reason)]);
      EmitOne(log + x, Data(OnStatus, m.reason));
    }
  }

  // ---------------------------------------------------------------- framing

  function ReplyFlags(m: Reply): Flags { AllFlags(NO_FLAGS, m.headers) }

  function ReplyLength(m: Reply): nat
    requires AreHeaders(NO_FLAGS, m.headers)
  {
    AllLength(NO_FLAGS, ULLONG_MAX, m.headers)
  }

  predicate NeverBody(status: nat) { status / 100 == 1 || status == 204 || status == 304 }

  // The body is chunked if the headers say so, else it has the declared length, else it ends with the
  // connection, unless the status allows none.
  predicate ReplyFramed(m: Reply)
    requires IsStatusLine(m) && AreHeaders(NO_FLAGS, m.headers)
  {
    var f, n := ReplyFlags(m), ReplyLength(m);
    match m.content
    case Closed(Chunked(coding)) => f.chunked && !f.contentLength && IsCoding(f, coding)
    case Closed(Plain(data)) =>
      !f.chunked && if n == ULLONG_MAX then data == [] && NeverBody(StatusOf(m)) else |data| == n
    case Open(data) => !f.chunked && n == ULLONG_MAX && !NeverBody(StatusOf(m))
  }

  predicate IsReply(m: Reply) {
    && IsStatusLine(m) && AreHeaders(NO_FLAGS, m.headers) && ReplyFramed(m)
    && !(ReplyFlags(m).upgrade && ReplyFlags(m).connectionUpgrade)
  }

  function ContentBytes(z: Content): Bytes {
    match z
    case Closed(b) => PrintBody(b)
    case Open(data) => data
  }

  // A body that ends with the connection is not complete before.
  function ContentEvents(z: Content): seq<Event> {
    match z
    case Closed(b) => BodyEvents(b)
    case Open(data) => if data == [] then [] else [Data(OnBody, data)]
  }

  function PrintReply(m: Reply): Bytes {
    StatusLine(m) + (PrintHeaders(m.headers) + ("\r\n" + ContentBytes(m.content)))
  }

  function ReplyEvents(m: Reply): seq<Event> {
    StatusEvents(m) + AllReported(m.headers) + ([Notify(HeadersComplete)] + ContentEvents(m.content))
  }

  function LastFlags(m: Reply): Flags {
    match m.content
    case Closed(Chunked(coding)) => AllFlags(Trailing(ReplyFlags(m)), coding.trailers)
    case _ => ReplyFlags(m)
  }

  // http_should_keep_alive.
  predicate ReplyPersists(m: Reply) {
    && m.content.Closed?
    && if m.major != '0' && m.minor != '0' then !LastFlags(m).close else LastFlags(m).keepAlive
  }

  // ---------------------------------------------------------------- bodies

  // The parser c.p has read the headers of m.
  predicate ReplyHeaded(c: Config, m: Reply)
    requires IsStatusLine(m) && AreHeaders(NO_FLAGS, m.headers)
  {
    && Running(c) && Plainly(c.p) && c.p.typ == Response && c.p.flags == ReplyFlags(m)
    && c.p.contentLength == ReplyLength(m) && c.p.status == StatusOf(m)
    && c.p.major == DigitOf(m.major) && c.p.minor == DigitOf(m.minor)
  }

  predicate ReplyEnded(d: Config, m: Reply) {
    && Running(d) && d.p.typ == Response && d.p.meth != CONNECT
    && d.p.state == if m.content.Open? then AtBody(BodyIdentityEof)
                    else AtStart(if ReplyPersists(m) then StartRes else Dead)
  }

  lemma ReplyContinues(p: Parser, m: Reply)
    requires IsStatusLine(m) && m.content.Closed? && p.typ == Response && p.flags == LastFlags(m) && !NeedsEof(p)
    requires p.major == DigitOf(m.major) && p.minor == DigitOf(m.minor)
    ensures NewMessage(p) == if ReplyPersists(m) then StartRes else Dead
  {
    hide LastFlags, NeedsEof;
  }

  lemma PlainReply(c: Config, m: Reply, hc: Callback) returns (d: Config)
    requires IsStatusLine(m) && AreHeaders(NO_FLAGS, m.headers) && ReplyFramed(m) && ReplyHeaded(c, m)
    requires m.content.Closed? && m.content.body.Plain? && forall p :: hc(p) == Proceed
    ensures d == Run(c, "\r\n" + m.content.body.data, hc) && ReplyEnded(d, m)
    ensures d.log == Emit(c.log, [Notify(HeadersComplete)] + BodyEvents(m.content.body))
  {
    hide Run, AreHeaders, AllFlags, AllLength, NewMessage, ReplyPersists;
    var data := m.content.body.data;
    d := Run(c, "\r\n" + data, hc);
    if data == [] {
      assert "\r\n" + data == "\r\n";
      HeadersEndMessage(c, hc);
      ReplyContinues(c.p, m);
      EmitNotes(c.log);
      assert [Notify(HeadersComplete)] + BodyEvents(m.content.body) ==
             [Notify(HeadersComplete), Notify(MessageComplete)];
    } else {
      LengthBounded(NO_FLAGS, ULLONG_MAX, m.headers);
      HeadersEndBody(c, hc);
      var e := Run(c, "\r\n", hc);
      RunConcat(c, "\r\n", data, hc);
      IdentityComplete(e, data, hc);
      ReplyContinues(e.p.(contentLength := 0), m);
      EmitBody(c.log, data);
      assert [Notify(HeadersComplete)] + BodyEvents(m.content.body) ==
             [Notify(HeadersComplete), Data(OnBody, data), Notify(MessageComplete)];
    }
  }

  lemma ChunkedReply(c: Config, m: Reply, hc: Callback) returns (d: Config)
    requires IsStatusLine(m) && AreHeaders(NO_FLAGS, m.headers) && ReplyFramed(m) && ReplyHeaded(c, m)
    requires m.content.Closed? && m.content.body.Chunked? && forall p :: hc(p) == Proceed
    ensures d == Run(c, "\r\n" + PrintBody(m.content.body), hc) && ReplyEnded(d, m)
    ensures d.log == Emit(c.log, [Notify(HeadersComplete)] + BodyEvents(m.content.body))
  {
    hide Run, AreHeaders, AllLength, NewMessage, ReplyPersists, CodingEvents, IsCoding, AllFlags;
    HeadersEndBody(c, hc);
    var e := Run(c, "\r\n", hc);
    d := ChunkedRoundTrip(e, m.content.body.coding, hc);
    RunConcat(c, "\r\n", PrintBody(m.content.body), hc);
    StaysChunked(Trailing(e.p.flags), m.content.body.coding.trailers);
    ReplyContinues(d.p, m);
    EmitConcat(c.log, [Notify(HeadersComplete)], BodyEvents(m.content.body));
    EmitOne(c.log, Notify(HeadersComplete));
  }

  // Trailers do not take the chunked flag back.
  lemma {:induction false} StaysChunked(f: Flags, hs: seq<Header>)
    requires f.chunked
    ensures AllFlags(f, hs).chunked
    decreases |hs|
  {
    hide FlagsAfter;
    if hs != [] {
      ChunkedAfter(f, hs[0]);
      StaysChunked(FlagsAfter(f, hs[0]), hs[1..]);
    }
  }

  lemma ChunkedAfter(f: Flags, h: Header)
    requires f.chunked
    ensures FlagsAfter(f, h).chunked
  {
    hide NameFlags, ValueFlags, KindOf, Lowered;
    NameChunked(f, Lowered(h.name));
    ValueChunked(NameFlags(f, Lowered(h.name)), KindOf(h), h.value);
  }

  lemma NameChunked(f: Flags, u: Bytes)
    ensures NameFlags(f, u).chunked == f.chunked
  {
    hide CONTENT_LENGTH;
  }

  lemma ValueChunked(f: Flags, k: HeaderState, value: Bytes)
    requires f.chunked
    ensures ValueFlags(f, k, value).chunked
  {
    hide Heard, ScanAll, IsChunked;
    HttpFramingRules.OptionsTouch(f, value);
  }

  // The empty line in front of a body that ends with the connection.
  lemma HeadersEndOpen(c: Config, hc: Callback)
    requires Running(c) && Plainly(c.p) && NeedsEof(c.p) && forall p :: hc(p) == Proceed
    ensures Reaches(c, "\r\n", hc, c.p.(state := AtBody(BodyIdentityEof), upgrade := false),
                    c.log + [Notify(HeadersComplete)])
  {
    hide Run, StepEvents, KeepAlive;
    ReachQuiet(c, CR, hc);
    var d := Run(c, "\r", hc);
    ReachCall(d, LF, hc, HeadersComplete);
    Then(c, "\r", "\n", hc, Run(d, "\n", hc).p, c.log + [Notify(HeadersComplete)]);
    assert "\r" + "\n" == "\r\n";
  }

  lemma OpenReply(c: Config, m: Reply, hc: Callback) returns (d: Config)
    requires IsStatusLine(m) && AreHeaders(NO_FLAGS, m.headers) && ReplyFramed(m) && ReplyHeaded(c, m)
    requires m.content.Open? && forall p :: hc(p) == Proceed
    ensures d == Run(c, "\r\n" + m.content.data, hc) && ReplyEnded(d, m)
    ensures d.log == Emit(c.log, [Notify(HeadersComplete)] + ContentEvents(m.content))
  {
    hide Run, AreHeaders, AllFlags, AllLength, Emit;
    var data := m.content.data;
    d := Run(c, "\r\n" + data, hc);
    HeadersEndOpen(c, hc);
    var e := Run(c, "\r\n", hc);
    EmitOne(c.log, Notify(HeadersComplete));
    if data == [] {
      assert "\r\n" + data == "\r\n" && [Notify(HeadersComplete)] + [] == [Notify(HeadersComplete)];
    } else {
      RunConcat(c, "\r\n", data, hc);
      EofRun(e, data, hc);
      EmitConcat(c.log, [Notify(HeadersComplete)], [Data(OnBody, data)]);
      EmitOne(e.log, Data(OnBody, data));
    }
  }

  // ---------------------------------------------------------------- round trips

  // A well-formed response is reported in full.  If its body does not end with the connection the
  // parser is then between messages, or dead if the connection does not persist; otherwise it waits for
  // the end, which completes the message.
  lemma ReplyRoundTrip(c: Config, m: Reply, hc: Callback) returns (d: Config)
    requires Running(c) && c.p.typ == Response && c.p.meth != CONNECT && c.p.state == AtStart(StartRes) && IsReply(m)
    requires forall p :: hc(p) == Proceed
    ensures d == Run(c, PrintReply(m), hc) && ReplyEnded(d, m) && d.log == Emit(c.log, ReplyEvents(m))
  {
    hide Run, AreHeaders, AllFlags, AllLength, IsStatusLine, ReplyFramed, StatusLine, BodyEvents, AllReported, Emit;
    hide StatusEvents;
    StatusLineRun(c, m, hc);
    var c1 := Run(c, StatusLine(m), hc);
    var rest := "\r\n" + ContentBytes(m.content);
    assert rest[0] == CR;
    var e := HeaderBlock(c1, m.headers, rest, hc);
    RunConcat(c, StatusLine(m), PrintHeaders(m.headers) + rest, hc);
    FlagsKept(NO_FLAGS, m.headers);
    assert ReplyHeaded(e, m) by { ReplyFramedOnce(m); }
    if m.content.Open? {
      d := OpenReply(e, m, hc);
    } else if m.content.body.Plain? {
      d := PlainReply(e, m, hc);
    } else {
      d := ChunkedReply(e, m, hc);
    }
    var a, b := StatusEvents(m), AllReported(m.headers);
    EmitConcat(c.log, a, b);
    EmitConcat(c.log, a + b, [Notify(HeadersComplete)] + ContentEvents(m.content));
  }

  lemma ReplyFramedOnce(m: Reply)
    requires IsStatusLine(m) && AreHeaders(NO_FLAGS, m.headers) && ReplyFramed(m)
    ensures !(ReplyFlags(m).chunked && ReplyFlags(m).contentLength)
  {
  }

  // Responses in the sense of IsReply exist.
  lemma SomeReply()
    ensures IsReply(Reply('1', '1', '2', '0', '0', "OK", [], Open("abc")))
  {
  }

  function PrintReplies(ms: seq<Reply>): Bytes
    decreases |ms|
  {
    if ms == [] then [] else PrintReply(ms[0]) + PrintReplies(ms[1..])
  }

  function RepliesEvents(ms: seq<Reply>): seq<Event>
    decreases |ms|
  {
    if ms == [] then [] else ReplyEvents(ms[0]) + RepliesEvents(ms[1..])
  }

  // Responses that can follow each other on one connection.
  predicate AreReplies(ms: seq<Reply>) {
    forall i :: 0 <= i < |ms| ==> IsReply(ms[i]) && (i < |ms| - 1 ==> ReplyPersists(ms[i]))
  }

  // Any number of responses on one connection.
  lemma {:induction false} RepliesRoundTrip(c: Config, ms: seq<Reply>, hc: Callback) returns (d: Config)
    requires Running(c) && c.p.typ == Response && c.p.meth != CONNECT && c.p.state == AtStart(StartRes)
    requires AreReplies(ms) && forall p :: hc(p) == Proceed
    ensures d == Run(c, PrintReplies(ms), hc) && Running(d) && d.log == Emit(c.log, RepliesEvents(ms))
    ensures ms != [] ==> ReplyEnded(d, ms[|ms| - 1])
    decreases |ms|
  {
    hide Run, IsReply, ReplyEvents, PrintReply, ReplyPersists, Emit;
    if ms == [] {
      ReachNothing(c, hc);
      EmitNone(c.log);
      d := Run(c, [], hc);
    } else {
      d := ReplyRoundTrip(c, ms[0], hc);
      EmitConcat(c.log, ReplyEvents(ms[0]), RepliesEvents(ms[1..]));
      RunConcat(c, PrintReply(ms[0]), PrintReplies(ms[1..]), hc);
      if |ms| > 1 {
        assert ReplyPersists(ms[0]);
        PersistsClosed(ms[0]);
        d := RepliesRoundTrip(d, ms[1..], hc);
      } else {
        EmitNone(d.log);
        ReachNothing(d, hc);
        d := Run(d, [], hc);
      }
    }
  }

  lemma PersistsClosed(m: Reply)
    requires ReplyPersists(m)
    ensures m.content.Closed?
  {
  }

  // ---------------------------------------------------------------- in pieces

  lemma ReplyShowsNothing(m: Reply)
    requires IsReply(m)
    ensures !ShowsControl(ReplyEvents(m))
  {
    hide AreHeaders, AllReported, BodyEvents, IsCoding, AllFlags, AllLength, IsStatusLine, StatusEvents;
    var a, b, z := StatusEvents(m), AllReported(m.headers), [Notify(HeadersComplete)];
    HeadersShowNothing(NO_FLAGS, m.headers);
    assert !ShowsControl(ContentEvents(m.content)) by {
      if m.content.Closed? {
        BodyShowsNothing(ReplyFlags(m), m.content.body);
      }
    }
    assert !ShowsControl(a) by { StatusShowsNothing(m); }
    ShowsEither(z, ContentEvents(m.content));
    ShowsEither(a, b);
    ShowsEither(a + b, z + ContentEvents(m.content));
  }

  lemma StatusShowsNothing(m: Reply)
    ensures !ShowsControl(StatusEvents(m))
  {
  }

  lemma {:induction false} RepliesShowNothing(ms: seq<Reply>)
    requires AreReplies(ms)
    ensures !ShowsControl(RepliesEvents(ms))
    decreases |ms|
  {
    hide IsReply, ReplyEvents, ReplyPersists;
    if ms != [] {
      ReplyShowsNothing(ms[0]);
      RepliesShowNothing(ms[1..]);
      ShowsEither(ReplyEvents(ms[0]), RepliesEvents(ms[1..]));
    }
  }

  // However the responses are cut into buffers, a fresh parser reports every one of them.
  lemma RepliesInPieces(ms: seq<Reply>, buffers: seq<Bytes>, lenient: bool, hc: Callback)
    requires AreReplies(ms) && Flatten(buffers) == PrintReplies(ms) && NonEmpty(buffers)
    requires forall p :: hc(p) == Proceed
    ensures var d := FeedAll(Start(Response, lenient), buffers, hc);
            Running(d) && d.log == Emit([], RepliesEvents(ms)) && d.pos == |PrintReplies(ms)|
  {
    hide Run, AreReplies, PrintReplies, RepliesEvents, FeedAll, Flatten, Emit, HasControl;
    var c := Start(Response, lenient);
    var d := RepliesRoundTrip(c, ms, hc);
    RunPos(c, PrintReplies(ms), hc);
    RepliesShowNothing(ms);
    EmitControl([], RepliesEvents(ms));
    PlainCuts(c, buffers, hc);
  }
}
