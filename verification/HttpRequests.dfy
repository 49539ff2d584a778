/**
 Whole requests, and connections that carry any number of them: what is printed is what the
 parser reports.
 */
module HttpRequests {
  import opened HttpTypes
  import opened HttpStep
  import opened HttpRun
  import opened HttpBlocks
  import opened HttpCuts
  import opened HttpReach
  import opened HttpLengths
  import opened HttpMethods
  import opened HttpHeaders
  import opened HttpValues
  import opened HttpChunks
  import opened UrlStates

  // ---------------------------------------------------------------- the request line

  function Began(p: Parser, m: Method): Parser {
    Cleared(p).(meth := m, index := |MethodName(m)| + 1, state := AtUrl(ReqSpacesBeforeUrl))
  }

  lemma MethodFirst(c: Config, m: Method, hc: Callback)
    requires Running(c) && c.p.state == AtStart(StartReq)
    ensures |MethodName(m)| >= 1
    ensures Reaches(c, [MethodName(m)[0]], hc,
                    Cleared(c.p).(meth := Candidate(m, 1), index := 1, state := AtStart(ReqMethod)),
                    c.log + [Notify(MessageBegin)])
  {
    hide Run, StepEvents, MethodName, Candidate, FirstCandidate, IsAlpha;
    FirstComplete(m);
    var ch := MethodName(m)[0];
    FirstSound(ch);
    NoControls(m, 0);
    ReachCall(c, ch, hc, MessageBegin);
  }

  lemma MethodNext(c: Config, m: Method, i: nat, hc: Callback)
    requires Running(c) && c.p.state == AtStart(ReqMethod) && 1 <= i < |MethodName(m)|
    requires c.p.index == i && c.p.meth == Candidate(m, i)
    ensures Reaches(c, [MethodName(m)[i]], hc, c.p.(meth := Candidate(m, i + 1), index := i + 1), c.log)
  {
    hide Run, StepEvents, MethodName, Candidate, NextCandidate;
    FollowComplete(m, i);
    NoControls(m, i);
    ReachQuiet(c, MethodName(m)[i], hc);
  }

  lemma {:induction false} MethodPart(c: Config, m: Method, i: nat, hc: Callback)
    requires Running(c) && c.p.state == AtStart(StartReq) && 1 <= i <= |MethodName(m)|
    ensures Reaches(c, MethodName(m)[..i], hc,
                    Cleared(c.p).(meth := Candidate(m, i), index := i, state := AtStart(ReqMethod)),
                    c.log + [Notify(MessageBegin)])
    decreases i
  {
    hide Run, MethodName, Candidate;
    var name := MethodName(m);
    if i == 1 {
      MethodFirst(c, m, hc);
      assert name[..1] == [name[0]];
    } else {
      MethodPart(c, m, i - 1, hc);
      var d := Run(c, name[..i - 1], hc);
      MethodNext(d, m, i - 1, hc);
      assert name[..i] == name[..i - 1] + [name[i - 1]];
      Then(c, name[..i - 1], [name[i - 1]], hc,
           Cleared(c.p).(meth := Candidate(m, i), index := i, state := AtStart(ReqMethod)), d.log);
    }
  }

  lemma MethodRun(c: Config, m: Method, hc: Callback)
    requires Running(c) && c.p.state == AtStart(StartReq)
    ensures Reaches(c, MethodName(m) + " ", hc, Began(c.p, m), c.log + [Notify(MessageBegin)])
  {
    hide Run, MethodName, Candidate, StepEvents;
    var name := MethodName(m);
    FirstComplete(m);
    MethodPart(c, m, |name|, hc);
    CandidateLast(m, |name|);
    assert name[..|name|] == name;
    var d := Run(c, name, hc);
    ReachQuiet(d, ' ', hc);
    Then(c, name, " ", hc, Began(c.p, m), d.log);
  }

  lemma VersionByte(c: Config, s: VersionState, ch: Byte, hc: Callback)
    requires Running(c) && c.p.state == AtVersion(s) && VersionTransition(c.p, s, ch).p.errno == OK
    ensures Reaches(c, [ch], hc, VersionTransition(c.p, s, ch).p, c.log)
  {
    hide Run, StepEvents, VersionTransition;
    VersionQuiet(c.p, s, ch);
    ReachQuiet(c, ch, hc);
  }

  lemma VersionQuiet(p: Parser, s: VersionState, ch: Byte)
    ensures VersionTransition(p, s, ch).acts == Nil
  {
  }

  lemma ProtocolRun(c: Config, hc: Callback)
    requires Running(c) && c.p.state == AtVersion(ReqHttpStart)
    ensures Reaches(c, "HTTP/", hc, c.p.(state := AtVersion(ReqFirstMajor)), c.log)
  {
    hide Run;
    var p, l := c.p, c.log;
    VersionByte(c, ReqHttpStart, 'H', hc);
    var c1 := Run(c, "H", hc);
    VersionByte(c1, ReqHttpH, 'T', hc);
    var c2 := Run(c1, "T", hc);
    VersionByte(c2, ReqHttpHT, 'T', hc);
    var c3 := Run(c2, "T", hc);
    VersionByte(c3, ReqHttpHTT, 'P', hc);
    var c4 := Run(c3, "P", hc);
    VersionByte(c4, ReqHttpHTTP, '/', hc);
    Then(c3, "P", "/", hc, p.(state := AtVersion(ReqFirstMajor)), l);
    Then(c2, "T", "P" + "/", hc, p.(state := AtVersion(ReqFirstMajor)), l);
    Then(c1, "T", "T" + ("P" + "/"), hc, p.(state := AtVersion(ReqFirstMajor)), l);
    Then(c, "H", "T" + ("T" + ("P" + "/")), hc, p.(state := AtVersion(ReqFirstMajor)), l);
    assert "H" + ("T" + ("T" + ("P" + "/"))) == "HTTP/";
  }

  lemma NumbersRun(c: Config, a: Byte, b: Byte, hc: Callback)
    requires Running(c) && c.p.state == AtVersion(ReqFirstMajor) && '1' <= a <= '9' && IsNum(b)
    ensures Reaches(c, [a, '.', b, CR, LF], hc,
                    c.p.(state := AtField(HeaderFieldStart), major := DigitOf(a), minor := DigitOf(b)), c.log)
  {
    hide Run;
    var p, l := c.p.(state := AtField(HeaderFieldStart), major := DigitOf(a), minor := DigitOf(b)), c.log;
    VersionByte(c, ReqFirstMajor, a, hc);
    var c1 := Run(c, [a], hc);
    VersionByte(c1, ReqMajor, '.', hc);
    var c2 := Run(c1, ".", hc);
    VersionByte(c2, ReqFirstMinor, b, hc);
    var c3 := Run(c2, [b], hc);
    VersionByte(c3, ReqMinor, CR, hc);
    var c4 := Run(c3, [CR], hc);
    VersionByte(c4, ReqLineAlmostDone, LF, hc);
    Then(c3, [CR], [LF], hc, p, l);
    Then(c2, [b], [CR] + [LF], hc, p, l);
    Then(c1, ".", [b] + ([CR] + [LF]), hc, p, l);
    Then(c, [a], "." + ([b] + ([CR] + [LF])), hc, p, l);
    assert [a] + ("." + ([b] + ([CR] + [LF]))) == [a, '.', b, CR, LF];
  }

  // ---------------------------------------------------------------- requests

  // A request: a body is either delimited by its length or chunked.
  datatype Message = Message(
    meth: Method, url: Bytes, major: Byte, minor: Byte, headers: seq<Header>, body: Body)

  datatype Body = Plain(data: Bytes) | Chunked(coding: Coding)

  function RequestLine(m: Message): Bytes {
    (MethodName(m.meth) + " ") + ((m.url + " ") + ("HTTP/" + [m.major, '.', m.minor, CR, LF]))
  }

  function PrintBody(b: Body): Bytes {
    match b
    case Plain(data) => data
    case Chunked(coding) => PrintCoding(coding)
  }

  function PrintMessage(m: Message): Bytes {
    RequestLine(m) + (PrintHeaders(m.headers) + ("\r\n" + PrintBody(m.body)))
  }

  // What the headers say.
  function HeaderFlags(m: Message): Flags { AllFlags(NO_FLAGS, m.headers) }

  function DeclaredLength(m: Message): nat
    requires AreHeaders(NO_FLAGS, m.headers)
  {
    AllLength(NO_FLAGS, ULLONG_MAX, m.headers)
  }

  // Rules 3, 5 and 6 of section 3.3.3 of RFC 7230: the body is chunked if the headers say so, else
  // it has the declared length, else there is none.
  predicate Framed(m: Message)
    requires AreHeaders(NO_FLAGS, m.headers)
  {
    var f, n := HeaderFlags(m), DeclaredLength(m);
    match m.body
    case Chunked(coding) => f.chunked && !f.contentLength && IsCoding(f, coding)
    case Plain(data) => !f.chunked && |data| == if n == ULLONG_MAX then 0 else n
  }

  predicate IsRequestLine(m: Message) {
    && UrlText(m.url) && IsUrl(m.meth == CONNECT, m.url)
    && '1' <= m.major <= '9' && IsNum(m.minor)
  }

  // The request asks for no other protocol on its connection.
  predicate StaysHttp(m: Message) {
    m.meth != CONNECT && !(HeaderFlags(m).upgrade && HeaderFlags(m).connectionUpgrade)
  }

  predicate IsRequest(m: Message) {
    IsRequestLine(m) && AreHeaders(NO_FLAGS, m.headers) && Framed(m) && StaysHttp(m)
  }

  // The flags at the end of the message, trailers included.
  function FinalFlags(m: Message): Flags {
    match m.body
    case Plain(_) => HeaderFlags(m)
    case Chunked(coding) => AllFlags(Trailing(HeaderFlags(m)), coding.trailers)
  }

  // http_should_keep_alive: a minor version other than 0 persists unless told to close, and minor
  // version 0, also of 2.0, only if told to.  For 1.0 and 1.1 that is section 6.3 of RFC 7230.
  predicate Persists(m: Message) {
    if m.minor != '0' then !FinalFlags(m).close else FinalFlags(m).keepAlive
  }

  function BodyEvents(b: Body): seq<Event> {
    match b
    case Plain(data) => (if data == [] then [] else [Data(OnBody, data)]) + [Notify(MessageComplete)]
    case Chunked(coding) => CodingEvents(coding)
  }

  // What the parser reports of a request.
  function MessageEvents(m: Message): seq<Event> {
    [Notify(MessageBegin), Data(OnUrl, m.url)] + AllReported(m.headers)
    + ([Notify(HeadersComplete)] + BodyEvents(m.body))
  }

  // The parser after the request line.
  function Lined(p: Parser, m: Message): Parser
    requires IsRequestLine(m)
  {
    Began(p, m.meth).(state := AtField(HeaderFieldStart), major := DigitOf(m.major), minor := DigitOf(m.minor))
  }

  lemma LineRun(c: Config, m: Message, hc: Callback)
    requires Running(c) && c.p.state == AtStart(StartReq) && IsRequestLine(m)
    ensures Reaches(c, RequestLine(m), hc, Lined(c.p, m), c.log + [Notify(MessageBegin), Data(OnUrl, m.url)])
  {
    hide Run, MethodName, IsUrl, UrlText;
    var s1, s2, s3, s4 := MethodName(m.meth) + " ", m.url + " ", "HTTP/", [m.major, '.', m.minor, CR, LF];
    MethodRun(c, m.meth, hc);
    var c1 := Run(c, s1, hc);
    UrlNotEmpty(m);
    UrlScanned(c1, m.url, ' ', hc);
    var c2 := Run(c1, s2, hc);
    assert c2.log == c.log + [Notify(MessageBegin), Data(OnUrl, m.url)];
    ProtocolRun(c2, hc);
    var c3 := Run(c2, s3, hc);
    NumbersRun(c3, m.major, m.minor, hc);
    Then(c2, s3, s4, hc, Lined(c.p, m), c2.log);
    Then(c1, s2, s3 + s4, hc, Lined(c.p, m), c2.log);
    Then(c, s1, s2 + (s3 + s4), hc, Lined(c.p, m), c2.log);
  }

  lemma UrlNotEmpty(m: Message)
    requires IsRequestLine(m)
    ensures m.url != []
  {
  }

  // ---------------------------------------------------------------- the end of the headers

  // A parser behind the headers of a message that stays with HTTP,
  predicate Plainly(p: Parser) {
    && p.state == AtField(HeaderFieldStart) && p.meth != CONNECT
    && !(p.flags.upgrade && p.flags.connectionUpgrade) && !p.flags.trailing && !p.flags.skipBody
    && !(p.flags.chunked && p.flags.contentLength)
  }

  // and of a request.
  predicate Ordinary(p: Parser) { p.typ == ParserType.Request && Plainly(p) }

  // The empty line, when a body follows.
  lemma HeadersEndBody(c: Config, hc: Callback)
    requires Running(c) && Plainly(c.p) && forall p :: hc(p) == Proceed
    requires c.p.flags.chunked || (c.p.contentLength != 0 && c.p.contentLength != ULLONG_MAX)
    ensures Reaches(c, "\r\n", hc,
                    c.p.(state := if c.p.flags.chunked then AtChunkSize(ChunkSizeStart) else AtBody(BodyIdentity),
                         upgrade := false),
                    c.log + [Notify(HeadersComplete)])
  {
    hide Run, StepEvents, KeepAlive;
    ReachQuiet(c, CR, hc);
    var d := Run(c, "\r", hc);
    ReachCall(d, LF, hc, HeadersComplete);
    Then(c, "\r", "\n", hc, Run(d, "\n", hc).p, c.log + [Notify(HeadersComplete)]);
    assert "\r" + "\n" == "\r\n";
  }

  // The empty line, when no body follows.
  lemma HeadersEndMessage(c: Config, hc: Callback)
    requires Running(c) && Plainly(c.p) && forall p :: hc(p) == Proceed
    requires !c.p.flags.chunked
    requires c.p.contentLength == 0 || (c.p.contentLength == ULLONG_MAX && !NeedsEof(c.p))
    ensures Reaches(c, "\r\n", hc, c.p.(state := AtStart(NewMessage(c.p)), upgrade := false),
                    c.log + [Notify(HeadersComplete), Notify(MessageComplete)])
  {
    hide Run, StepEvents, KeepAlive;
    ReachQuiet(c, CR, hc);
    var d := Run(c, "\r", hc);
    KeepAliveState(c.p);
    TwoCalls(d, LF, hc, HeadersComplete, MessageComplete);
    Then(c, "\r", "\n", hc, Run(d, "\n", hc).p, c.log + [Notify(HeadersComplete), Notify(MessageComplete)]);
    assert "\r" + "\n" == "\r\n";
  }

  lemma KeepAliveState(p: Parser)
    ensures forall s, u :: KeepAlive(p.(state := s, upgrade := u)) == KeepAlive(p)
  {
  }

  // ---------------------------------------------------------------- bodies

  // The parser c.p has read the headers of m.
  predicate Headed(c: Config, m: Message)
    requires AreHeaders(NO_FLAGS, m.headers)
  {
    && Running(c) && Ordinary(c.p) && c.p.flags == HeaderFlags(m) && c.p.contentLength == DeclaredLength(m)
    && IsNum(m.major) && m.major != '0' && c.p.major == DigitOf(m.major)
    && IsNum(m.minor) && c.p.minor == DigitOf(m.minor)
  }

  predicate Ended(d: Config, m: Message) {
    Running(d) && d.p.typ == ParserType.Request && d.p.meth == m.meth
    && d.p.state == AtStart(if Persists(m) then StartReq else Dead)
  }

  lemma Continues(p: Parser, m: Message)
    requires p.typ == ParserType.Request && p.flags == FinalFlags(m)
    requires IsNum(m.major) && m.major != '0' && p.major == DigitOf(m.major)
    requires IsNum(m.minor) && p.minor == DigitOf(m.minor)
    ensures NewMessage(p) == if Persists(m) then StartReq else Dead
  {
    hide FinalFlags;
  }

  lemma PlainBody(c: Config, m: Message, hc: Callback) returns (d: Config)
    requires AreHeaders(NO_FLAGS, m.headers) && Framed(m) && m.body.Plain? && Headed(c, m) && c.p.meth == m.meth
    requires forall p :: hc(p) == Proceed
    ensures d == Run(c, "\r\n" + PrintBody(m.body), hc) && Ended(d, m)
    ensures d.log == Emit(c.log, [Notify(HeadersComplete)] + BodyEvents(m.body))
  {
    hide Run, AreHeaders, AllFlags, AllLength, NewMessage, Persists;
    var data := m.body.data;
    d := Run(c, "\r\n" + data, hc);
    if data == [] {
      HeadersEndMessage(c, hc);
      assert "\r\n" + data == "\r\n";
      Continues(c.p, m);
      EmitNotes(c.log);
      assert [Notify(HeadersComplete)] + BodyEvents(m.body) == [Notify(HeadersComplete), Notify(MessageComplete)];
    } else {
      LengthBounded(NO_FLAGS, ULLONG_MAX, m.headers);
      HeadersEndBody(c, hc);
      var e := Run(c, "\r\n", hc);
      RunConcat(c, "\r\n", data, hc);
      IdentityComplete(e, data, hc);
      Continues(e.p.(contentLength := 0), m);
      EmitBody(c.log, data);
      assert [Notify(HeadersComplete)] + BodyEvents(m.body) ==
             [Notify(HeadersComplete), Data(OnBody, data), Notify(MessageComplete)];
    }
  }

  lemma {:induction false} LengthBounded(f: Flags, n: nat, hs: seq<Header>)
    requires AreHeaders(f, hs) && n <= ULLONG_MAX
    ensures AllLength(f, n, hs) <= ULLONG_MAX
    decreases |hs|
  {
    hide FlagsAfter, Admits, Decimal, KindOf;
    if hs != [] {
      LengthBounded(FlagsAfter(f, hs[0]), LengthAfter(n, hs[0]), hs[1..]);
    }
  }

  lemma EmitNotes(log: seq<Event>)
    ensures Emit(log, [Notify(HeadersComplete), Notify(MessageComplete)]) ==
            log + [Notify(HeadersComplete), Notify(MessageComplete)]
  {
    var x, y := Notify(HeadersComplete), Notify(MessageComplete);
    assert [x, y] == [x] + [y];
    EmitConcat(log, [x], [y]);
    EmitOne(log, x);
    EmitOne(log + [x], y);
    assert log + [x] + [y] == log + [x, y];
  }

  lemma EmitBody(log: seq<Event>, data: Bytes)
    ensures Emit(log, [Notify(HeadersComplete), Data(OnBody, data), Notify(MessageComplete)]) ==
            Push(Push(log + [Notify(HeadersComplete)], Data(OnBody, data)), Notify(MessageComplete))
  {
    var x, y, z := Notify(HeadersComplete), Data(OnBody, data), Notify(MessageComplete);
    assert [x, y, z] == [x] + ([y] + [z]);
    EmitConcat(log, [x], [y] + [z]);
    EmitOne(log, x);
    EmitConcat(log + [x], [y], [z]);
    EmitOne(log + [x], y);
    EmitOne(Push(log + [x], y), z);
  }

  lemma ChunkedBody(c: Config, m: Message, hc: Callback) returns (d: Config)
    requires AreHeaders(NO_FLAGS, m.headers) && Framed(m) && m.body.Chunked? && Headed(c, m) && c.p.meth == m.meth
    requires forall p :: hc(p) == Proceed
    ensures d == Run(c, "\r\n" + PrintBody(m.body), hc) && Ended(d, m)
    ensures d.log == Emit(c.log, [Notify(HeadersComplete)] + BodyEvents(m.body))
  {
    hide Run, AreHeaders, AllFlags, AllLength, NewMessage, Persists, CodingEvents, IsCoding;
    HeadersEndBody(c, hc);
    var e := Run(c, "\r\n", hc);
    d := ChunkedRoundTrip(e, m.body.coding, hc);
    RunConcat(c, "\r\n", PrintBody(m.body), hc);
    Continues(d.p, m);
    EmitConcat(c.log, [Notify(HeadersComplete)], BodyEvents(m.body));
    EmitOne(c.log, Notify(HeadersComplete));
  }

  // ---------------------------------------------------------------- round trips

  // A well-formed request is reported in full, its method is recognised, and the parser ends
  // between messages, or dead if the connection does not persist.
  lemma RequestRoundTrip(c: Config, m: Message, hc: Callback) returns (d: Config)
    requires Running(c) && c.p.typ == ParserType.Request && c.p.state == AtStart(StartReq) && IsRequest(m)
    requires forall p :: hc(p) == Proceed
    ensures d == Run(c, PrintMessage(m), hc) && Ended(d, m) && d.log == Emit(c.log, MessageEvents(m))
  {
    hide Run, AreHeaders, AllFlags, AllLength, IsRequestLine, Framed, RequestLine, BodyEvents, AllReported, Emit;
    LineRun(c, m, hc);
    var c1 := Run(c, RequestLine(m), hc);
    var rest := "\r\n" + PrintBody(m.body);
    var e := HeaderBlock(c1, m.headers, rest, hc);
    RunConcat(c, RequestLine(m), PrintHeaders(m.headers) + rest, hc);
    FlagsKept(NO_FLAGS, m.headers);
    LineParts(c.p, m);
    assert Headed(e, m) by { FramedOnce(m); }
    if m.body.Plain? {
      d := PlainBody(e, m, hc);
    } else {
      d := ChunkedBody(e, m, hc);
    }
    var a, b := [Notify(MessageBegin), Data(OnUrl, m.url)], AllReported(m.headers);
    var z := [Notify(HeadersComplete)] + BodyEvents(m.body);
    EmitStart(c.log, m.url);
    EmitConcat(c.log, a, b);
    EmitConcat(c.log, a + b, z);
  }

  lemma LineParts(p: Parser, m: Message)
    requires IsRequestLine(m)
    ensures IsNum(m.major) && m.major != '0' && IsNum(m.minor)
  {
  }

  lemma FramedOnce(m: Message)
    requires AreHeaders(NO_FLAGS, m.headers) && Framed(m)
    ensures !(HeaderFlags(m).chunked && HeaderFlags(m).contentLength)
  {
  }

  lemma EmitStart(log: seq<Event>, url: Bytes)
    ensures Emit(log, [Notify(MessageBegin), Data(OnUrl, url)]) == log + [Notify(MessageBegin), Data(OnUrl, url)]
  {
    var x, y := Notify(MessageBegin), Data(OnUrl, url);
    assert [x, y] == [x] + [y];
    EmitConcat(log, [x], [y]);
    EmitOne(log, x);
    EmitOne(log + [x], y);
    assert log + [x] + [y] == log + [x, y];
  }

  function PrintAll(ms: seq<Message>): Bytes
    decreases |ms|
  {
    if ms == [] then [] else PrintMessage(ms[0]) + PrintAll(ms[1..])
  }

  function AllEvents(ms: seq<Message>): seq<Event>
    decreases |ms|
  {
    if ms == [] then [] else MessageEvents(ms[0]) + AllEvents(ms[1..])
  }

  // Requests that can follow each other on one connection.
  predicate IsStream(ms: seq<Message>) {
    forall i :: 0 <= i < |ms| ==> IsRequest(ms[i]) && (i < |ms| - 1 ==> Persists(ms[i]))
  }

  // Any number of pipelined requests: the parser consumes them all and reports each in turn.
  lemma {:induction false} StreamRoundTrip(c: Config, ms: seq<Message>, hc: Callback) returns (d: Config)
    requires Running(c) && c.p.typ == ParserType.Request && c.p.state == AtStart(StartReq) && IsStream(ms)
    requires forall p :: hc(p) == Proceed
    ensures d == Run(c, PrintAll(ms), hc) && Running(d) && d.log == Emit(c.log, AllEvents(ms))
    ensures d.pos == c.pos + |PrintAll(ms)|
    decreases |ms|
  {
    hide Run, IsRequest, MessageEvents, PrintMessage, Persists, Emit;
    if ms == [] {
      ReachNothing(c, hc);
      EmitNone(c.log);
      d := Run(c, [], hc);
    } else {
      d := RequestRoundTrip(c, ms[0], hc);
      EmitConcat(c.log, MessageEvents(ms[0]), AllEvents(ms[1..]));
      RunConcat(c, PrintMessage(ms[0]), PrintAll(ms[1..]), hc);
      if |ms| > 1 {
        d := StreamRoundTrip(d, ms[1..], hc);
      } else {
        EmitNone(d.log);
        ReachNothing(d, hc);
        d := Run(d, [], hc);
      }
    }
    RunPos(c, PrintAll(ms), hc);
  }

  // ---------------------------------------------------------------- in pieces

  // Printed header values are text.
  lemma {:induction false} HeadersShowNothing(f: Flags, hs: seq<Header>)
    requires AreHeaders(f, hs)
    ensures !ShowsControl(AllReported(hs))
    decreases |hs|
  {
    hide FlagsAfter, Admits, KindOf, IsHeaderChar;
    if hs != [] {
      HeadersShowNothing(FlagsAfter(f, hs[0]), hs[1..]);
      assert !HasControl(Reported(hs[0])[0]) && !HasControl(Reported(hs[0])[1]);
    }
  }

  lemma ShowsEither(a: seq<Event>, b: seq<Event>)
    ensures ShowsControl(a + b) ==> ShowsControl(a) || ShowsControl(b)
  {
    hide HasControl;
  }

  lemma {:induction false} ChunksShowNothing(cs: seq<Chunk>)
    ensures !ShowsControl(AllAnnounced(cs))
    decreases |cs|
  {
    if cs != [] {
      ChunksShowNothing(cs[1..]);
    }
  }

  lemma BodyShowsNothing(f: Flags, b: Body)
    requires b.Chunked? ==> IsCoding(f, b.coding)
    ensures !ShowsControl(BodyEvents(b))
  {
    hide AreHeaders, AllReported, AllAnnounced, Spells, AreChunks;
    match b
    case Plain(data) =>
    case Chunked(z) =>
      ChunksShowNothing(z.chunks);
      HeadersShowNothing(Trailing(f), z.trailers);
      ShowsEither(AllAnnounced(z.chunks), [Notify(ChunkHeader(0))]);
      ShowsEither(AllAnnounced(z.chunks) + [Notify(ChunkHeader(0))], AllReported(z.trailers));
      ShowsEither(Told(z), [Notify(ChunkComplete), Notify(MessageComplete)]);
  }

  lemma MessageShowsNothing(m: Message)
    requires IsRequest(m)
    ensures !ShowsControl(MessageEvents(m))
  {
    hide AreHeaders, AllReported, BodyEvents, ShowsControl, IsCoding, AllFlags, AllLength, IsRequestLine;
    var a, b, z := [Notify(MessageBegin), Data(OnUrl, m.url)], AllReported(m.headers), [Notify(HeadersComplete)];
    HeadersShowNothing(NO_FLAGS, m.headers);
    BodyShowsNothing(HeaderFlags(m), m.body);
    NotesShowNothing(m.url);
    ShowsEither(z, BodyEvents(m.body));
    ShowsEither(a, b);
    ShowsEither(a + b, z + BodyEvents(m.body));
  }

  lemma NotesShowNothing(url: Bytes)
    ensures !ShowsControl([Notify(MessageBegin), Data(OnUrl, url)]) && !ShowsControl([Notify(HeadersComplete)])
  {
  }

  lemma {:induction false} StreamShowsNothing(ms: seq<Message>)
    requires IsStream(ms)
    ensures !ShowsControl(AllEvents(ms))
    decreases |ms|
  {
    hide IsRequest, MessageEvents, Persists;
    if ms != [] {
      MessageShowsNothing(ms[0]);
      StreamShowsNothing(ms[1..]);
      ShowsEither(MessageEvents(ms[0]), AllEvents(ms[1..]));
    }
  }

  // The same in pieces: however the stream is cut into buffers, a fresh parser reports every request
  // and consumes every byte.
  lemma StreamInPieces(ms: seq<Message>, buffers: seq<Bytes>, lenient: bool, hc: Callback)
    requires IsStream(ms) && Flatten(buffers) == PrintAll(ms) && NonEmpty(buffers)
    requires forall p :: hc(p) == Proceed
    ensures var d := FeedAll(Start(ParserType.Request, lenient), buffers, hc);
            Running(d) && d.log == Emit([], AllEvents(ms)) && d.pos == |PrintAll(ms)|
  {
    hide Run, IsStream, PrintAll, AllEvents, FeedAll, Flatten, Emit, HasControl;
    var c := Start(ParserType.Request, lenient);
    var d := StreamRoundTrip(c, ms, hc);
    StreamShowsNothing(ms);
    EmitControl([], AllEvents(ms));
    PlainCuts(c, buffers, hc);
  }

  // Requests in the sense of IsRequest exist: without headers and body,
  lemma SomeGet()
    ensures IsRequest(Message(GET, "/", '1', '1', [], Plain([])))
  {
    hide NextUrlState;
    RootUrl();
  }

  // and with both.
  lemma SomePost()
    ensures IsRequest(Message(POST, "/", '1', '1', [Header("Content-Length", "3")], Plain("abc")))
  {
    hide UrlAfter, IsHeader, FlagsAfter, LengthAfter, Admits;
    RootUrl();
    var h := Header("Content-Length", "3");
    LengthHeader(h);
    assert [h][1..] == [];
    assert AreHeaders(FlagsAfter(NO_FLAGS, h), []);
    assert AllFlags(FlagsAfter(NO_FLAGS, h), []) == FlagsAfter(NO_FLAGS, h);
    assert AllFlags(NO_FLAGS, [h]) == FlagsAfter(NO_FLAGS, h);
    assert AllLength(NO_FLAGS, ULLONG_MAX, [h]) == 3;
  }

  lemma RootUrl()
    ensures UrlAfter(ReqSpacesBeforeUrl, "/") == ReqPath
  {
    assert "/"[..0] == "";
  }

  lemma LengthHeader(h: Header)
    requires h == Header("Content-Length", "3")
    ensures IsHeader(h) && Admits(NO_FLAGS, h) && FlagsAfter(NO_FLAGS, h) == NO_FLAGS.(contentLength := true)
    ensures LengthAfter(ULLONG_MAX, h) == 3
  {
    hide IsLength, Decimal, Lowered, CONTENT_LENGTH, IsToken;
    LowerLength();
    ThreeIsLength();
    LengthTokens();
  }

  lemma ThreeIsLength()
    ensures IsLength("3") && Decimal("3") == 3 && IsValue("3")
  {
    assert "3"[..0] == "";
  }

  lemma LengthTokens()
    ensures IsTokens("Content-Length") && NameState(CONTENT_LENGTH) == ContentLength
  {
  }

  lemma LowerLength()
    ensures Lowered("Content-Length") == CONTENT_LENGTH
  {
    var w := "Content-Length";
    forall i | 0 <= i < |w| ensures Lowered(w)[i] == CONTENT_LENGTH[i] {
      LoweredAt(w, i);
    }
  }
}
