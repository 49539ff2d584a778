/**
 Streams of requests through the parser object: within the header budget every request is reported,
 however the stream is cut.
 */
module HttpStreams {
  import opened HttpTypes
  import opened HttpStep
  import opened HttpRun
  import opened HttpBlocks
  import opened HttpCuts
  import opened HttpReach
  import opened HttpBudget
  import opened HttpValues
  import opened HttpRequests
  import opened HttpSession
  import opened HttpExecute

  // ---------------------------------------------------------------- what a request counts

  function HeadOf(m: Message): Bytes { RequestLine(m) + (PrintHeaders(m.headers) + "\r\n") }

  // The bytes of a body that may count: a chunked one has size lines and trailers.
  function TailOf(m: Message): nat { if m.body.Plain? then 0 else |PrintBody(m.body)| }

  // The largest count a stream needs, when `carry` bytes have been counted before it.
  function Need(carry: nat, ms: seq<Message>): nat
    decreases |ms|
  {
    if ms == [] then carry
    else Max(Max(carry + |HeadOf(ms[0])|, TailOf(ms[0])), Need(TailOf(ms[0]), ms[1..]))
  }

  lemma EmptyLineResets(c: Config, hc: Callback)
    requires Running(c) && Ordinary(c.p) && forall p :: hc(p) == Proceed
    ensures Run(c, "\r\n", hc).nread == 0
  {
    hide Run, StepEvents, Emit, AfterHeaders;
    ReachQuiet(c, CR, hc);
    var d := Run(c, "\r", hc);
    RunConcat(c, "\r", "\n", hc);
    RunOne(d, LF, hc);
    assert "\r" + "\n" == "\r\n";
  }

  // Behind the head nothing is counted.
  lemma HeadResets(c: Config, m: Message, hc: Callback) returns (e: Config)
    requires Running(c) && c.p.typ == ParserType.Request && c.p.state == AtStart(StartReq) && IsRequest(m)
    requires forall p :: hc(p) == Proceed
    ensures Headed(e, m) && Run(c, HeadOf(m), hc) == Run(e, "\r\n", hc) && Run(c, HeadOf(m), hc).nread == 0
  {
    hide Run, AreHeaders, AllFlags, AllLength, IsRequestLine, Framed, RequestLine, AllReported, Emit;
    LineRun(c, m, hc);
    var c1 := Run(c, RequestLine(m), hc);
    e := HeaderBlock(c1, m.headers, "\r\n", hc);
    RunConcat(c, RequestLine(m), PrintHeaders(m.headers) + "\r\n", hc);
    FlagsKept(NO_FLAGS, m.headers);
    LineParts(c.p, m);
    FramedOnce(m);
    EmptyLineResets(e, hc);
  }

  // Body bytes are not counted.
  lemma {:induction false} BodyUncounted(c: Config, s: Bytes, hc: Callback)
    requires Running(c) && c.p.state == AtBody(BodyIdentity) && |s| <= c.p.contentLength
    ensures HighWater(c, s, hc) == Run(c, s, hc).nread == c.nread
    decreases |s|
  {
    hide StepEvents, Emit, NewMessage;
    if s != [] {
      var d := Advance(c, s[0], hc);
      if |s| < c.p.contentLength || c.p.contentLength > 1 {
        BodyUncounted(d, s[1..], hc);
      }
    }
  }

  lemma MessageCounts(c: Config, m: Message, hc: Callback)
    requires Running(c) && c.p.typ == ParserType.Request && c.p.state == AtStart(StartReq) && IsRequest(m)
    requires forall p :: hc(p) == Proceed
    ensures HighWater(c, PrintMessage(m), hc) <= Max(c.nread + |HeadOf(m)|, TailOf(m))
    ensures Run(c, PrintMessage(m), hc).nread <= TailOf(m)
  {
    hide Run, HighWater, HeadOf, AreHeaders, Framed, IsRequestLine, AllFlags, AllLength;
    var head, body := HeadOf(m), PrintBody(m.body);
    assert PrintMessage(m) == head + body by { HeadAndBody(m); }
    var e := HeadResets(c, m, hc);
    var d := Run(c, head, hc);
    RunConcat(c, head, body, hc);
    HighWaterConcat(c, head, body, hc);
    HighWaterBound(c, head, hc);
    HighWaterBound(d, body, hc);
    assert body[..|body|] == body;
    HighWaterAt(d, body, |body|, hc);
    if m.body.Plain? {
      PlainUncounted(e, m, hc);
    }
  }

  lemma HeadAndBody(m: Message)
    ensures PrintMessage(m) == HeadOf(m) + PrintBody(m.body)
  {
    hide RequestLine, PrintHeaders, PrintBody;
    var a, b, z := RequestLine(m), PrintHeaders(m.headers), PrintBody(m.body);
    assert a + (b + ("\r\n" + z)) == (a + (b + "\r\n")) + z;
  }

  lemma PlainUncounted(e: Config, m: Message, hc: Callback)
    requires AreHeaders(NO_FLAGS, m.headers) && Framed(m) && m.body.Plain? && Headed(e, m)
    requires forall p :: hc(p) == Proceed
    ensures var d := Run(e, "\r\n", hc); HighWater(d, m.body.data, hc) == d.nread
  {
    hide Run, AreHeaders, AllFlags, AllLength, NewMessage;
    var data := m.body.data;
    if data == [] {
      NothingCounts(Run(e, "\r\n", hc), hc);
    } else {
      LengthBounded(NO_FLAGS, ULLONG_MAX, m.headers);
      HeadersEndBody(e, hc);
      BodyUncounted(Run(e, "\r\n", hc), data, hc);
    }
  }

  lemma NothingCounts(c: Config, hc: Callback)
    ensures HighWater(c, [], hc) == c.nread
  {
    hide Advance;
  }

  lemma {:induction false} StreamCounts(c: Config, ms: seq<Message>, carry: nat, hc: Callback)
    requires Running(c) && c.p.typ == ParserType.Request && c.p.state == AtStart(StartReq) && IsStream(ms)
    requires c.nread <= carry && forall p :: hc(p) == Proceed
    ensures HighWater(c, PrintAll(ms), hc) <= Need(carry, ms)
    decreases |ms|
  {
    hide Run, HighWater, IsRequest, PrintMessage, Persists, MessageEvents, TailOf, HeadOf;
    if ms == [] {
      NothingCounts(c, hc);
    } else {
      var m := ms[0];
      MessageCounts(c, m, hc);
      var d := RequestRoundTrip(c, m, hc);
      HighWaterConcat(c, PrintMessage(m), PrintAll(ms[1..]), hc);
      if |ms| > 1 {
        StreamCounts(d, ms[1..], TailOf(m), hc);
      } else {
        assert PrintAll(ms[1..]) == [];
        NothingCounts(d, hc);
      }
    }
  }

  // ---------------------------------------------------------------- the object

  /** A fresh parser object, fed a stream of requests in any non-empty buffers: if no head, with the
      chunked body in front of it, and no chunked body is longer than the header budget less one byte for
      every buffer, every request is reported and every byte consumed. */
  method ExecuteStream(p: HttpParser, buffers: seq<Bytes>, ghost ms: seq<Message>, ghost lenient: bool)
    returns (total: nat)
    requires p.Valid() && p.st.errno == OK && p.hist == Start(ParserType.Request, lenient) && p.calls == 0
    requires IsStream(ms) && Flatten(buffers) == PrintAll(ms) && NonEmpty(buffers)
    requires forall i :: 0 <= i < |buffers| ==> |buffers[i]| + HTTP_MAX_HEADER_SIZE < 0xffff_ffff
    requires Need(0, ms) + |buffers| < HTTP_MAX_HEADER_SIZE && forall q :: p.hc(q) == Proceed
    modifies p
    ensures p.Valid() && p.st.errno == OK && total == |PrintAll(ms)| && Emit([], p.log) == Emit([], AllEvents(ms))
  {
    hide Run, IsStream, PrintAll, AllEvents, Flatten, Emit, HasControl, HighWater, Need;
    ghost var c := p.hist;
    ghost var d := StreamRoundTrip(c, ms, p.hc);
    StreamShowsNothing(ms);
    EmitControl([], AllEvents(ms));
    StreamCounts(c, ms, 0, p.hc);
    var fed, n;
    fed, total, n := ExecuteAll(p, buffers);
    assert p.log + [] == p.log;
  }
}
