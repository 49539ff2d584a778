/**
 The order of callbacks: in every run the merged log is a prefix of a sequence of messages,
 and after the last message of a connection nothing is reported any more.
 */
module HttpGrammar {
  import opened Basics
  import opened HttpTypes
  import opened HttpStep
  import opened HttpRun
  import opened HttpBlocks

  // Where a log stands in the grammar
  //   message = begin start (field value)* headers_complete [body | chunks] message_complete
  //   chunks  = (chunk_header body chunk_complete)* chunk_header(0) (field value)* chunk_complete
  // whose start is a URL in a request; in a response it is an optional status text, and
  // begin may be repeated, because s_start_res reports it for leading CR and LF too.
  datatype Place =
    | Idle | Begun | Started | Field | Value | Ready | Body
    | Chunk | ChunkBody | Chunks | Trailer | TrailerField | TrailerValue | Ended
    | Bad

  // A data callback may come in pieces, so its place takes more of the same kind.
  function Next(request: bool, g: Place, e: Event): Place {
    match g
    case Idle => if e == Notify(MessageBegin) then Begun else Bad
    case Begun =>
      if request then (if e.Data? && e.kind == OnUrl then Started else Bad)
      else if e == Notify(MessageBegin) then Begun
      else if e.Data? && e.kind == OnStatus then Started
      else HeadersNext(e)
    case Started =>
      if e.Data? && e.kind == (if request then OnUrl else OnStatus) then Started
      else HeadersNext(e)
    case Field =>
      if e.Data? && e.kind == OnHeaderField then Field
      else if e.Data? && e.kind == OnHeaderValue then Value else Bad
    case Value => if e.Data? && e.kind == OnHeaderValue then Value else HeadersNext(e)
    case Ready =>
      if e == Notify(MessageComplete) then Idle
      else if e.Data? && e.kind == OnBody then Body else ChunksNext(e)
    case Body =>
      if e.Data? && e.kind == OnBody then Body else if e == Notify(MessageComplete) then Idle else Bad
    case Chunk => if e.Data? && e.kind == OnBody then ChunkBody else Bad
    case ChunkBody =>
      if e.Data? && e.kind == OnBody then ChunkBody else if e == Notify(ChunkComplete) then Chunks else Bad
    case Chunks => ChunksNext(e)
    case Trailer => TrailersNext(e)
    case TrailerField =>
      if e.Data? && e.kind == OnHeaderField then TrailerField
      else if e.Data? && e.kind == OnHeaderValue then TrailerValue else Bad
    case TrailerValue => if e.Data? && e.kind == OnHeaderValue then TrailerValue else TrailersNext(e)
    case Ended => if e == Notify(MessageComplete) then Idle else Bad
    case Bad => Bad
  }

  function HeadersNext(e: Event): Place {
    if e.Data? && e.kind == OnHeaderField then Field
    else if e == Notify(HeadersComplete) then Ready else Bad
  }

  function ChunksNext(e: Event): Place {
    if e.Notify? && e.note.ChunkHeader? then (if e.note.length == 0 then Trailer else Chunk) else Bad
  }

  function TrailersNext(e: Event): Place {
    if e.Data? && e.kind == OnHeaderField then TrailerField
    else if e == Notify(ChunkComplete) then Ended else Bad
  }

  function PlaceOf(request: bool, g: Place, log: seq<Event>): Place
    decreases |log|
  {
    if log == [] then g else Next(request, PlaceOf(request, g, log[..|log| - 1]), log[|log| - 1])
  }

  // Two pieces of data are one.
  lemma NextTwice(request: bool, g: Place, k: Kind, a: Bytes, b: Bytes, c: Bytes)
    ensures Next(request, Next(request, g, Data(k, a)), Data(k, b)) == Next(request, g, Data(k, c))
  {
  }

  lemma PlacePush(request: bool, g: Place, log: seq<Event>, e: Event)
    ensures PlaceOf(request, g, Push(log, e)) == Next(request, PlaceOf(request, g, log), e)
  {
    hide Next;
    if e.Data? && |log| > 0 && log[|log| - 1].Data? && log[|log| - 1].kind == e.kind {
      var init, l := log[..|log| - 1], log[|log| - 1];
      var both := init + [Data(e.kind, l.bytes + e.bytes)];
      assert both[..|both| - 1] == init;
      NextTwice(request, PlaceOf(request, g, init), e.kind, l.bytes, e.bytes, l.bytes + e.bytes);
    } else {
      assert (log + [e])[..|log|] == log;
    }
  }

  lemma {:induction false} PlaceEmit(request: bool, g: Place, log: seq<Event>, es: seq<Event>)
    ensures PlaceOf(request, g, Emit(log, es)) == PlaceOf(request, PlaceOf(request, g, log), es)
    decreases |es|
  {
    hide Next;
    if es != [] {
      var init, l := es[..|es| - 1], es[|es| - 1];
      assert es == init + [l];
      EmitConcat(log, init, [l]);
      EmitOne(Emit(log, init), l);
      PlacePush(request, g, Emit(log, init), l);
      PlaceEmit(request, g, log, init);
    }
  }

  // ---------------------------------------------------------------- the actions of one byte

  // What an action does to the place: data bytes themselves do not move it.
  function ActNext(request: bool, g: Place, a: Action): Place {
    match a
    case Mark(k) => Next(request, g, Data(k, []))
    case Flush(k) => g
    case FlushThrough(k) => g
    case Call(n) => Next(request, g, Notify(n))
  }

  function ActsNext(request: bool, g: Place, acts: Actions): Place
    decreases acts
  {
    match acts
    case Nil => g
    case Do(a, rest) => ActsNext(request, ActNext(request, g, a), rest)
  }

  // The place of data of the live kind.
  predicate Settled(request: bool, g: Place, live: Option<Kind>) {
    live.Some? ==> Next(request, g, Data(live.value, [])) == g
  }

  lemma SettledNext(request: bool, g: Place, live: Option<Kind>, ch: Byte)
    requires Settled(request, g, live)
    ensures PlaceOf(request, g, Closing(live, ch)) == g && PlaceOf(request, g, Opening(live)) == g
  {
    hide Next;
    if live.Some? {
      NextTwice(request, g, live.value, [], [], [ch]);
      assert Closing(live, ch)[..0] == [] && Opening(live)[..0] == [];
    }
  }

  lemma {:induction false} PlaceConcat(request: bool, g: Place, a: seq<Event>, b: seq<Event>)
    ensures PlaceOf(request, g, a + b) == PlaceOf(request, PlaceOf(request, g, a), b)
    decreases |b|
  {
    hide Next;
    if b == [] {
      assert a + b == a;
    } else {
      assert (a + b)[..|a + b| - 1] == a + b[..|b| - 1];
      PlaceConcat(request, g, a, b[..|b| - 1]);
    }
  }

  lemma CausedPlace(request: bool, g: Place, live: Option<Kind>, a: Action, ch: Byte)
    requires Legal(live, a) && Settled(request, g, live)
    ensures PlaceOf(request, g, Caused(live, a, ch)) == ActNext(request, g, a)
    ensures Settled(request, ActNext(request, g, a), Marked(live, a))
  {
    hide Next;
    match a
    case Mark(k) =>
      assert [Data(k, [])][..0] == [];
      NextTwice(request, g, k, [], [], []);
    case Flush(k) =>
    case FlushThrough(k) => SettledNext(request, g, live, ch);
    case Call(n) => assert [Notify(n)][..0] == [];
  }

  lemma {:induction false} TracePlace(request: bool, g: Place, live: Option<Kind>, acts: Actions, ch: Byte)
    requires LegalActs(live, acts) && Settled(request, g, live)
    ensures PlaceOf(request, g, Trace(live, acts, ch)) == ActsNext(request, g, acts)
    ensures Settled(request, ActsNext(request, g, acts), LiveAfter(live, acts))
    decreases acts
  {
    hide Next, Legal, Marked, Caused, Settled, ActNext;
    match acts
    case Nil =>
    case Do(a, rest) =>
      CausedPlace(request, g, live, a, ch);
      PlaceConcat(request, g, Caused(live, a, ch), Trace(Marked(live, a), rest, ch));
      TracePlace(request, ActNext(request, g, a), Marked(live, a), rest, ch);
  }

  lemma ActsOne(request: bool, g: Place, a: Action)
    ensures ActsNext(request, g, Do(a, Nil)) == ActNext(request, g, a)
  {
  }

  // One byte moves the place as its actions say.
  lemma StepPlace(c: Config, ch: Byte, hc: Callback, request: bool, g: Place)
    requires Running(c) && g == PlaceOf(request, Idle, c.log) && Settled(request, g, StartLive(c.p.state))
    ensures PlaceOf(request, Idle, Advance(c, ch, hc).log) ==
            ActsNext(request, g, Step(c.p, ch, hc, c.skip).acts)
  {
    hide Step, Emit, Trace, LegalActs, LiveAfter, ActsNext, Settled, Opening, Closing, PlaceOf;
    var r, live := Step(c.p, ch, hc, c.skip), StartLive(c.p.state);
    StepMarks(c.p, ch, hc, c.skip);
    var closing := if r.p.errno == OK then Closing(LiveAfter(live, r.acts), ch) else [];
    var head := Opening(live) + Trace(live, r.acts, ch);
    PlaceEmit(request, Idle, c.log, head + closing);
    PlaceConcat(request, g, head, closing);
    PlaceConcat(request, g, Opening(live), Trace(live, r.acts, ch));
    SettledNext(request, g, live, ch);
    TracePlace(request, g, live, r.acts, ch);
    SettledNext(request, ActsNext(request, g, r.acts), LiveAfter(live, r.acts), ch);
    PlaceNothing(request, ActsNext(request, g, r.acts));
  }

  lemma PlaceNothing(request: bool, g: Place)
    ensures PlaceOf(request, g, []) == g
  {
  }

  // ---------------------------------------------------------------- states and places

  // The places a header block passes through: those of the headers or those of the trailers.
  predicate BeforeField(p: Parser, g: Place) {
    if p.flags.trailing then g == Trailer || g == TrailerValue
    else g == Started || g == Value || (g == Begun && p.typ == Response)
  }

  predicate InFieldPlace(p: Parser, g: Place) {
    g == if p.flags.trailing then TrailerField else Field
  }

  predicate InValuePlace(p: Parser, g: Place) {
    g == if p.flags.trailing then TrailerValue else Value
  }

  predicate FitsStart(p: Parser, s: StartState, g: Place) {
    match s
    case Dead => g == Idle && p.typ != Both
    case StartReqOrRes => g == Idle && p.typ == Both
    case ResOrRespH => g == Begun && p.typ == Both && !p.flags.trailing
    case StartRes => (g == Idle || g == Begun) && p.typ == Response
    case StartReq => g == Idle && p.typ == Request
    case ReqMethod => g == Begun && p.typ == Request && !p.flags.trailing
  }

  predicate FitsStatus(p: Parser, s: StatusState, g: Place) {
    && p.typ == Response && !p.flags.trailing
    && (if s == ResStatus then g == Started else g == Begun || (s == ResLineAlmostDone && g == Started))
  }

  predicate FitsUrl(p: Parser, s: UrlState, g: Place) {
    p.typ == Request && !p.flags.trailing && g == if s == ReqSpacesBeforeUrl then Begun else Started
  }

  predicate FitsField(p: Parser, s: FieldState, g: Place) {
    p.typ != Both && match s
                     case HeaderField => InFieldPlace(p, g)
                     case HeadersDone => false
                     case _ => BeforeField(p, g)
  }

  predicate FitsValue(p: Parser, s: ValueState, g: Place) {
    p.typ != Both && match s
                     case HeaderValue | HeaderValueLws | HeaderAlmostDone => InValuePlace(p, g)
                     case _ => InFieldPlace(p, g)
  }

  predicate FitsChunkData(p: Parser, s: ChunkDataState, g: Place) {
    p.typ != Both && (g == ChunkBody || (s == ChunkData && g == Chunk))
  }

  predicate FitsBody(p: Parser, s: BodyState, g: Place) {
    p.typ != Both && s != MessageDone && (g == Ready || g == Body)
  }

  // The places a parser can be in between two bytes.
  predicate Fits(p: Parser, g: Place) {
    match p.state
    case AtStart(s) => FitsStart(p, s, g)
    case AtStatus(s) => FitsStatus(p, s, g)
    case AtUrl(s) => FitsUrl(p, s, g)
    case AtVersion(s) => p.typ == Request && !p.flags.trailing && g == Started
    case AtField(s) => FitsField(p, s, g)
    case AtValue(s) => FitsValue(p, s, g)
    case AtChunkSize(s) => p.typ != Both && (g == Ready || g == Chunks)
    case AtChunkData(s) => FitsChunkData(p, s, g)
    case AtBody(s) => FitsBody(p, s, g)
  }

  // A parser whose type is still open agrees with either grammar.
  predicate Agrees(p: Parser, request: bool) { p.typ == Both || request == (p.typ == Request) }

  // A step from p with result r keeps to the grammar.
  predicate Keeps(p: Parser, r: Result, request: bool, g: Place) {
    && (p.typ != Both ==> r.p.typ == p.typ)
    && var h := ActsNext(request, g, r.acts);
       Agrees(r.p, request) ==> h != Bad && (r.p.errno == OK ==> Fits(r.p, h))
  }

  lemma FitsSettled(p: Parser, request: bool, g: Place)
    requires Fits(p, g) && Agrees(p, request)
    ensures Settled(request, g, StartLive(p.state)) && g != Bad
  {
  }

  lemma KeepsStart(p: Parser, s: StartState, ch: Byte, request: bool, g: Place)
    requires p.state == AtStart(s) && p.errno == OK && Fits(p, g) && Agrees(p, request)
    ensures Keeps(p, StartTransition(p, s, ch), request, g)
  {
    hide InMethod, FirstCandidate, IsAlpha;
    if s == ReqMethod {
      KeepsMethod(p, ch, request, g);
    }
  }

  lemma KeepsMethod(p: Parser, ch: Byte, request: bool, g: Place)
    requires p.state == AtStart(ReqMethod) && p.errno == OK && Fits(p, g) && Agrees(p, request)
    ensures Keeps(p, InMethod(p, ch), request, g)
  {
    hide MethodName, NextCandidate;
  }

  lemma KeepsStatus(p: Parser, s: StatusState, ch: Byte, request: bool, g: Place)
    requires p.state == AtStatus(s) && p.errno == OK && Fits(p, g) && Agrees(p, request)
    ensures Keeps(p, StatusTransition(p, s, ch), request, g)
  {
    hide StatusCodeTransition, IsNum;
    KeepsStatusCode(p, s, ch, request, g);
  }

  lemma KeepsStatusCode(p: Parser, s: StatusState, ch: Byte, request: bool, g: Place)
    requires p.state == AtStatus(s) && p.errno == OK && Fits(p, g) && Agrees(p, request)
    ensures s.ResFirstStatusCode? || s.ResStatusCode? || s.ResStatusStart? || s.ResStatus? || s.ResLineAlmostDone? ==>
              Keeps(p, StatusCodeTransition(p, s, ch), request, g)
  {
    hide IsNum, StartLive;
  }

  lemma KeepsUrl(p: Parser, s: UrlState, ch: Byte, request: bool, g: Place)
    requires p.state == AtUrl(s) && p.errno == OK && Fits(p, g) && Agrees(p, request)
    ensures Keeps(p, UrlTransition(p, s, ch), request, g)
  {
    hide UrlByte, UrlOpen, FitsStart, FitsStatus, FitsValue, FitsChunkData, FitsBody;
    UrlByteFits(p, s, ch);
    UrlByteFits(p, ReqServerStart, ch);
  }

  // No byte of a URL leads back to the spaces in front of it.
  lemma UrlByteFits(p: Parser, s: UrlState, ch: Byte)
    requires p.typ == Request && !p.flags.trailing
    ensures UrlByte(p, s, ch).errno == OK ==> Fits(UrlByte(p, s, ch), Started)
  {
  }

  lemma KeepsVersion(p: Parser, s: VersionState, ch: Byte, request: bool, g: Place)
    requires p.state == AtVersion(s) && p.errno == OK && Fits(p, g) && Agrees(p, request)
    ensures Keeps(p, VersionTransition(p, s, ch), request, g)
  {
  }

  lemma KeepsChunkSize(p: Parser, s: ChunkSizeState, ch: Byte, request: bool, g: Place)
    requires p.state == AtChunkSize(s) && p.errno == OK && Fits(p, g) && Agrees(p, request)
    ensures Keeps(p, ChunkSizeTransition(p, s, ch), request, g)
  {
    hide Unhex, Accumulate;
    if s == ChunkSizeAlmostDone {
      ActsOne(request, g, Call(ChunkHeader(p.contentLength)));
    }
  }

  lemma KeepsChunkData(p: Parser, s: ChunkDataState, ch: Byte, request: bool, g: Place)
    requires p.state == AtChunkData(s) && p.errno == OK && Fits(p, g) && Agrees(p, request)
    ensures Keeps(p, ChunkDataTransition(p, s, ch), request, g)
  {
  }

  lemma KeepsBody(p: Parser, s: BodyState, ch: Byte, request: bool, g: Place)
    requires p.state == AtBody(s) && p.errno == OK && Fits(p, g) && Agrees(p, request)
    ensures Keeps(p, BodyTransition(p, s, ch), request, g)
  {
    hide CompleteMessage;
    if s == BodyIdentity {
      KeepsLast(p, request, g);
    }
  }

  // The byte that completes a body of declared length.
  lemma KeepsLast(p: Parser, request: bool, g: Place)
    requires p.errno == OK && p.typ != Both && Agrees(p, request) && (g == Ready || g == Body)
    ensures var q := p.(contentLength := 0, state := AtBody(MessageDone));
            Keeps(p, First(Mark(OnBody), First(FlushThrough(OnBody), FinishMessage(q))), request, g)
  {
    hide CompleteMessage, Keeps;
    var q := p.(contentLength := 0, state := AtBody(MessageDone));
    KeepsComplete(q, q.upgrade, request, Body);
    KeepsFirst(p, q, FlushThrough(OnBody), FinishMessage(q), request, Body);
    KeepsFirst(p, p, Mark(OnBody), First(FlushThrough(OnBody), FinishMessage(q)), request, g);
  }

  lemma KeepsComplete(p: Parser, exit: bool, request: bool, g: Place)
    requires p.errno == OK && p.typ != Both && Agrees(p, request) && (g == Ready || g == Body || g == Ended)
    ensures Keeps(p, CompleteMessage(p, exit), request, g)
  {
    hide KeepAlive;
  }

  // on_headers_complete has been called.
  lemma KeepsFinishHeaders(p: Parser, request: bool)
    requires p.errno == OK && p.typ != Both && Agrees(p, request)
    ensures Keeps(p, FinishHeaders(p), request, Ready)
  {
    hide CompleteMessage;
    KeepsComplete(p, true, request, Ready);
    KeepsComplete(p, false, request, Ready);
  }

  lemma KeepsFirst(p: Parser, q: Parser, a: Action, r: Result, request: bool, g: Place)
    requires Keeps(q, r, request, ActNext(request, g, a)) && q.typ == p.typ
    ensures Keeps(p, First(a, r), request, g)
  {
    hide ActNext, Fits;
  }

  lemma KeepsEndHeaders(p: Parser, ch: Byte, hc: Callback, request: bool, g: Place)
    requires p.errno == OK && p.typ != Both && Agrees(p, request) && BeforeField(p, g)
    ensures Keeps(p, EndHeaders(p, ch, hc), request, g)
  {
    hide FinishHeaders, CompleteMessage, Keeps;
    var q := Answered(HeadersSeen(p), hc(HeadersSeen(p)));
    if ch == LF && p.flags.trailing {
      KeepsComplete(p, p.upgrade, request, Ended);
      KeepsFirst(p, p, Call(ChunkComplete), FinishMessage(p), request, g);
    } else if ch == LF && !(p.flags.chunked && p.flags.contentLength) {
      KeepsFinishHeaders(q, request);
      KeepsFirst(p, q, Call(HeadersComplete), FinishHeaders(q), request, g);
    } else {
      KeepsFail(p, Strict, request, g);
      KeepsFail(p, UnexpectedContentLength, request, g);
    }
  }

  lemma KeepsFail(p: Parser, e: Errno, request: bool, g: Place)
    requires p.errno == OK && Agrees(p, request) && g != Bad && e != OK
    ensures Keeps(p, Fail(p, e), request, g)
  {
  }

  lemma StartsField(p: Parser, request: bool, g: Place)
    requires p.typ != Both && Agrees(p, request) && BeforeField(p, g)
    ensures InFieldPlace(p, ActNext(request, g, Mark(OnHeaderField)))
  {
  }

  lemma KeepsStartField(p: Parser, ch: Byte, hc: Callback, request: bool, g: Place)
    requires p.state == AtField(HeaderFieldStart) && p.errno == OK && p.typ != Both
    requires Agrees(p, request) && BeforeField(p, g)
    ensures Keeps(p, StartField(p, ch, hc), request, g)
  {
    hide EndHeaders, FirstHeaderState, Next, IsToken;
    KeepsEndHeaders(p.(state := AtField(HeadersAlmostDone)), ch, hc, request, g);
    ActsOne(request, g, Mark(OnHeaderField));
    StartsField(p, request, g);
  }

  lemma FieldByteTrailing(p: Parser, ch: Byte)
    ensures FieldByte(p, ch).flags.trailing == p.flags.trailing
  {
    hide TokenOf, MatchWord, CONNECTION, PROXY_CONNECTION, CONTENT_LENGTH, TRANSFER_ENCODING, UPGRADE;
  }

  lemma KeepsField(p: Parser, s: FieldState, ch: Byte, hc: Callback, request: bool, g: Place)
    requires p.state == AtField(s) && p.errno == OK && Fits(p, g) && Agrees(p, request)
    ensures Keeps(p, FieldTransition(p, s, ch, hc), request, g)
  {
    hide EndHeaders, StartField, FieldByte, FinishHeaders;
    match s
    case HeaderFieldStart => KeepsStartField(p, ch, hc, request, g);
    case HeaderField => FieldByteTrailing(p, ch);
    case HeadersAlmostDone => KeepsEndHeaders(p, ch, hc, request, g);
    case HeadersDone =>
  }

  lemma ValueByteTrailing(p: Parser, ch: Byte)
    ensures ValueByte(p, ch).flags.trailing == p.flags.trailing
  {
    hide Lower, IsToken, Accumulate, MatchWord, SetHeaderFlag, CHUNKED, KEEP_ALIVE, CLOSE, UPGRADE;
  }

  lemma StartValueTrailing(p: Parser, ch: Byte)
    ensures StartValue(p, ch).p.flags.trailing == p.flags.trailing
  {
    hide Lower, FirstValueState;
  }

  lemma KeepsEndField(p: Parser, ch: Byte, hc: Callback, request: bool, g: Place)
    requires p.state.AtValue? && p.errno == OK && p.typ != Both && Agrees(p, request) && BeforeField(p, g)
    ensures Keeps(p, EndField(p, ch, hc), request, g)
  {
    hide StartField, SetHeaderFlag;
    KeepsStartField(SetHeaderFlag(p).(state := AtField(HeaderFieldStart)), ch, hc, request, g);
  }

  lemma KeepsStartValue(p: Parser, ch: Byte, request: bool, g: Place)
    requires p.errno == OK && p.typ != Both && Agrees(p, request) && (InFieldPlace(p, g) || InValuePlace(p, g))
    ensures Keeps(p, StartValue(p, ch), request, g)
  {
    hide StartValue;
    StartValueTrailing(p, ch);
    ActsOne(request, g, Mark(OnHeaderValue));
  }

  lemma KeepsInValue(p: Parser, ch: Byte, skip: bool, request: bool, g: Place)
    requires p.state == AtValue(HeaderValue) && p.errno == OK && Fits(p, g) && Agrees(p, request)
    ensures Keeps(p, InValue(p, ch, skip), request, g)
  {
    hide ValueByte, IsHeaderChar;
    ValueByteTrailing(p, ch);
  }

  // An empty value is reported too.
  lemma KeepsNoValue(p: Parser, ch: Byte, hc: Callback, request: bool, g: Place)
    requires p.state.AtValue? && p.errno == OK && p.typ != Both && Agrees(p, request) && InFieldPlace(p, g)
    ensures Keeps(p, First(Mark(OnHeaderValue), First(Flush(OnHeaderValue), EndField(p, ch, hc))), request, g)
  {
    hide EndField, Keeps;
    var h := if p.flags.trailing then TrailerValue else Value;
    KeepsEndField(p, ch, hc, request, h);
    KeepsFirst(p, p, Flush(OnHeaderValue), EndField(p, ch, hc), request, h);
    KeepsFirst(p, p, Mark(OnHeaderValue), First(Flush(OnHeaderValue), EndField(p, ch, hc)), request, g);
  }

  lemma KeepsValue(p: Parser, s: ValueState, ch: Byte, hc: Callback, skip: bool, request: bool, g: Place)
    requires p.state == AtValue(s) && p.errno == OK && Fits(p, g) && Agrees(p, request)
    ensures Keeps(p, ValueTransition(p, s, ch, hc, skip), request, g)
  {
    hide EndField, StartValue, InValue, Next, First;
    if s == HeaderValue {
      KeepsInValue(p, ch, skip, request, g);
    } else {
      KeepsStartValue(p, ch, request, g);
      if s == HeaderValueDiscardLws {
        KeepsNoValue(p, ch, hc, request, g);
      } else if s == HeaderValueLws {
        KeepsEndField(p, ch, hc, request, g);
      }
    }
  }

  lemma KeepsStep(p: Parser, ch: Byte, hc: Callback, skip: bool, request: bool, g: Place)
    requires p.errno == OK && Fits(p, g) && Agrees(p, request)
    ensures Keeps(p, Step(p, ch, hc, skip), request, g)
  {
    hide StartTransition, StatusTransition, UrlTransition, VersionTransition, FieldTransition,
         ValueTransition, ChunkSizeTransition, ChunkDataTransition, BodyTransition, Keeps, Agrees;
    match p.state
    case AtStart(s) => KeepsStart(p, s, ch, request, g);
    case AtStatus(s) => KeepsStatus(p, s, ch, request, g);
    case AtUrl(s) => KeepsUrl(p, s, ch, request, g);
    case AtVersion(s) => KeepsVersion(p, s, ch, request, g);
    case AtField(s) => KeepsField(p, s, ch, hc, request, g);
    case AtValue(s) => KeepsValue(p, s, ch, hc, skip, request, g);
    case AtChunkSize(s) => KeepsChunkSize(p, s, ch, request, g);
    case AtChunkData(s) => KeepsChunkData(p, s, ch, request, g);
    case AtBody(s) => KeepsBody(p, s, ch, request, g);
  }

  // ---------------------------------------------------------------- whole runs

  // The log so far is a prefix of a sequence of messages, and the parser is where it says.
  predicate Good(c: Config, request: bool) {
    && PlaceOf(request, Idle, c.log) != Bad
    && (c.p.errno == OK ==> Fits(c.p, PlaceOf(request, Idle, c.log)))
  }

  // Of requests, of responses, or of both while the type is open.
  predicate OnTrack(t: ParserType, c: Config) {
    && (t != Both ==> c.p.typ == t)
    && (c.p.typ != Response ==> Good(c, true)) && (c.p.typ != Request ==> Good(c, false))
  }

  lemma AdvanceGood(c: Config, ch: Byte, hc: Callback, request: bool)
    requires Running(c) && Good(c, request) && Agrees(c.p, request)
    ensures var d := Advance(c, ch, hc);
            (Agrees(d.p, request) ==> Good(d, request)) && (c.p.typ != Both ==> d.p.typ == c.p.typ)
  {
    hide Step, Fits, StepEvents, Emit, PlaceOf;
    var g := PlaceOf(request, Idle, c.log);
    FitsSettled(c.p, request, g);
    StepPlace(c, ch, hc, request, g);
    KeepsStep(c.p, ch, hc, c.skip, request, g);
  }

  lemma AdvanceOnTrack(t: ParserType, c: Config, ch: Byte, hc: Callback)
    requires Running(c) && OnTrack(t, c)
    ensures OnTrack(t, Advance(c, ch, hc))
  {
    hide Advance, Good;
    if c.p.typ != Response {
      AdvanceGood(c, ch, hc, true);
    }
    if c.p.typ != Request {
      AdvanceGood(c, ch, hc, false);
    }
  }

  lemma {:induction false} RunOnTrack(t: ParserType, c: Config, s: Bytes, hc: Callback)
    requires OnTrack(t, c)
    ensures OnTrack(t, Run(c, s, hc))
    decreases |s|
  {
    hide Advance, OnTrack;
    if s != [] && Running(c) {
      AdvanceOnTrack(t, c, s[0], hc);
      RunOnTrack(t, Advance(c, s[0], hc), s[1..], hc);
    }
  }

  // A connection: calls of http_parser_execute on any buffers, also after an early return.
  function Session(c: Config, buffers: seq<Bytes>, hc: Callback): Config
    decreases |buffers|
  {
    if buffers == [] then c
    else Session(Run(c.(skip := false, exited := false), buffers[0], hc), buffers[1..], hc)
  }

  lemma {:induction false} SessionOnTrack(t: ParserType, c: Config, buffers: seq<Bytes>, hc: Callback)
    requires OnTrack(t, c)
    ensures OnTrack(t, Session(c, buffers, hc))
    decreases |buffers|
  {
    hide Run;
    if buffers != [] {
      var d := c.(skip := false, exited := false);
      assert OnTrack(t, d);
      RunOnTrack(t, d, buffers[0], hc);
      SessionOnTrack(t, Run(d, buffers[0], hc), buffers[1..], hc);
    }
  }

  // A prefix of a sequence of requests, of responses, or of either.
  predicate InGrammar(t: ParserType, log: seq<Event>) {
    && (t == Request ==> PlaceOf(true, Idle, log) != Bad)
    && (t == Response ==> PlaceOf(false, Idle, log) != Bad)
    && (t == Both ==> PlaceOf(true, Idle, log) != Bad || PlaceOf(false, Idle, log) != Bad)
  }

  // The grammar theorem: from a fresh parser of any type, on any buffers, whatever
  // on_headers_complete answers, with or without an error, the callbacks are a prefix of a
  // sequence of well-formed messages.
  lemma Grammar(t: ParserType, lenient: bool, buffers: seq<Bytes>, hc: Callback)
    ensures InGrammar(t, Session(Start(t, lenient), buffers, hc).log)
  {
    hide Session;
    assert OnTrack(t, Start(t, lenient));
    SessionOnTrack(t, Start(t, lenient), buffers, hc);
  }

  lemma {:induction false} BadStays(request: bool, es: seq<Event>)
    ensures PlaceOf(request, Bad, es) == Bad
    decreases |es|
  {
    if es != [] {
      BadStays(request, es[..|es| - 1]);
    }
  }

  // What is reported of a run is in the grammar even if an error loses its last data.
  lemma ReportedInGrammar(request: bool, log: seq<Event>, lost: seq<Event>)
    requires PlaceOf(request, Idle, Emit([], log + lost)) != Bad
    ensures PlaceOf(request, Idle, log) != Bad
  {
    hide Next;
    PlaceEmit(request, Idle, [], log + lost);
    PlaceConcat(request, Idle, log, lost);
    BadStays(request, lost);
  }

  lemma LogInGrammar(t: ParserType, c: Config, log: seq<Event>, lost: seq<Event>)
    requires OnTrack(t, c) && Emit([], log + lost) == c.log
    ensures InGrammar(t, log)
  {
    hide Next, PlaceOf, Fits;
    if c.p.typ != Response {
      ReportedInGrammar(true, log, lost);
    } else {
      ReportedInGrammar(false, log, lost);
    }
  }

  // ---------------------------------------------------------------- the end of a connection

  // on_message_complete is called on the way to the next message, or to the dead state if the
  // connection does not persist.
  predicate EndsMessage(r: Result) {
    Calls(r.acts, MessageComplete) ==> r.p.state == AtStart(NewMessage(r.p))
  }

  lemma EndsComplete(p: Parser, exit: bool)
    ensures EndsMessage(CompleteMessage(p, exit)) && EndsMessage(FinishHeaders(p))
  {
    NewMessageState(p, AtStart(NewMessage(p)));
  }

  lemma EndsFirst(a: Action, r: Result)
    requires EndsMessage(r) && !a.Call?
    ensures EndsMessage(First(a, r))
  {
  }

  lemma EndsField(p: Parser, s: FieldState, ch: Byte, hc: Callback)
    ensures EndsMessage(EndHeaders(p, ch, hc)) && EndsMessage(StartField(p, ch, hc))
    ensures EndsMessage(FieldTransition(p, s, ch, hc))
  {
    hide CompleteMessage, FinishHeaders, NewMessage, FieldByte;
    EndsComplete(p, p.upgrade);
    EndsComplete(p.(state := AtField(HeadersAlmostDone)), p.upgrade);
    EndsComplete(Answered(HeadersSeen(p), hc(HeadersSeen(p))), false);
    var q := p.(state := AtField(HeadersAlmostDone));
    EndsComplete(Answered(HeadersSeen(q), hc(HeadersSeen(q))), false);
  }

  lemma EndsValue(p: Parser, s: ValueState, ch: Byte, hc: Callback, skip: bool)
    ensures EndsMessage(ValueTransition(p, s, ch, hc, skip))
  {
    hide StartField, NewMessage, ValueByte, StartValue;
    EndsField(SetHeaderFlag(p).(state := AtField(HeaderFieldStart)), HeaderFieldStart, ch, hc);
    EndsFirst(Flush(OnHeaderValue), EndField(p, ch, hc));
    EndsFirst(Mark(OnHeaderValue), First(Flush(OnHeaderValue), EndField(p, ch, hc)));
  }

  lemma EndsBody(p: Parser, s: BodyState, ch: Byte)
    ensures EndsMessage(BodyTransition(p, s, ch))
  {
    hide CompleteMessage, NewMessage;
    EndsComplete(p, p.upgrade);
    var q := p.(contentLength := 0, state := AtBody(MessageDone));
    EndsComplete(q, p.upgrade);
    EndsFirst(FlushThrough(OnBody), FinishMessage(q));
    EndsFirst(Mark(OnBody), First(FlushThrough(OnBody), FinishMessage(q)));
  }

  lemma EndsStep(p: Parser, ch: Byte, hc: Callback, skip: bool)
    ensures EndsMessage(Step(p, ch, hc, skip))
  {
    hide FieldTransition, ValueTransition, BodyTransition, StatusTransition, StartTransition, NewMessage;
    match p.state
    case AtField(s) => EndsField(p, s, ch, hc);
    case AtValue(s) => EndsValue(p, s, ch, hc, skip);
    case AtBody(s) => EndsBody(p, s, ch);
    case AtStatus(s) => EndsStatus(p, s, ch);
    case AtStart(s) => EndsStart(p, s, ch);
    case AtChunkSize(s) => EndsChunk(p, s, ChunkData, ch);
    case AtChunkData(s) => EndsChunk(p, ChunkSize, s, ch);
    case _ =>
  }

  lemma EndsStart(p: Parser, s: StartState, ch: Byte)
    ensures EndsMessage(StartTransition(p, s, ch))
  {
    hide NewMessage;
  }

  lemma EndsChunk(p: Parser, s: ChunkSizeState, t: ChunkDataState, ch: Byte)
    ensures EndsMessage(ChunkSizeTransition(p, s, ch)) && EndsMessage(ChunkDataTransition(p, t, ch))
  {
    hide NewMessage, Accumulate, Unhex;
    assert !Calls(Do(Call(ChunkHeader(p.contentLength)), Nil), MessageComplete);
  }

  lemma EndsStatus(p: Parser, s: StatusState, ch: Byte)
    ensures EndsMessage(StatusTransition(p, s, ch))
  {
    hide NewMessage;
    EndsFirst(Flush(OnStatus), EndStatus(p, ch, Strict));
  }

  // After the last message a parser accepts line ends and reports nothing.
  lemma {:induction false} DeadSilent(c: Config, s: Bytes, hc: Callback)
    requires Running(c) && c.p.state == AtStart(Dead)
    ensures Run(c, s, hc).log == c.log
    ensures Run(c, s, hc).p.errno ==
            if forall i :: 0 <= i < |s| ==> s[i] == CR || s[i] == LF then OK else ClosedConnection
    decreases |s|
  {
    hide Advance;
    if s != [] {
      DeadByte(c, s[0], hc);
      if s[0] == CR || s[0] == LF {
        DeadSilent(Advance(c, s[0], hc), s[1..], hc);
        assert forall i :: 0 <= i < |s[1..]| ==> s[1..][i] == s[i + 1];
        assert forall i :: 0 < i < |s| ==> s[i] == s[1..][i - 1];
      } else {
        RunStopped(Advance(c, s[0], hc), s[1..], hc);
      }
    }
  }

  lemma DeadByte(c: Config, ch: Byte, hc: Callback)
    requires Running(c) && c.p.state == AtStart(Dead)
    ensures var d := Advance(c, ch, hc);
            && d.log == c.log
            && if ch == CR || ch == LF then Running(d) && d.p == c.p else d.p.errno == ClosedConnection
  {
    EmitNone(c.log);
  }

  lemma {:induction false} DeadSession(c: Config, buffers: seq<Bytes>, hc: Callback)
    requires c.p.errno != OK || c.p.state == AtStart(Dead)
    ensures Session(c, buffers, hc).log == c.log
    decreases |buffers|
  {
    hide Advance;
    if buffers != [] {
      var d := c.(skip := false, exited := false);
      if Running(d) {
        DeadStays(d, buffers[0], hc);
        DeadSilent(d, buffers[0], hc);
      }
      DeadSession(Run(d, buffers[0], hc), buffers[1..], hc);
    }
  }

  lemma {:induction false} DeadStays(c: Config, s: Bytes, hc: Callback)
    requires Running(c) && c.p.state == AtStart(Dead)
    ensures var d := Run(c, s, hc); d.p.errno != OK || d.p.state == AtStart(Dead)
    decreases |s|
  {
    hide Advance;
    if s != [] {
      DeadByte(c, s[0], hc);
      if s[0] == CR || s[0] == LF {
        DeadStays(Advance(c, s[0], hc), s[1..], hc);
      }
    }
  }

  // Nothing is reported after a message for which http_should_keep_alive is false, whatever
  // buffers follow.
  lemma LastMessageIsLast(c: Config, ch: Byte, buffers: seq<Bytes>, hc: Callback)
    requires Running(c) && Calls(Step(c.p, ch, hc, c.skip).acts, MessageComplete)
    requires !KeepAlive(Step(c.p, ch, hc, c.skip).p)
    ensures Session(Advance(c, ch, hc), buffers, hc).log == Advance(c, ch, hc).log
  {
    hide Step, KeepAlive, StepEvents, Session;
    EndsStep(c.p, ch, hc, c.skip);
    DeadSession(Advance(c, ch, hc), buffers, hc);
  }
}
