/**
 What holds of the parser in every reachable state: its bit-fields never wrap, its length
 accumulator is a true 64-bit value, and every assert in http_parser_execute is satisfied.
 */
module HttpInvariant {
  import opened Basics
  import opened HttpTypes
  import opened HttpStep

  // The length of the keyword a header state is matching.
  function WordLength(h: HeaderState): nat {
    match h
    case MatchingConnection => 10
    case MatchingProxyConnection => 16
    case MatchingContentLength => 14
    case MatchingTransferEncoding => 17
    case MatchingUpgrade | MatchingConnectionUpgrade => 7
    case MatchingTransferEncodingChunked => 7
    case MatchingConnectionKeepAlive => 10
    case MatchingConnectionClose => 5
    case _ => 0
  }

  lemma WordLengths()
    ensures |CONNECTION| == 10 && |PROXY_CONNECTION| == 16 && |CONTENT_LENGTH| == 14
    ensures |TRANSFER_ENCODING| == 17 && |UPGRADE| == 7 && |CHUNKED| == 7 && |KEEP_ALIVE| == 10 && |CLOSE| == 5
  {
  }

  // The header states of the s_header_field loop.
  predicate IsFieldState(h: HeaderState) {
    match h
    case General | C | CO | CON => true
    case MatchingConnection | MatchingProxyConnection | MatchingContentLength => true
    case MatchingTransferEncoding | MatchingUpgrade => true
    case Connection | ContentLength | TransferEncoding | Upgrade => true
    case _ => false
  }

  // The header states of the s_header_value loop.
  predicate IsValueState(h: HeaderState) {
    match h
    case General | ContentLength | MatchingTransferEncodingChunked | TransferEncodingChunked => true
    case MatchingConnectionTokenStart | MatchingConnectionKeepAlive | MatchingConnectionClose => true
    case MatchingConnectionUpgrade | MatchingConnectionToken => true
    case ConnectionKeepAlive | ConnectionClose | ConnectionUpgrade => true
    case _ => false
  }

  // The matcher's index stays inside the keyword.
  predicate MatchInv(h: HeaderState, index: nat) {
    match h
    case C | MatchingConnectionTokenStart => index == 0
    case CO => index == 1
    case CON => index == 2
    case _ => WordLength(h) > 0 ==> index < WordLength(h) - 1
  }

  predicate HeaderInv(p: Parser) {
    match p.state
    case AtStart(s) => s == ReqMethod ==> p.index <= |MethodName(p.meth)|
    case AtUrl(s) => s != UrlDead
    case AtField(s) => s == HeaderField ==> IsFieldState(p.hstate) && MatchInv(p.hstate, p.index)
    case AtValue(s) =>
      if s == HeaderValue then
        && IsValueState(p.hstate) && MatchInv(p.hstate, p.index)
        && (p.hstate.ContentLength? ==> p.contentLength < ULLONG_MAX)
      else if s == HeaderAlmostDone || s == HeaderValueLws then
        IsValueState(p.hstate) && (p.hstate.MatchingConnectionTokenStart? ==> p.index == 0)
      else IsFieldState(p.hstate)
    case _ => true
  }

  predicate BodyInv(p: Parser) {
    && p.contentLength <= ULLONG_MAX
    && (p.flags.trailing ==> p.flags.chunked)
    && match p.state
       case AtChunkSize(s) =>
         p.flags.chunked && (s != ChunkSizeStart ==> p.contentLength < ULLONG_MAX)
       case AtChunkData(s) =>
         && p.flags.chunked
         && (s == ChunkData ==> 0 < p.contentLength < ULLONG_MAX)
         && (s == ChunkDataAlmostDone ==> p.contentLength == 0)
       case AtBody(s) => s == BodyIdentity ==> 0 < p.contentLength < ULLONG_MAX
       case _ => true
  }

  predicate Bounded(p: Parser) {
    p.index <= 17 && p.major <= 999 && p.minor <= 999 && p.status <= 999
  }

  predicate Inv(p: Parser) {
    HeaderInv(p) && BodyInv(p) && Bounded(p)
  }

  // The asserts of http_parser_execute, at the arm of state p.state on the next byte
  // (lines 1410, 1561, 1886, 1935-1936, 1953, 1988, 1999, 2019-2021, 2038-2039, 2046, 2054).
  predicate AssertsHold(p: Parser, nread: nat) {
    match p.state
    case AtField(HeaderField) => IsFieldState(p.hstate)
    case AtValue(HeaderValue) => !p.hstate.Connection? && !p.hstate.TransferEncoding?
    case AtBody(BodyIdentity) => p.contentLength != 0 && p.contentLength != ULLONG_MAX
    case AtChunkSize(s) => p.flags.chunked && (s == ChunkSizeStart ==> nread == 0)
    case AtChunkData(ChunkData) => p.flags.chunked && p.contentLength != 0 && p.contentLength != ULLONG_MAX
    case AtChunkData(ChunkDataAlmostDone) => p.flags.chunked && p.contentLength == 0
    case AtChunkData(ChunkDataDone) => p.flags.chunked
    case AtUrl(s) => s != UrlDead
    case _ => true
  }

  // The struct's field widths: index has 7 bits, the version numbers and the status 16.
  predicate FieldsFit(p: Parser) {
    p.index < 128 && p.major < 65536 && p.minor < 65536 && p.status < 65536 && p.contentLength < TWO64
  }

  lemma InvMeans(p: Parser, nread: nat)
    requires Inv(p) && (p.state == AtChunkSize(ChunkSizeStart) ==> nread == 0)
    ensures AssertsHold(p, nread) && FieldsFit(p)
  {
  }

  lemma InvInit(t: ParserType, lenient: bool)
    ensures Inv(Init(t, lenient))
  {
  }

  // ---------------------------------------------------------------- preservation

  lemma AccumulateExact(p: Parser, base: nat, d: nat)
    requires base == 10 || base == 16
    requires d < base && p.contentLength <= ULLONG_MAX && p.errno == OK
    ensures var q := Accumulate(p, base, d);
            if q.errno == OK then q.contentLength == p.contentLength * base + d < ULLONG_MAX
            else q.contentLength == p.contentLength && p.contentLength * base + d + base >= ULLONG_MAX
  {
  }

  lemma InvMethod(p: Parser, ch: Byte)
    requires Inv(p) && p.state == AtStart(ReqMethod)
    ensures var q := InMethod(p, ch).p; q.errno == OK ==> Inv(q)
  {
    hide MethodName, NextCandidate;
    NameLength(p.meth);
    CandidateFits(p.meth, p.index, ch);
  }

  lemma NameLength(m: Method)
    ensures 3 <= |MethodName(m)| <= 11
  {
  }

  lemma CandidateFits(m: Method, i: nat, ch: Byte)
    ensures NextCandidate(m, i, ch).Some? ==> i <= 4 && i + 1 <= |MethodName(NextCandidate(m, i, ch).value)|
  {
    hide NextCandidate, MethodName;
    CandidateEarly(m, i, ch);
    LateNames();
    if NextCandidate(m, i, ch).Some? {
      NameLength(NextCandidate(m, i, ch).value);
    }
  }

  // Candidates are switched at the third byte at the latest, but for three.
  lemma CandidateEarly(m: Method, i: nat, ch: Byte)
    ensures NextCandidate(m, i, ch).Some? ==>
              i <= 2 || (i <= 4 && NextCandidate(m, i, ch).value in {MKCALENDAR, UNLINK, PROPPATCH})
  {
  }

  lemma LateNames()
    ensures |MethodName(MKCALENDAR)| == 10 && |MethodName(UNLINK)| == 6 && |MethodName(PROPPATCH)| == 9
  {
  }

  lemma InvStart(p: Parser, s: StartState, ch: Byte)
    requires Inv(p) && p.state == AtStart(s)
    ensures var q := StartTransition(p, s, ch).p; q.errno == OK ==> Inv(q)
  {
    hide InMethod, FirstCandidate, IsAlpha, MethodName;
    if s == ReqMethod {
      InvMethod(p, ch);
    } else {
      NameLength(HEAD);
      if FirstCandidate(ch).Some? {
        NameLength(FirstCandidate(ch).value);
      }
    }
  }

  lemma InvStatus(p: Parser, s: StatusState, ch: Byte)
    requires Inv(p) && p.state == AtStatus(s)
    ensures var q := StatusTransition(p, s, ch).p; q.errno == OK ==> Inv(q)
  {
    hide StatusTransition;
  }

  lemma InvVersion(p: Parser, s: VersionState, ch: Byte)
    requires Inv(p) && p.state == AtVersion(s)
    ensures var q := VersionTransition(p, s, ch).p; q.errno == OK ==> Inv(q)
  {
    hide VersionTransition;
  }

  lemma InvUrl(p: Parser, s: UrlState, ch: Byte)
    requires Inv(p) && p.state == AtUrl(s)
    ensures var q := UrlTransition(p, s, ch).p; q.errno == OK ==> Inv(q)
  {
    hide NextUrlState;
  }

  lemma InvChunkSize(p: Parser, s: ChunkSizeState, ch: Byte)
    requires Inv(p) && p.state == AtChunkSize(s) && p.errno == OK
    ensures var q := ChunkSizeTransition(p, s, ch).p; q.errno == OK ==> Inv(q)
  {
    hide Accumulate;
    if s == ChunkSize && Unhex(ch) != -1 {
      AccumulateExact(p, 16, Unhex(ch));
    }
  }

  lemma InvChunkData(p: Parser, s: ChunkDataState, ch: Byte)
    requires Inv(p) && p.state == AtChunkData(s)
    ensures var q := ChunkDataTransition(p, s, ch).p; q.errno == OK ==> Inv(q)
  {
  }

  lemma InvBody(p: Parser, s: BodyState, ch: Byte)
    requires Inv(p) && p.state == AtBody(s)
    ensures var q := BodyTransition(p, s, ch).p; q.errno == OK ==> Inv(q)
  {
    hide KeepAlive;
  }

  lemma InvFinishHeaders(p: Parser)
    requires Inv(p) && p.state == AtField(HeadersDone)
    ensures Inv(FinishHeaders(p).p)
  {
    hide NeedsEof, KeepAlive;
  }

  lemma InvEndHeaders(p: Parser, ch: Byte, hc: Callback)
    requires Inv(p) && p.state == AtField(HeadersAlmostDone)
    ensures var q := EndHeaders(p, ch, hc).p; q.errno == OK ==> Inv(q)
  {
    hide KeepAlive, FinishHeaders;
    InvFinishHeaders(Answered(HeadersSeen(p), hc(HeadersSeen(p))));
  }

  lemma InvStartField(p: Parser, ch: Byte, hc: Callback)
    requires Inv(p) && p.state == AtField(HeaderFieldStart)
    ensures var q := StartField(p, ch, hc).p; q.errno == OK ==> Inv(q)
  {
    hide EndHeaders;
    InvEndHeaders(p.(state := AtField(HeadersAlmostDone)), ch, hc);
  }

  lemma FieldByteInv(p: Parser, ch: Byte)
    requires IsFieldState(p.hstate) && MatchInv(p.hstate, p.index) && p.index <= 17
    ensures var q := FieldByte(p, ch);
            && IsFieldState(q.hstate) && q.index <= 17 && q.flags.chunked == p.flags.chunked
            && q.flags.trailing == p.flags.trailing && (q.errno == OK ==> MatchInv(q.hstate, q.index))
  {
    hide TokenOf, MatchWord, CONNECTION, PROXY_CONNECTION, CONTENT_LENGTH, TRANSFER_ENCODING, UPGRADE;
    WordLengths();
  }

  lemma InvField(p: Parser, s: FieldState, ch: Byte, hc: Callback)
    requires Inv(p) && p.state == AtField(s)
    ensures var q := FieldTransition(p, s, ch, hc).p; q.errno == OK ==> Inv(q)
  {
    hide StartField, FieldByte, EndHeaders, FinishHeaders;
    match s
    case HeaderFieldStart => InvStartField(p, ch, hc);
    case HeaderField => FieldByteInv(p, ch);
    case HeadersAlmostDone => InvEndHeaders(p, ch, hc);
    case HeadersDone => InvFinishHeaders(p);
  }

  lemma ValueByteState(p: Parser, ch: Byte)
    requires IsValueState(p.hstate)
    ensures IsValueState(ValueByte(p, ch).hstate)
  {
    hide Lower, IsToken, Accumulate, MatchWord, SetHeaderFlag, CHUNKED, KEEP_ALIVE, CLOSE, UPGRADE;
  }

  lemma ValueByteInv(p: Parser, ch: Byte)
    requires IsValueState(p.hstate) && MatchInv(p.hstate, p.index) && p.index <= 17
    ensures var q := ValueByte(p, ch); MatchInv(q.hstate, q.index) && q.index <= 17
  {
    hide Lower, IsToken, Accumulate, MatchWord, SetHeaderFlag, CHUNKED, KEEP_ALIVE, CLOSE, UPGRADE;
    WordLengths();
  }

  lemma ValueByteFlags(p: Parser, ch: Byte)
    ensures var q := ValueByte(p, ch);
            (p.flags.chunked ==> q.flags.chunked) && q.flags.trailing == p.flags.trailing
  {
    hide Lower, IsToken, Accumulate, MatchWord, SetHeaderFlag, CHUNKED, KEEP_ALIVE, CLOSE, UPGRADE;
  }

  lemma ValueByteLength(p: Parser, ch: Byte)
    requires p.errno == OK && p.contentLength <= ULLONG_MAX
    requires p.hstate.ContentLength? ==> p.contentLength < ULLONG_MAX
    ensures var q := ValueByte(p, ch);
            q.contentLength <= ULLONG_MAX && (q.hstate.ContentLength? && q.errno == OK ==> q.contentLength < ULLONG_MAX)
  {
    hide Lower, IsToken, Accumulate, MatchWord, CHUNKED, KEEP_ALIVE, CLOSE, UPGRADE;
    if IsNum(ch) {
      AccumulateExact(p, 10, DigitOf(ch));
    }
  }

  lemma InvStartValue(p: Parser, ch: Byte)
    requires Inv(p) && p.state.AtValue? && p.errno == OK
    ensures var q := StartValue(p, ch).p; q.errno == OK ==> Inv(q)
  {
    hide Lower;
  }

  lemma InvInValue(p: Parser, ch: Byte, skip: bool)
    requires Inv(p) && p.state == AtValue(HeaderValue) && p.errno == OK
    ensures var q := InValue(p, ch, skip).p; q.errno == OK ==> Inv(q)
  {
    hide ValueByte;
    ValueByteState(p, ch);
    ValueByteInv(p, ch);
    ValueByteFlags(p, ch);
    ValueByteLength(p, ch);
  }

  lemma InvEndField(p: Parser, ch: Byte, hc: Callback)
    requires Inv(p) && p.state.AtValue? && p.errno == OK
    ensures var q := EndField(p, ch, hc).p; q.errno == OK ==> Inv(q)
  {
    hide StartField, SetHeaderFlag;
    InvStartField(SetHeaderFlag(p).(state := AtField(HeaderFieldStart)), ch, hc);
  }

  // The states between a name and its value, and behind a value, change into one another freely.
  lemma InvDiscard(p: Parser, s: ValueState)
    requires Inv(p) && p.state == AtValue(s)
    ensures Inv(p.(state := AtValue(s)))
    ensures s == HeaderAlmostDone ==> Inv(p.(state := AtValue(HeaderValueLws)))
    ensures s == HeaderValueDiscardWs || s == HeaderValueDiscardWsAlmostDone || s == HeaderValueDiscardLws ==>
              && Inv(p.(state := AtValue(HeaderValueDiscardWs))) && Inv(p.(state := AtValue(HeaderValueDiscardLws)))
              && Inv(p.(state := AtValue(HeaderValueDiscardWsAlmostDone)))
  {
  }

  lemma InvValue(p: Parser, s: ValueState, ch: Byte, hc: Callback, skip: bool)
    requires Inv(p) && p.state == AtValue(s) && p.errno == OK
    ensures var q := ValueTransition(p, s, ch, hc, skip).p; q.errno == OK ==> Inv(q)
  {
    hide EndField, StartValue, InValue, Inv;
    if s == HeaderValue {
      InvInValue(p, ch, skip);
    } else {
      InvStartValue(p, ch);
      InvEndField(p, ch, hc);
      InvDiscard(p, s);
    }
  }

  // Every step keeps the invariant.
  lemma InvStep(p: Parser, ch: Byte, hc: Callback, skip: bool)
    requires Inv(p) && p.errno == OK
    ensures var q := Step(p, ch, hc, skip).p; q.errno == OK ==> Inv(q)
  {
    hide StartTransition, StatusTransition, UrlTransition, VersionTransition, FieldTransition,
         ValueTransition, ChunkSizeTransition, ChunkDataTransition, BodyTransition;
    match p.state
    case AtStart(s) => InvStart(p, s, ch);
    case AtStatus(s) => InvStatus(p, s, ch);
    case AtUrl(s) => InvUrl(p, s, ch);
    case AtVersion(s) => InvVersion(p, s, ch);
    case AtField(s) => InvField(p, s, ch, hc);
    case AtValue(s) => InvValue(p, s, ch, hc, skip);
    case AtChunkSize(s) => InvChunkSize(p, s, ch);
    case AtChunkData(s) => InvChunkData(p, s, ch);
    case AtBody(s) => InvBody(p, s, ch);
  }

  // ---------------------------------------------------------------- the header byte counter

  // s_chunk_size_start is entered with the counter at zero, on_headers_complete is called from a
  // state that counts, an early exit leaves the parser between messages, and other errors than
  // syntax errors come from elsewhere.
  predicate CounterFits(p: Parser, r: Result) {
    && (r.p.errno == OK && r.p.state == AtChunkSize(ChunkSizeStart) ==> r.reset)
    && (Calls(r.acts, HeadersComplete) ==> ParsingHeader(p.state))
    && (r.exit ==> r.p.state.AtStart? && r.p.errno == p.errno)
    && (r.p.errno == p.errno || IsSyntaxError(r.p.errno))
  }

  lemma CounterFitsField(p: Parser, s: FieldState, ch: Byte, hc: Callback)
    requires p.state == AtField(s)
    ensures CounterFits(p, FieldTransition(p, s, ch, hc))
  {
    hide EndHeaders, FinishHeaders, FieldByte, IsToken;
    CounterFitsEnd(p, ch, hc);
    CounterFitsEnd(p.(state := AtField(HeadersAlmostDone)), ch, hc);
  }

  lemma CounterFitsEnd(p: Parser, ch: Byte, hc: Callback)
    requires p.state.AtField?
    ensures CounterFits(p, EndHeaders(p, ch, hc)) && CounterFits(p, FinishHeaders(p))
  {
    hide KeepAlive, NeedsEof;
  }

  lemma CounterFitsValue(p: Parser, s: ValueState, ch: Byte, hc: Callback, skip: bool)
    requires p.state == AtValue(s)
    ensures CounterFits(p, ValueTransition(p, s, ch, hc, skip))
  {
    hide StartField, SetHeaderFlag, ValueByte, StartValue;
    CounterFitsField(SetHeaderFlag(p).(state := AtField(HeaderFieldStart)), HeaderFieldStart, ch, hc);
  }

  lemma CounterFitsStart(p: Parser, s: StartState, ch: Byte)
    requires p.state == AtStart(s)
    ensures CounterFits(p, StartTransition(p, s, ch))
  {
    hide MethodName, NextCandidate, FirstCandidate, IsAlpha;
  }

  lemma CounterFitsChunk(p: Parser, s: ChunkSizeState, t: ChunkDataState, ch: Byte)
    ensures p.state == AtChunkSize(s) ==> CounterFits(p, ChunkSizeTransition(p, s, ch))
    ensures p.state == AtChunkData(t) ==> CounterFits(p, ChunkDataTransition(p, t, ch))
  {
    hide Accumulate, Unhex;
  }

  lemma CounterFitsBody(p: Parser, s: BodyState, ch: Byte)
    requires p.state == AtBody(s)
    ensures CounterFits(p, BodyTransition(p, s, ch))
  {
    hide KeepAlive;
  }

  lemma CounterFitsStep(p: Parser, ch: Byte, hc: Callback, skip: bool)
    requires p.errno == OK
    ensures CounterFits(p, Step(p, ch, hc, skip))
  {
    hide StartTransition, StatusTransition, UrlTransition, VersionTransition, FieldTransition,
         ValueTransition, ChunkSizeTransition, ChunkDataTransition, BodyTransition;
    match p.state
    case AtStart(s) => CounterFitsStart(p, s, ch);
    case AtField(s) => CounterFitsField(p, s, ch, hc);
    case AtValue(s) => CounterFitsValue(p, s, ch, hc, skip);
    case AtChunkSize(s) => CounterFitsChunk(p, s, ChunkData, ch);
    case AtChunkData(s) => CounterFitsChunk(p, ChunkSize, s, ch);
    case AtBody(s) => CounterFitsBody(p, s, ch);
    case _ =>
  }
}
