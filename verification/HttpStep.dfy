/**
 The parser as a pure automaton: what http_parser_execute does with one byte.
 Each function models one group of arms of its switch; `goto reexecute` is a call.
 */
module HttpStep {
  import opened Basics
  import opened HttpTypes

  // The parser after one byte, what the arm did to marks and callbacks, in order, whether it
  // left http_parser_execute early because the rest of the input is another protocol, and
  // whether it set the header byte counter back to zero.
  datatype Result = Result(p: Parser, acts: Actions, exit: bool, reset: bool)

  function Go(p: Parser, s: State): Result { Result(p.(state := s), Nil, false, false) }

  function Stay(p: Parser): Result { Result(p, Nil, false, false) }

  function Fail(p: Parser, e: Errno): Result { Result(p.(errno := e), Nil, false, false) }

  function Acting(p: Parser, a: Action): Result { Result(p, Do(a, Nil), false, false) }

  // Performs `a` before whatever `r` does.
  function First(a: Action, r: Result): Result { r.(acts := Do(a, r.acts)) }

  // ---------------------------------------------------------------- end of message

  // http_message_needs_eof.
  predicate NeedsEof(p: Parser) {
    && p.typ != Request
    && p.status / 100 != 1 && p.status != 204 && p.status != 304 && !p.flags.skipBody
    && !p.flags.chunked && p.contentLength == ULLONG_MAX
  }

  // http_should_keep_alive.
  predicate KeepAlive(p: Parser) {
    && (if p.major > 0 && p.minor > 0 then !p.flags.close else p.flags.keepAlive)
    && !NeedsEof(p)
  }

  // NEW_MESSAGE under HTTP_PARSER_STRICT; `start_state` knows only two types.
  function NewMessage(p: Parser): StartState {
    if !KeepAlive(p) then Dead else if p.typ == Request then StartReq else StartRes
  }

  function CompleteMessage(p: Parser, exit: bool): Result {
    Result(p.(state := AtStart(NewMessage(p))), Do(Call(MessageComplete), Nil), exit, false)
  }

  // s_message_done.
  function FinishMessage(p: Parser): Result { CompleteMessage(p, p.upgrade) }

  // s_headers_done, entered on the LF that ends the headers.
  function FinishHeaders(p: Parser): (r: Result)
    ensures r.p == p.(state := r.p.state)
  {
    AfterHeaders(p).(reset := true)
  }

  function AfterHeaders(q: Parser): (r: Result)
    ensures r.p == q.(state := r.p.state)
  {
    var hasBody := q.flags.chunked || (q.contentLength > 0 && q.contentLength != ULLONG_MAX);
    if q.upgrade && (q.meth == CONNECT || q.flags.skipBody || !hasBody) then CompleteMessage(q, true)
    else if q.flags.skipBody then CompleteMessage(q, false)
    else if q.flags.chunked then Go(q, AtChunkSize(ChunkSizeStart))
    else if q.contentLength == 0 then CompleteMessage(q, false)
    else if q.contentLength != ULLONG_MAX then Go(q, AtBody(BodyIdentity))
    else if !NeedsEof(q) then CompleteMessage(q, false)
    else Go(q, AtBody(BodyIdentityEof))
  }

  function Answered(p: Parser, a: Answer): Parser {
    match a
    case Proceed => p
    case SkipBody => p.(flags := p.flags.(skipBody := true))
    case SkipBodyAndUpgrade => p.(flags := p.flags.(skipBody := true), upgrade := true)
  }

  // The parser on_headers_complete sees.
  function HeadersSeen(p: Parser): Parser {
    p.(state := AtField(HeadersDone),
       upgrade := (p.flags.upgrade && p.flags.connectionUpgrade) || p.meth == CONNECT)
  }

  // s_headers_almost_done.
  function EndHeaders(p: Parser, ch: Byte, hc: Callback): Result {
    if ch != LF then Fail(p, Strict)
    else if p.flags.trailing then First(Call(ChunkComplete), FinishMessage(p))
    else if p.flags.chunked && p.flags.contentLength then Fail(p, UnexpectedContentLength)
    else
      var q := HeadersSeen(p);
      First(Call(HeadersComplete), FinishHeaders(Answered(q, hc(q))))
  }

  // ---------------------------------------------------------------- headers

  // The header state chosen by the first byte of a header name.
  function FirstHeaderState(c: Byte): HeaderState {
    match TokenOf(c)
    case 'c' => C
    case 'p' => MatchingProxyConnection
    case 't' => MatchingTransferEncoding
    case 'u' => MatchingUpgrade
    case _ => General
  }

  // s_header_field_start.
  function StartField(p: Parser, ch: Byte, hc: Callback): Result {
    if ch == CR then Go(p, AtField(HeadersAlmostDone))
    else if ch == LF then EndHeaders(p.(state := AtField(HeadersAlmostDone)), ch, hc)
    else if !IsToken(ch) then Fail(p, InvalidHeaderToken)
    else Acting(p.(index := 0, state := AtField(HeaderField), hstate := FirstHeaderState(ch)),
                Mark(OnHeaderField))
  }

  // One step of matching a header name or value against a keyword: `hit` when its last byte
  // has been seen, `miss` when a byte differs.
  function MatchWord(p: Parser, c: Byte, word: string, hit: HeaderState, miss: HeaderState): (q: Parser)
    ensures q == p.(index := p.index + 1, hstate := q.hstate) && q.hstate in {p.hstate, hit, miss}
    ensures q.hstate == hit || q.hstate == miss || q.index < |word| - 1
  {
    var i := p.index + 1;
    if i >= |word| || c != word[i] then p.(index := i, hstate := miss)
    else if i == |word| - 1 then p.(index := i, hstate := hit)
    else p.(index := i)
  }

  // The body of the s_header_field loop, on a token byte.
  function FieldByte(p: Parser, ch: Byte): (q: Parser)
    ensures q == p.(index := q.index, hstate := q.hstate, flags := q.flags, errno := q.errno)
    ensures q.errno == p.errno || q.errno == UnexpectedContentLength
  {
    var c := TokenOf(ch);
    match p.hstate
    case C => p.(index := p.index + 1, hstate := if c == 'o' then CO else General)
    case CO => p.(index := p.index + 1, hstate := if c == 'n' then CON else General)
    case CON => p.(index := p.index + 1,
                   hstate := if c == 'n' then MatchingConnection
                             else if c == 't' then MatchingContentLength else General)
    case MatchingConnection => MatchWord(p, c, CONNECTION, Connection, General)
    case MatchingProxyConnection => MatchWord(p, c, PROXY_CONNECTION, Connection, General)
    case MatchingContentLength =>
      var q := MatchWord(p, c, CONTENT_LENGTH, ContentLength, General);
      if q.hstate != ContentLength then q
      else if p.flags.contentLength then p.(index := q.index, errno := UnexpectedContentLength)
      else q.(flags := q.flags.(contentLength := true))
    case MatchingTransferEncoding => MatchWord(p, c, TRANSFER_ENCODING, TransferEncoding, General)
    case MatchingUpgrade => MatchWord(p, c, UPGRADE, Upgrade, General)
    case Connection | ContentLength | TransferEncoding | Upgrade =>
      if ch != ' ' then p.(hstate := General) else p
    case _ => p
  }

  // s_header_field.
  function InField(p: Parser, ch: Byte): Result {
    if IsToken(ch) then Stay(FieldByte(p, ch))
    else if ch == ':' then Acting(p.(state := AtValue(HeaderValueDiscardWs)), Flush(OnHeaderField))
    else Fail(p, InvalidHeaderToken)
  }

  function FieldTransition(p: Parser, s: FieldState, ch: Byte, hc: Callback): Result {
    match s
    case HeaderFieldStart => StartField(p, ch, hc)
    case HeaderField => InField(p, ch)
    case HeadersAlmostDone => EndHeaders(p, ch, hc)
    case HeadersDone => if ch != LF then Fail(p, Strict) else FinishHeaders(p)
  }

  // The header state chosen by the first byte of a header value.
  function FirstValueState(h: HeaderState, c: Byte): HeaderState {
    match h
    case TransferEncoding => if c == 'c' then MatchingTransferEncodingChunked else General
    case ContentLength | MatchingConnectionTokenStart => h
    case Connection =>
      if c == 'k' then MatchingConnectionKeepAlive
      else if c == 'c' then MatchingConnectionClose
      else if c == 'u' then MatchingConnectionUpgrade
      else MatchingConnectionToken
    case _ => General
  }

  // s_header_value_start.
  function StartValue(p: Parser, ch: Byte): (r: Result)
    ensures r.p == p.(state := AtValue(HeaderValue), index := 0, hstate := r.p.hstate, flags := r.p.flags,
                      contentLength := r.p.contentLength, errno := r.p.errno)
    ensures r.acts == Do(Mark(OnHeaderValue), Nil) && !r.exit
    ensures r.p.errno == p.errno || r.p.errno == InvalidContentLength
  {
    var q := p.(state := AtValue(HeaderValue), index := 0, hstate := FirstValueState(p.hstate, Lower(ch)));
    var q' := match p.hstate
              case Upgrade => q.(flags := q.flags.(upgrade := true))
              case ContentLength =>
                if IsNum(ch) then q.(contentLength := DigitOf(ch)) else q.(errno := InvalidContentLength)
              case _ => q;
    Acting(q', Mark(OnHeaderValue))
  }

  // The three Connection tokens and the chunked coding are flagged when the token ends.
  function SetHeaderFlag(p: Parser): (q: Parser)
    ensures q == p.(flags := q.flags) && q.flags.trailing == p.flags.trailing
    ensures q.flags.contentLength == p.flags.contentLength && (p.flags.chunked ==> q.flags.chunked)
  {
    match p.hstate
    case ConnectionKeepAlive => p.(flags := p.flags.(keepAlive := true))
    case ConnectionClose => p.(flags := p.flags.(close := true))
    case ConnectionUpgrade => p.(flags := p.flags.(connectionUpgrade := true))
    case TransferEncodingChunked => p.(flags := p.flags.(chunked := true))
    case _ => p
  }

  // Appends a digit to a 64-bit accumulator, as the code does: the product may wrap, but then
  // the conservative limit has been passed already.
  function Accumulate(p: Parser, base: nat, d: nat): (q: Parser)
    requires base > 0 && base < ULLONG_MAX
    ensures q == p.(contentLength := q.contentLength, errno := q.errno)
    ensures q.errno == p.errno || q.errno == InvalidContentLength
  {
    var t := (p.contentLength * base + d) % TWO64;
    if (ULLONG_MAX - base) / base < p.contentLength then p.(errno := InvalidContentLength)
    else p.(contentLength := t)
  }

  // The body of the s_header_value loop, on a byte other than CR and LF.
  function ValueByte(p: Parser, ch: Byte): (q: Parser)
    ensures q == p.(index := q.index, hstate := q.hstate, flags := q.flags, errno := q.errno,
                    contentLength := q.contentLength)
    ensures q.errno == p.errno || q.errno == InvalidContentLength
  {
    var c := Lower(ch);
    match p.hstate
    case General | Connection | TransferEncoding => p
    case ContentLength =>
      if ch == ' ' then p
      else if !IsNum(ch) then p.(errno := InvalidContentLength)
      else Accumulate(p, 10, DigitOf(ch))
    case MatchingTransferEncodingChunked => MatchWord(p, c, CHUNKED, TransferEncodingChunked, General)
    case MatchingConnectionTokenStart =>
      p.(hstate := if c == 'k' then MatchingConnectionKeepAlive
                   else if c == 'c' then MatchingConnectionClose
                   else if c == 'u' then MatchingConnectionUpgrade
                   else if IsToken(c) then MatchingConnectionToken
                   else if c == ' ' || c == '\t' then p.hstate
                   else General)
    case MatchingConnectionKeepAlive => MatchWord(p, c, KEEP_ALIVE, ConnectionKeepAlive, MatchingConnectionToken)
    case MatchingConnectionClose => MatchWord(p, c, CLOSE, ConnectionClose, MatchingConnectionToken)
    case MatchingConnectionUpgrade => MatchWord(p, c, UPGRADE, ConnectionUpgrade, MatchingConnectionToken)
    case MatchingConnectionToken =>
      if ch == ',' then p.(hstate := MatchingConnectionTokenStart, index := 0) else p
    case TransferEncodingChunked => if ch != ' ' then p.(hstate := General) else p
    case ConnectionKeepAlive | ConnectionClose | ConnectionUpgrade =>
      if ch == ',' then SetHeaderFlag(p).(hstate := MatchingConnectionTokenStart, index := 0)
      else if ch != ' ' then p.(hstate := MatchingConnectionToken) else p
    case _ => p.(hstate := General)
  }

  // s_header_almost_done.
  function EndValue(p: Parser, ch: Byte): Result {
    if ch != LF then Fail(p, LfExpected) else Go(p, AtValue(HeaderValueLws))
  }

  // s_header_value.  `skip` says that memchr has already passed over this byte, so that its
  // character class is not checked.
  function InValue(p: Parser, ch: Byte, skip: bool): Result {
    var q := p.(state := AtValue(HeaderAlmostDone));
    if ch == CR then Acting(q, Flush(OnHeaderValue))
    else if ch == LF then First(Flush(OnHeaderValue), EndValue(q, ch))
    else if !skip && !p.lenient && !IsHeaderChar(ch) then Fail(p, InvalidHeaderToken)
    else Stay(ValueByte(p, ch))
  }

  // The header is finished: it was empty (s_header_value_discard_lws) or not (s_header_value_lws).
  function EndField(p: Parser, ch: Byte, hc: Callback): Result {
    StartField(SetHeaderFlag(p).(state := AtField(HeaderFieldStart)), ch, hc)
  }

  function ValueTransition(p: Parser, s: ValueState, ch: Byte, hc: Callback, skip: bool): Result {
    match s
    case HeaderValueDiscardWs =>
      if ch == ' ' || ch == '\t' then Stay(p)
      else if ch == CR then Go(p, AtValue(HeaderValueDiscardWsAlmostDone))
      else if ch == LF then Go(p, AtValue(HeaderValueDiscardLws))
      else StartValue(p, ch)
    case HeaderValueDiscardWsAlmostDone =>
      if ch != LF then Fail(p, Strict) else Go(p, AtValue(HeaderValueDiscardLws))
    case HeaderValueDiscardLws =>
      if ch == ' ' || ch == '\t' then Go(p, AtValue(HeaderValueDiscardWs))
      else First(Mark(OnHeaderValue), First(Flush(OnHeaderValue), EndField(p, ch, hc)))
    case HeaderValueStart => StartValue(p, ch)
    case HeaderValue => InValue(p, ch, skip)
    case HeaderValueLws =>
      if ch == ' ' || ch == '\t' then StartValue(p, ch) else EndField(p, ch, hc)
    case HeaderAlmostDone => EndValue(p, ch)
  }

  // ---------------------------------------------------------------- bodies

  function ChunkSizeTransition(p: Parser, s: ChunkSizeState, ch: Byte): Result {
    match s
    case ChunkSizeStart =>
      if Unhex(ch) == -1 then Fail(p, InvalidChunkSize)
      else Go(p.(contentLength := Unhex(ch)), AtChunkSize(ChunkSize))
    case ChunkSize =>
      if ch == CR then Go(p, AtChunkSize(ChunkSizeAlmostDone))
      else if Unhex(ch) == -1 then
        if ch == ';' || ch == ' ' then Go(p, AtChunkSize(ChunkParameters)) else Fail(p, InvalidChunkSize)
      else Stay(Accumulate(p, 16, Unhex(ch)))
    case ChunkParameters => if ch == CR then Go(p, AtChunkSize(ChunkSizeAlmostDone)) else Stay(p)
    case ChunkSizeAlmostDone =>
      if ch != LF then Fail(p, Strict)
      else if p.contentLength == 0 then
        Acting(p.(flags := p.flags.(trailing := true), state := AtField(HeaderFieldStart)),
               Call(ChunkHeader(0))).(reset := true)
      else Acting(p.(state := AtChunkData(ChunkData)), Call(ChunkHeader(p.contentLength))).(reset := true)
  }

  function ChunkDataTransition(p: Parser, s: ChunkDataState, ch: Byte): Result {
    match s
    case ChunkData =>
      var left := if p.contentLength == 0 then 0 else p.contentLength - 1;
      Acting(p.(contentLength := left, state := AtChunkData(if left == 0 then ChunkDataAlmostDone else ChunkData)),
             Mark(OnBody))
    case ChunkDataAlmostDone =>
      if ch != CR then Fail(p, Strict) else Acting(p.(state := AtChunkData(ChunkDataDone)), Flush(OnBody))
    case ChunkDataDone =>
      if ch != LF then Fail(p, Strict)
      else Acting(p.(state := AtChunkSize(ChunkSizeStart)), Call(ChunkComplete)).(reset := true)
  }

  function BodyTransition(p: Parser, s: BodyState, ch: Byte): Result {
    match s
    case BodyIdentity =>
      var left := if p.contentLength == 0 then 0 else p.contentLength - 1;
      var q := p.(contentLength := left);
      if left == 0 then
        First(Mark(OnBody), First(FlushThrough(OnBody), FinishMessage(q.(state := AtBody(MessageDone)))))
      else Acting(q, Mark(OnBody))
    case BodyIdentityEof => Acting(p, Mark(OnBody))
    case MessageDone => FinishMessage(p)
  }

  // ---------------------------------------------------------------- request line

  // parse_url_char.
  function NextUrlState(s: UrlState, ch: Byte): UrlState {
    if ch in " \r\n\t\U{c}" then UrlDead
    else match s
      case ReqSpacesBeforeUrl =>
        if ch == '/' || ch == '*' then ReqPath else if IsAlpha(ch) then ReqSchema else UrlDead
      case ReqSchema => if IsAlpha(ch) then s else if ch == ':' then ReqSchemaSlash else UrlDead
      case ReqSchemaSlash => if ch == '/' then ReqSchemaSlashSlash else UrlDead
      case ReqSchemaSlashSlash => if ch == '/' then ReqServerStart else UrlDead
      case ReqServerStart | ReqServer | ReqServerWithAt =>
        if s == ReqServerWithAt && ch == '@' then UrlDead
        else if ch == '/' then ReqPath
        else if ch == '?' then ReqQueryStringStart
        else if ch == '@' then ReqServerWithAt
        else if IsUserinfoChar(ch) || ch == '[' || ch == ']' then ReqServer
        else UrlDead
      case ReqPath =>
        if IsUrlChar(ch) then s
        else if ch == '?' then ReqQueryStringStart
        else if ch == '#' then ReqFragmentStart else UrlDead
      case ReqQueryStringStart | ReqQueryString =>
        if IsUrlChar(ch) || ch == '?' then ReqQueryString
        else if ch == '#' then ReqFragmentStart else UrlDead
      case ReqFragmentStart =>
        if IsUrlChar(ch) || ch == '?' then ReqFragment else if ch == '#' then s else UrlDead
      case ReqFragment => if IsUrlChar(ch) || ch == '?' || ch == '#' then s else UrlDead
      case UrlDead => UrlDead
  }

  // UPDATE_STATE(parse_url_char(s, ch)) and the test for s_dead.
  function UrlByte(p: Parser, s: UrlState, ch: Byte): (q: Parser)
    ensures q == p.(state := q.state, errno := q.errno)
    ensures q.errno != InvalidUrl ==> q.state.AtUrl?
  {
    var t := NextUrlState(s, ch);
    if t == UrlDead then p.(state := AtStart(Dead), errno := InvalidUrl) else p.(state := AtUrl(t))
  }

  // The states in which a URL may not end.
  predicate UrlOpen(s: UrlState) {
    s.ReqSchema? || s.ReqSchemaSlash? || s.ReqSchemaSlashSlash? || s.ReqServerStart?
  }

  function UrlTransition(p: Parser, s: UrlState, ch: Byte): (r: Result)
    ensures !r.exit && (r.p.errno == p.errno || IsSyntaxError(r.p.errno))
    ensures r.p == p.(state := r.p.state, major := r.p.major, minor := r.p.minor, errno := r.p.errno)
    ensures r.p.errno == OK ==> r.p.state.AtUrl? || r.p.state.AtVersion? || r.p.state == AtField(HeaderFieldStart)
  {
    if s == ReqSpacesBeforeUrl then
      if ch == ' ' then Stay(p.(state := AtUrl(s)))
      else Acting(UrlByte(p, if p.meth == CONNECT then ReqServerStart else s, ch), Mark(OnUrl))
    else if UrlOpen(s) && (ch == ' ' || ch == CR || ch == LF) then Fail(p, InvalidUrl)
    else if ch == ' ' then Acting(p.(state := AtVersion(ReqHttpStart)), Flush(OnUrl))
    else if ch == CR || ch == LF then
      Acting(p.(major := 0, minor := 9,
                state := if ch == CR then AtVersion(ReqLineAlmostDone) else AtField(HeaderFieldStart)),
             Flush(OnUrl))
    else Stay(UrlByte(p, s, ch))
  }

  // A literal byte of "HTTP/".
  function Expect(p: Parser, ch: Byte, want: Byte, next: State): Result {
    if ch != want then Fail(p, Strict) else Go(p, next)
  }

  // A version or status number is checked against 999 whenever it grows.
  function Cap(n: nat): nat { if n < 999 then 999 else n }

  function MoreMajor(p: Parser, ch: Byte): Result {
    if !IsNum(ch) then Fail(p, InvalidVersion)
    else
      var q := p.(major := p.major * 10 + DigitOf(ch));
      if q.major > 999 then Fail(q, InvalidVersion) else Stay(q)
  }

  function MoreMinor(p: Parser, ch: Byte): Result {
    if !IsNum(ch) then Fail(p, InvalidVersion)
    else
      var q := p.(minor := p.minor * 10 + DigitOf(ch));
      if q.minor > 999 then Fail(q, InvalidVersion) else Stay(q)
  }

  function VersionTransition(p: Parser, s: VersionState, ch: Byte): (r: Result)
    ensures !r.exit && (r.p.errno == p.errno || IsSyntaxError(r.p.errno))
    ensures r.p == p.(state := r.p.state, major := r.p.major, minor := r.p.minor, errno := r.p.errno)
    ensures r.p.errno == OK ==> r.p.state == p.state || r.p.state.AtVersion? || r.p.state == AtField(HeaderFieldStart)
    ensures r.p.errno == OK ==> r.p.major <= Cap(p.major) && r.p.minor <= Cap(p.minor)
  {
    match s
    case ReqHttpStart =>
      if ch == 'H' then Go(p, AtVersion(ReqHttpH)) else if ch == ' ' then Stay(p) else Fail(p, InvalidConstant)
    case ReqHttpH => Expect(p, ch, 'T', AtVersion(ReqHttpHT))
    case ReqHttpHT => Expect(p, ch, 'T', AtVersion(ReqHttpHTT))
    case ReqHttpHTT => Expect(p, ch, 'P', AtVersion(ReqHttpHTTP))
    case ReqHttpHTTP => Expect(p, ch, '/', AtVersion(ReqFirstMajor))
    case ReqFirstMajor | ReqMajor | ReqFirstMinor | ReqMinor => VersionNumberTransition(p, s, ch)
    case ReqLineAlmostDone => if ch != LF then Fail(p, LfExpected) else Go(p, AtField(HeaderFieldStart))
  }

  function VersionNumberTransition(p: Parser, s: VersionState, ch: Byte): (r: Result)
    ensures !r.exit && (r.p.errno == p.errno || IsSyntaxError(r.p.errno))
    ensures r.p == p.(state := r.p.state, major := r.p.major, minor := r.p.minor, errno := r.p.errno)
    ensures r.p.errno == OK ==> r.p.state == p.state || r.p.state.AtVersion? || r.p.state == AtField(HeaderFieldStart)
    ensures r.p.errno == OK ==> r.p.major <= Cap(p.major) && r.p.minor <= Cap(p.minor)
  {
    match s
    case ReqFirstMajor =>
      if '1' <= ch <= '9' then Go(p.(major := DigitOf(ch)), AtVersion(ReqMajor)) else Fail(p, InvalidVersion)
    case ReqMajor => if ch == '.' then Go(p, AtVersion(ReqFirstMinor)) else MoreMajor(p, ch)
    case ReqFirstMinor =>
      if IsNum(ch) then Go(p.(minor := DigitOf(ch)), AtVersion(ReqMinor)) else Fail(p, InvalidVersion)
    case _ =>
      if ch == CR then Go(p, AtVersion(ReqLineAlmostDone))
      else if ch == LF then Go(p, AtField(HeaderFieldStart)) else MoreMinor(p, ch)
  }

  // ---------------------------------------------------------------- status line

  function StatusTransition(p: Parser, s: StatusState, ch: Byte): (r: Result)
    ensures !r.reset && !r.exit && (r.p.errno == p.errno || IsSyntaxError(r.p.errno))
    ensures r.p == p.(state := r.p.state, index := r.p.index, major := r.p.major, minor := r.p.minor,
                      status := r.p.status, errno := r.p.errno)
    ensures r.p.errno == OK ==> r.p.state == p.state || r.p.state.AtStatus? || r.p.state == AtField(HeaderFieldStart)
    ensures r.p.errno == OK ==>
              r.p.major <= Cap(p.major) && r.p.minor <= Cap(p.minor) && r.p.status <= Cap(p.status) &&
              r.p.index <= p.index
  {
    match s
    case ResH => Expect(p, ch, 'T', AtStatus(ResHT))
    case ResHT => Expect(p, ch, 'T', AtStatus(ResHTT))
    case ResHTT => Expect(p, ch, 'P', AtStatus(ResHTTP))
    case ResHTTP => Expect(p, ch, '/', AtStatus(ResFirstMajor))
    case ResFirstMajor | ResMajor | ResFirstMinor | ResMinor => StatusVersionTransition(p, s, ch)
    case _ => StatusCodeTransition(p, s, ch)
  }

  function StatusVersionTransition(p: Parser, s: StatusState, ch: Byte): (r: Result)
    ensures !r.reset && !r.exit && (r.p.errno == p.errno || IsSyntaxError(r.p.errno))
    ensures r.p == p.(state := r.p.state, major := r.p.major, minor := r.p.minor, errno := r.p.errno)
    ensures r.p.errno == OK ==> r.p.state == p.state || r.p.state.AtStatus?
    ensures r.p.errno == OK ==> r.p.major <= Cap(p.major) && r.p.minor <= Cap(p.minor)
  {
    match s
    case ResFirstMajor =>
      if IsNum(ch) then Go(p.(major := DigitOf(ch)), AtStatus(ResMajor)) else Fail(p, InvalidVersion)
    case ResMajor => if ch == '.' then Go(p, AtStatus(ResFirstMinor)) else MoreMajor(p, ch)
    case ResFirstMinor =>
      if IsNum(ch) then Go(p.(minor := DigitOf(ch)), AtStatus(ResMinor)) else Fail(p, InvalidVersion)
    case _ => if ch == ' ' then Go(p, AtStatus(ResFirstStatusCode)) else MoreMinor(p, ch)
  }

  function StatusCodeTransition(p: Parser, s: StatusState, ch: Byte): (r: Result)
    ensures !r.reset && !r.exit && (r.p.errno == p.errno || IsSyntaxError(r.p.errno))
    ensures r.p == p.(state := r.p.state, index := r.p.index, status := r.p.status, errno := r.p.errno)
    ensures r.p.errno == OK ==> r.p.state == p.state || r.p.state.AtStatus? || r.p.state == AtField(HeaderFieldStart)
    ensures r.p.errno == OK ==> r.p.status <= Cap(p.status) && r.p.index <= p.index
  {
    match s
    case ResFirstStatusCode =>
      if IsNum(ch) then Go(p.(status := DigitOf(ch)), AtStatus(ResStatusCode))
      else if ch == ' ' then Stay(p) else Fail(p, InvalidStatus)
    case ResStatusCode =>
      if IsNum(ch) then
        var q := p.(status := p.status * 10 + DigitOf(ch));
        if q.status > 999 then Fail(q, InvalidStatus) else Stay(q)
      else if ch == ' ' then Go(p, AtStatus(ResStatusStart)) else EndStatus(p, ch, InvalidStatus)
    case ResStatusStart =>
      if ch == CR || ch == LF then EndStatus(p, ch, Strict)
      else Acting(p.(state := AtStatus(ResStatus), index := 0), Mark(OnStatus))
    case ResStatus =>
      if ch == CR || ch == LF then First(Flush(OnStatus), EndStatus(p, ch, Strict)) else Stay(p)
    case _ => if ch != LF then Fail(p, Strict) else Go(p, AtField(HeaderFieldStart))
  }

  function EndStatus(p: Parser, ch: Byte, otherwise: Errno): Result {
    if ch == CR then Go(p, AtStatus(ResLineAlmostDone))
    else if ch == LF then Go(p, AtField(HeaderFieldStart))
    else Fail(p, otherwise)
  }

  // ---------------------------------------------------------------- start of a message

  // The first candidate for a method, by its first byte.
  function FirstCandidate(ch: Byte): Option<Method> {
    match ch
    case 'A' => Some(ACL) case 'B' => Some(BIND) case 'C' => Some(CONNECT) case 'D' => Some(DELETE)
    case 'G' => Some(GET) case 'H' => Some(HEAD) case 'L' => Some(LOCK) case 'M' => Some(MKCOL)
    case 'N' => Some(NOTIFY) case 'O' => Some(OPTIONS) case 'P' => Some(POST) case 'R' => Some(REPORT)
    case 'S' => Some(SUBSCRIBE) case 'T' => Some(TRACE) case 'U' => Some(UNLOCK)
    case _ => None
  }

  // The table of candidate switches, XX(meth, pos, ch, new_meth), and the one to M-SEARCH.
  function NextCandidate(m: Method, i: nat, ch: Byte): Option<Method> {
    match m
    case POST => if i != 1 then None else if ch == 'U' then Some(PUT) else if ch == 'A' then Some(PATCH)
                 else if ch == 'R' then Some(PROPFIND) else None
    case CONNECT => if i == 1 && ch == 'H' then Some(CHECKOUT)
                    else if i == 2 && ch == 'P' then Some(COPY) else None
    case MKCOL => if i == 1 && ch == 'O' then Some(MOVE) else if i == 1 && ch == 'E' then Some(MERGE)
                  else if i == 2 && ch == 'A' then Some(MKACTIVITY)
                  else if i == 3 && ch == 'A' then Some(MKCALENDAR)
                  else if i == 1 && ch == '-' then Some(MSEARCH) else None
    case SUBSCRIBE => if i == 1 && ch == 'E' then Some(SEARCH) else None
    case REPORT => if i == 2 && ch == 'B' then Some(REBIND) else None
    case PROPFIND => if i == 4 && ch == 'P' then Some(PROPPATCH) else None
    case PUT => if i == 2 && ch == 'R' then Some(PURGE) else None
    case LOCK => if i == 1 && ch == 'I' then Some(LINK) else None
    case UNLOCK => if i == 2 && ch == 'S' then Some(UNSUBSCRIBE) else if i == 2 && ch == 'B' then Some(UNBIND)
                   else if i == 3 && ch == 'I' then Some(UNLINK) else None
    case _ => None
  }

  // s_req_method.  method_strings[method][index] is NUL at the end of the name.
  function InMethod(p: Parser, ch: Byte): Result {
    var name := MethodName(p.meth);
    var q := p.(index := p.index + 1);
    if ch == '\0' then Fail(p, InvalidMethod)
    else if ch == ' ' && p.index == |name| then Go(q, AtUrl(ReqSpacesBeforeUrl))
    else if p.index < |name| && ch == name[p.index] then Stay(q)
    else match NextCandidate(p.meth, p.index, ch)
      case Some(m) => Stay(q.(meth := m))
      case None => Fail(p, InvalidMethod)
  }

  function Cleared(p: Parser): Parser { p.(flags := NO_FLAGS, contentLength := ULLONG_MAX) }

  // s_start_req.
  function StartRequest(p: Parser, ch: Byte): Result {
    if ch == CR || ch == LF then Stay(p)
    else if !IsAlpha(ch) then Fail(Cleared(p), InvalidMethod)
    else match FirstCandidate(ch)
      case None => Fail(Cleared(p).(meth := DELETE, index := 1), InvalidMethod)
      case Some(m) =>
        Acting(Cleared(p).(meth := m, index := 1, state := AtStart(ReqMethod)), Call(MessageBegin))
  }

  function StartTransition(p: Parser, s: StartState, ch: Byte): Result {
    match s
    case Dead => if ch == CR || ch == LF then Stay(p) else Fail(p, ClosedConnection)
    case StartReqOrRes =>
      if ch == CR || ch == LF then Stay(p)
      else if ch == 'H' then Acting(Cleared(p).(state := AtStart(ResOrRespH)), Call(MessageBegin))
      else StartRequest(Cleared(p).(typ := Request, state := AtStart(StartReq)), ch)
    case ResOrRespH =>
      if ch == 'T' then Go(p.(typ := Response), AtStatus(ResHT))
      else if ch != 'E' then Fail(p, InvalidConstant)
      else Go(p.(typ := Request, meth := HEAD, index := 2), AtStart(ReqMethod))
    case StartRes =>
      if ch == 'H' then Acting(Cleared(p).(state := AtStatus(ResH)), Call(MessageBegin))
      else if ch == CR || ch == LF then Acting(Cleared(p), Call(MessageBegin))
      else Fail(Cleared(p), InvalidConstant)
    case StartReq => StartRequest(p, ch)
    case ReqMethod => InMethod(p, ch)
  }

  // ---------------------------------------------------------------- the whole switch

  function Step(p: Parser, ch: Byte, hc: Callback, skip: bool): Result {
    match p.state
    case AtStart(s) => StartTransition(p, s, ch)
    case AtStatus(s) => StatusTransition(p, s, ch)
    case AtUrl(s) => UrlTransition(p, s, ch)
    case AtVersion(s) => VersionTransition(p, s, ch)
    case AtField(s) => FieldTransition(p, s, ch, hc)
    case AtValue(s) => ValueTransition(p, s, ch, hc, skip)
    case AtChunkSize(s) => ChunkSizeTransition(p, s, ch)
    case AtChunkData(s) => ChunkDataTransition(p, s, ch)
    case AtBody(s) => BodyTransition(p, s, ch)
  }
}
