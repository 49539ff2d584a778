/**
 The vocabulary of the HTTP/1.x parser: bytes and their classes, the automaton states,
 the parser record, and the callbacks it makes.
 */
module HttpTypes {

  // ---------------------------------------------------------------- bytes

  // A byte of input.  Every table of the parser treats all bytes from 128 up alike, and the
  // character classes below do the same, so nothing depends on the upper bound 255.
  type Byte = char
  type Bytes = seq<Byte>

  const CR: Byte := '\r'
  const LF: Byte := '\n'

  // The code's `c | 0x20`; bytes from 128 up are never equal to what it is compared with.
  function Lower(c: Byte): Byte {
    if c as int < 128 && (c as int / 32) % 2 == 0 then (c as int + 32) as char else c
  }

  predicate IsAlpha(c: Byte) { 'a' <= Lower(c) <= 'z' }

  predicate IsNum(c: Byte) { '0' <= c <= '9' }

  predicate IsAlphaNum(c: Byte) { IsAlpha(c) || IsNum(c) }

  predicate IsHex(c: Byte) { IsNum(c) || 'a' <= Lower(c) <= 'f' }

  predicate IsMark(c: Byte) { c in "-_.!~*'()" }

  predicate IsUserinfoChar(c: Byte) { IsAlphaNum(c) || IsMark(c) || c in "%;:&=+$," }

  // normal_url_char under HTTP_PARSER_STRICT: the visible ASCII bytes except '#' and '?'.
  predicate IsUrlChar(c: Byte) { '!' <= c <= '~' && c != '#' && c != '?' }

  predicate IsHostChar(c: Byte) { IsAlphaNum(c) || c == '.' || c == '-' }

  predicate IsHeaderChar(c: Byte) { c == CR || c == LF || c == '\t' || (c >= ' ' && c as int != 127) }

  // The `tokens` table: header-name bytes (it also lower-cases them; here Lower does that).
  predicate IsToken(c: Byte) { IsAlphaNum(c) || c in "!#$%&'*+-.^_`|~" }

  // tokens[c] for a token byte: letters are lowered, the other token bytes are kept.
  function TokenOf(c: Byte): Byte {
    if IsAlpha(c) then Lower(c) else c
  }

  // The `unhex` table.  Its initialiser lists 128 entries, so the entries from 128 up are 0,
  // not -1: bytes with the high bit set read as the digit zero.
  function Unhex(c: Byte): int {
    if IsNum(c) then c as int - '0' as int
    else if 'a' <= c <= 'f' then c as int - 'a' as int + 10
    else if 'A' <= c <= 'F' then c as int - 'A' as int + 10
    else if c as int >= 128 then 0
    else -1
  }

  function DigitOf(c: Byte): nat
    requires IsNum(c)
  {
    c as int - '0' as int
  }

  // ---------------------------------------------------------------- constants

  const ULLONG_MAX: nat := 0xffff_ffff_ffff_ffff
  const HTTP_MAX_HEADER_SIZE: nat := 80 * 1024

  const PROXY_CONNECTION: string := "proxy-connection"
  const CONNECTION: string := "connection"
  const CONTENT_LENGTH: string := "content-length"
  const TRANSFER_ENCODING: string := "transfer-encoding"
  const UPGRADE: string := "upgrade"
  const CHUNKED: string := "chunked"
  const KEEP_ALIVE: string := "keep-alive"
  const CLOSE: string := "close"

  // ---------------------------------------------------------------- the automaton

  // `enum state`, grouped by the part of the message each state belongs to.

  datatype StartState = Dead | StartReqOrRes | ResOrRespH | StartRes | StartReq | ReqMethod

  datatype StatusState =
    | ResH | ResHT | ResHTT | ResHTTP | ResFirstMajor | ResMajor | ResFirstMinor | ResMinor
    | ResFirstStatusCode | ResStatusCode | ResStatusStart | ResStatus | ResLineAlmostDone

  // The states of parse_url_char; UrlDead stands for its answer s_dead.
  datatype UrlState =
    | ReqSpacesBeforeUrl | ReqSchema | ReqSchemaSlash | ReqSchemaSlashSlash
    | ReqServerStart | ReqServer | ReqServerWithAt
    | ReqPath | ReqQueryStringStart | ReqQueryString | ReqFragmentStart | ReqFragment | UrlDead

  datatype VersionState =
    | ReqHttpStart | ReqHttpH | ReqHttpHT | ReqHttpHTT | ReqHttpHTTP
    | ReqFirstMajor | ReqMajor | ReqFirstMinor | ReqMinor | ReqLineAlmostDone

  datatype FieldState = HeaderFieldStart | HeaderField | HeadersAlmostDone | HeadersDone

  datatype ValueState =
    | HeaderValueDiscardWs | HeaderValueDiscardWsAlmostDone | HeaderValueDiscardLws
    | HeaderValueStart | HeaderValue | HeaderValueLws | HeaderAlmostDone

  datatype ChunkSizeState = ChunkSizeStart | ChunkSize | ChunkParameters | ChunkSizeAlmostDone

  datatype ChunkDataState = ChunkData | ChunkDataAlmostDone | ChunkDataDone

  datatype BodyState = BodyIdentity | BodyIdentityEof | MessageDone

  datatype State =
    | AtStart(start: StartState) | AtStatus(res: StatusState)
    | AtUrl(url: UrlState) | AtVersion(version: VersionState)
    | AtField(field: FieldState) | AtValue(value: ValueState)
    | AtChunkSize(size: ChunkSizeState) | AtChunkData(data: ChunkDataState) | AtBody(body: BodyState)

  // PARSING_HEADER: every state up to s_headers_done counts against the header budget.
  predicate ParsingHeader(s: State) { !s.AtChunkData? && !s.AtBody? }

  datatype HeaderState =
    | General
    | C | CO | CON
    | MatchingConnection | MatchingProxyConnection | MatchingContentLength
    | MatchingTransferEncoding | MatchingUpgrade
    | Connection | ContentLength | TransferEncoding | Upgrade
    | MatchingTransferEncodingChunked
    | MatchingConnectionTokenStart | MatchingConnectionKeepAlive
    | MatchingConnectionClose | MatchingConnectionUpgrade | MatchingConnectionToken
    | TransferEncodingChunked | ConnectionKeepAlive | ConnectionClose | ConnectionUpgrade

  datatype ParserType = Request | Response | Both

  datatype Method =
    | DELETE | GET | HEAD | POST | PUT | CONNECT | OPTIONS | TRACE
    | COPY | LOCK | MKCOL | MOVE | PROPFIND | PROPPATCH | SEARCH | UNLOCK
    | BIND | REBIND | UNBIND | ACL
    | REPORT | MKACTIVITY | CHECKOUT | MERGE
    | MSEARCH | NOTIFY | SUBSCRIBE | UNSUBSCRIBE
    | PATCH | PURGE | MKCALENDAR | LINK | UNLINK

  function MethodName(m: Method): string {
    match m
    case DELETE => "DELETE" case GET => "GET" case HEAD => "HEAD" case POST => "POST"
    case PUT => "PUT" case CONNECT => "CONNECT" case OPTIONS => "OPTIONS" case TRACE => "TRACE"
    case COPY => "COPY" case LOCK => "LOCK" case MKCOL => "MKCOL" case MOVE => "MOVE"
    case PROPFIND => "PROPFIND" case PROPPATCH => "PROPPATCH" case SEARCH => "SEARCH"
    case UNLOCK => "UNLOCK" case BIND => "BIND" case REBIND => "REBIND" case UNBIND => "UNBIND"
    case ACL => "ACL" case REPORT => "REPORT" case MKACTIVITY => "MKACTIVITY"
    case CHECKOUT => "CHECKOUT" case MERGE => "MERGE" case MSEARCH => "M-SEARCH"
    case NOTIFY => "NOTIFY" case SUBSCRIBE => "SUBSCRIBE" case UNSUBSCRIBE => "UNSUBSCRIBE"
    case PATCH => "PATCH" case PURGE => "PURGE" case MKCALENDAR => "MKCALENDAR"
    case LINK => "LINK" case UNLINK => "UNLINK"
  }

  datatype Errno =
    | OK
    | InvalidEofState | HeaderOverflow | ClosedConnection
    | InvalidVersion | InvalidStatus | InvalidMethod | InvalidUrl
    | LfExpected | InvalidHeaderToken | InvalidContentLength | UnexpectedContentLength
    | InvalidChunkSize | InvalidConstant | Strict

  // The errors a byte can cause; the header budget and the end of input cause the other two.
  predicate IsSyntaxError(e: Errno) { !e.OK? && !e.InvalidEofState? && !e.HeaderOverflow? }

  datatype Flags = Flags(
    chunked: bool, keepAlive: bool, close: bool, connectionUpgrade: bool,
    trailing: bool, upgrade: bool, skipBody: bool, contentLength: bool)

  const NO_FLAGS := Flags(false, false, false, false, false, false, false, false)

  /** struct http_parser, without its header byte counter `nread`, which no transition reads. */
  datatype Parser = Parser(
    typ: ParserType, flags: Flags, state: State, hstate: HeaderState, index: nat, lenient: bool,
    contentLength: nat,
    major: nat, minor: nat, status: nat, meth: Method, errno: Errno, upgrade: bool)

  // http_parser_init.
  function Init(t: ParserType, lenient: bool): Parser {
    Parser(t, NO_FLAGS, InitialState(t), General, 0, lenient, 0, 0, 0, 0, DELETE, OK, false)
  }

  function InitialState(t: ParserType): State {
    match t
    case Request => AtStart(StartReq)
    case Response => AtStart(StartRes)
    case Both => AtStart(StartReqOrRes)
  }

  // ---------------------------------------------------------------- callbacks

  // The data callbacks; each has its own mark in http_parser_execute.
  datatype Kind = OnHeaderField | OnHeaderValue | OnUrl | OnBody | OnStatus

  // The notification callbacks.  on_chunk_header finds the chunk's length in content_length.
  datatype Note = MessageBegin | HeadersComplete | ChunkHeader(length: nat) | ChunkComplete | MessageComplete

  datatype Event = Data(kind: Kind, bytes: Bytes) | Notify(note: Note)

  // What on_headers_complete may answer: 0, 1 or 2.
  datatype Answer = Proceed | SkipBody | SkipBodyAndUpgrade

  // The embedder's on_headers_complete, which sees the parser.
  type Callback = Parser -> Answer

  // What one switch arm of http_parser_execute does to marks and callbacks:
  // MARK, CALLBACK_DATA, the inclusive flush of the identity body, and CALLBACK_NOTIFY.
  datatype Action = Mark(kind: Kind) | Flush(kind: Kind) | FlushThrough(kind: Kind) | Call(note: Note)

  // The actions of one arm, in order.
  datatype Actions = Nil | Do(first: Action, rest: Actions)

  predicate Calls(acts: Actions, n: Note) {
    acts.Do? && (acts.first == Call(n) || Calls(acts.rest, n))
  }

  // ---------------------------------------------------------------- event logs

  // Appends a callback to a log in which adjacent data callbacks of one kind are merged.
  function Push(log: seq<Event>, e: Event): seq<Event> {
    if e.Data? && |log| > 0 && log[|log| - 1].Data? && log[|log| - 1].kind == e.kind then
      log[..|log| - 1] + [Data(e.kind, log[|log| - 1].bytes + e.bytes)]
    else
      log + [e]
  }

  function Emit(log: seq<Event>, es: seq<Event>): seq<Event>
    decreases |es|
  {
    if es == [] then log else Emit(Push(log, es[0]), es[1..])
  }

  lemma {:induction false} EmitConcat(log: seq<Event>, a: seq<Event>, b: seq<Event>)
    ensures Emit(log, a + b) == Emit(Emit(log, a), b)
    decreases |a|
  {
    if a == [] {
      assert a + b == b;
    } else {
      assert (a + b)[1..] == a[1..] + b;
      EmitConcat(Push(log, a[0]), a[1..], b);
    }
  }

  lemma EmitNone(log: seq<Event>)
    ensures Emit(log, []) == log
  {
  }

  lemma EmitOne(log: seq<Event>, e: Event)
    ensures Emit(log, [e]) == Push(log, e)
  {
    assert [e][1..] == [];
  }

  // Splitting a data callback in two does not change the merged log.
  lemma PushSplit(log: seq<Event>, k: Kind, a: Bytes, b: Bytes)
    ensures Push(Push(log, Data(k, a)), Data(k, b)) == Push(log, Data(k, a + b))
  {
    if |log| > 0 && log[|log| - 1].Data? && log[|log| - 1].kind == k {
      var l := log[|log| - 1].bytes;
      assert l + a + b == l + (a + b);
    }
  }
}
