# Verified model of the HTTP parser, the message pump and the connection protocol

The project models, in Dafny, the parts of the repository where the reasoning is hard, and proves
what they promise about whole runs.

**The HTTP/1.x parser** (`base/net/http/http_parser.c`).  `HttpStep` is the switch of
`http_parser_execute` as a pure function of one byte: about sixty states, the nested header automaton,
64-bit lengths.  `HttpRun` follows it over whole inputs with the callbacks it makes.  `HttpExecute` is
the imperative `http_parser_execute`, with its marks, its inner header loops, its `memchr` scan, its bulk
body reads and its header budget, in a class; `Execute` is proved to do, on every buffer, what the
one-byte automaton does.  On top of that stand

- fragmentation: exactly when cutting the input into buffers makes no difference (`HttpRun`, `HttpCuts`), exactly
  what an error leaves unreported (`HttpLost`), and what the object has reported after any number of calls
  (`HttpSession`);
- every reachable state satisfies the code's own asserts (`HttpInvariant`, `HttpFraming`);
- the grammar of callbacks, and silence after the last message (`HttpGrammar`);
- exact recognisers for methods, header names, lengths, chunk sizes, transfer codings and connection options
  (`HttpMethods`, `HttpHeaders`, `HttpLengths`, `HttpValues`, `HttpOptions`), the options against section 6.1 of
  RFC 7230 (`HttpLists`, `HttpConnection`);
- framing against section 3.3.3 of RFC 7230, over header lists (`HttpFramingRules`), and conservation of body bytes
  (`HttpFraming`);
- concrete inputs, byte by byte, where the code departs from those sections (`HttpCases`);
- round trips of chunked bodies with trailers (`HttpChunks`), of any number of pipelined requests (`HttpRequests`) and
  responses (`HttpResponses`), and of requests through the parser object within its header budget (`HttpBudget`,
  `HttpStreams`).

**The URL parser** (`parse_url_char`, `http_parse_host_char`, `http_parse_host`, `http_parser_parse_url`).
`UrlFields` says where each field is by ranks that the automata never decrease, and proves the
decomposition theorem; `UrlParser` is the imperative code; `UrlRoundTrip` prints and parses.

**The message pump** (`base/message_loop`).  `MessagePump` is the class with its ordered task set.
`PumpProtocol` is the concurrent protocol, in which inserting a task and waking the pump are separate
steps and any wake-up overwrites the timer; the methods of the class are proved to be its steps.  No task is
stranded; every task is in exactly one place, pending, taken, run once or cancelled; none is taken early; with one
worker they run in order; the timer is late exactly after a stale wake-up, which needs overlapping posts.

**The connection** (`base/net/net_connection_impl.cc`, `base/net/socks5_client.cc`).  The stages of a
connect, the send queue, the detachment of the delegate under its mutex, and the SOCKS5 handshake.

Settings and conventions.  `HTTP_PARSER_STRICT` is 1.  Callbacks return 0 and do not pause or
reinitialise the parser; `on_headers_complete` may answer 0, 1 or 2 and is a parameter.  Adjacent data callbacks of one
kind are merged in a log.  A buffer plus the header budget is shorter than 2^32 bytes.  Bytes are `char`s; all
values from 128 up behave alike in every table.  Clock readings, completions of asynchronous operations and
the result of parsing an address literal are parameters.

What the proofs found, each with its exact condition and an input in the table below: a header value is checked
for control bytes only where a buffer happens to start or the header is special, and an error leaves the data of its
buffer unreported, so that cuts can show; the `unhex` table has 128 entries, so larger bytes are the digit zero; any
header name that begins with `content-length` counts as that header for duplicates and for the conflict with chunked
coding; a tab beside an option of a Connection header, or an element such as `c` in front of it, hides the option; a
Transfer-Encoding other than `chunked` alone is ignored, and 1xx, 204 and 304 responses are read with the body their
headers claim; the timer of a pump can be late; a second `DisConnect` can return while callbacks still start; the
SOCKS5 client sends zeros for a literal address, truncates long names, uses a method it did not offer, takes some
incomplete replies for success, and does not read the rest of a CONNECT reply that arrives in unlucky pieces.

## Model

| member | source | states |
|---|---|---|
| `HttpRun.StepMarks` | base/net/http/http_parser.c:105-143 | in every state and on every byte the marks are set and flushed so that at most one is set, no notification overtakes unreported data, and the mark left set is the one the next state expects |
| `HttpRun.AdvanceLogEnds` | base/net/http/http_parser.c:677-700 | whenever a buffer start restores a mark, the last thing reported was data of that mark's kind |
| `HttpRun.SkipMatters` | base/net/http/http_parser.c:1527-1556 | the memchr scan decides the fate of one byte only, and only if that byte is a control byte in a non-lenient parser: unscanned it is an error, scanned it passes |
| `HttpRun.BoundaryInvisible` | base/net/http/http_parser.c:634-700 | a buffer boundary changes nothing unless it exposes such a byte, and then the parser stops at that byte |
| `HttpRun.Fragmentation` | base/net/http/http_parser.c:634-706 | the one-byte automaton ends in the same configuration on any list of non-empty buffers and on their concatenation, with the same parser, data seen, notifications and error position, if and only if no buffer starts with an exposed byte; otherwise the cut input fails earlier with HPE_INVALID_HEADER_TOKEN |
| `HttpCuts.CutAnywhere` | base/net/http/http_parser.c:634-706 | every way to cut an input agrees with the whole if and only if no byte of it is exposed at its place |
| `HttpCuts.ExposedShows` | base/net/http/http_parser.c:1527-1556 | an exposed byte is a control byte that the whole input reports in a header value |
| `HttpCuts.TwoCuts` | base/net/http/http_parser.c:634-706 | so any two ways to cut one input agree if the parser is lenient or no header value of the input holds a control byte, whatever the body holds |
| `HttpCases.ControlCut` | base/net/http/http_parser.c:1505-1556 | `X: ab` and a byte 0x01 are accepted in one buffer and refused if the buffer ends before that byte |
| `HttpInvariant.InvStep` | base/net/http/http_parser.c:708-2053 | every byte keeps the invariant on header states, lengths, flags and field widths |
| `HttpInvariant.InvMeans` | base/net/http/http_parser.c:1886-2054 | the invariant implies every assert of http_parser_execute and that index, the version numbers, the status and content_length fit their widths |
| `HttpInvariant.AccumulateExact` | base/net/http/http_parser.c:1573-1589 | a 64-bit accumulation that is not refused is exact, below ULLONG_MAX, and one that is refused was within one digit of it |
| `HttpInvariant.CounterFitsStep` | base/net/http/http_parser.c:1835-1840 | the header counter is reset on the way to a chunk size, on_headers_complete is called only from counted states, and bytes cause only syntax errors |
| `HttpBlocks.SkipRun` | base/net/http/http_parser.c:1534-1556 | a stretch without CR and LF behind an examined byte of a general value is reported as it is and changes nothing else |
| `HttpBlocks.ChunkDataRun` | base/net/http/http_parser.c:2014-2035 | a stretch of chunk data is delivered, is counted off content_length, and the chunk ends exactly when the count is used up |
| `HttpBlocks.IdentityRun` | base/net/http/http_parser.c:1881-1898 | less than the declared length is delivered and the rest is still owed |
| `HttpBlocks.IdentityComplete` | base/net/http/http_parser.c:1881-1916 | exactly the declared length is delivered and on_message_complete follows on its last byte |
| `HttpBlocks.EofRun` | base/net/http/http_parser.c:1918-1922 | a body without a length takes everything |
| `HttpExecute.HttpParser.Perform` | base/net/http/http_parser.c:80-143 | the MARK and CALLBACK macros of one arm, performed on marks that are offsets into the buffer, report what the one-byte model says |
| `HttpExecute.HttpParser.FindLineEnd` | base/net/http/http_parser.c:1534-1553 | the two memchr calls find the first CR or LF, or the end of the buffer if the first HTTP_MAX_HEADER_SIZE bytes hold none |
| `HttpExecute.HttpParser.MemChr` | base/net/http/http_parser.c:1541-1542 | the first occurrence within the limit, or none |
| `HttpExecute.HttpParser.ScanField` | base/net/http/http_parser.c:1298-1413 | the inner header-name loop does what the one-byte steps do |
| `HttpExecute.HttpParser.FieldBlock` | base/net/http/http_parser.c:1298-1430 | the whole s_header_field arm, with its budget test and its error, does what the one-byte steps do |
| `HttpExecute.HttpParser.ScanValue` | base/net/http/http_parser.c:1505-1686 | the inner header-value loop, with its scan, does what the one-byte steps do unless the budget is hit |
| `HttpExecute.HttpParser.ValueBlock` | base/net/http/http_parser.c:1505-1694 | the whole s_header_value arm does what the one-byte steps do unless the budget is hit |
| `HttpExecute.HttpParser.BodyBlock` | base/net/http/http_parser.c:1881-2035 | the bulk body reads do what the one-byte steps do |
| `HttpExecute.HttpParser.LastBodyBlock` | base/net/http/http_parser.c:1881-1916 | the bulk read that completes a body ends with on_message_complete and the next message or the dead state |
| `HttpExecute.HttpParser.FlushAll` | base/net/http/http_parser.c:2060-2080 | at most one mark is set at the end of a call, and flushing it completes the log |
| `HttpExecute.HttpParser.Turn` | base/net/http/http_parser.c:702-710 | one turn of the byte loop: count, then the arm of the current state |
| `HttpExecute.HttpParser.ByteLoop` | base/net/http/http_parser.c:702-2082 | the byte loop and the final flush do what the one-byte automaton does, on every buffer |
| `HttpExecute.HttpParser.Execute` | base/net/http/http_parser.c:634-2090 | on every buffer, from every reachable parser, the state, the callbacks and the number of bytes consumed are those of the one-byte automaton unless the header budget is hit; nread is never less than the header bytes since its reset and exceeds them by at most one per call since then, so on_headers_complete never fires for more than HTTP_MAX_HEADER_SIZE of them; after a syntax error the unreported data are exactly those behind the open mark of this buffer |
| `HttpBudget.HeadBounded` | base/net/http/http_parser.c:154-165 | when on_headers_complete is called, the peak that Execute keeps within HTTP_MAX_HEADER_SIZE has counted every byte of the start line and the headers |
| `HttpLost.FailLeaves` | base/net/http/http_parser.c:2082-2090 | which kind of data a failing byte leaves unreported depends on the state, the byte and its offset only, and there is none outside URLs, header names, header values and chunk ends |
| `HttpSession.ExecuteAll` | base/net/http/http_parser.c:634-2090 | feeding any non-empty buffers one by one reports, merged, what one call on the whole input sees and consumes as many bytes, if the input stays with HTTP and the parser is lenient or no header value holds a control byte; without an error nothing is missing, after one exactly the data behind the open mark of the failing buffer; the callbacks are always in the grammar, and a dead parser adds none; no head longer than HTTP_MAX_HEADER_SIZE gets through, and the budget is not hit if the highest count of header bytes plus the number of calls stays below it |
| `HttpSession.EofMeans` | base/net/http/http_parser.c:653-674 | the input may end exactly between two messages, inside a body that only the close delimits, or behind line ends for which a response parser has announced a message too early; then every other message begun is complete |
| `HttpCases.ErrorCut` | base/net/http/http_parser.c:2082-2090 | `GET /abc` and a byte 0x01 fail with the URL `/abc` unreported in one buffer, and with only `c` unreported if the input is cut before `c` |
| `HttpFramingRules.FramingFollowsRules` | base/net/http/http_parser.c:1774-1878 | for every list of header lines, every message type, status and method, and whatever the embedder answers, how the parser frames the message is permitted by section 3.3.3 of RFC 7230 if and only if the message complies: a condition on its header lines that covers codings, declared lengths, names beginning with content-length, bodiless statuses and protocol switches |
| `HttpFramingRules.RunOutcome` | base/net/http/http_parser.c:1248-1878 | the framing chosen, by the header lines: refused, none, by chunks, by length or by close |
| `HttpFramingRules.BlockRefused` | base/net/http/http_parser.c:1361-1376 | a list with a second name that begins with content-length, or with a length the parser cannot read, is refused |
| `HttpCases.NoContentWithContent` | base/net/http/http_parser.c:1844-1868 | a fresh parser fed `HTTP/1.1 204` with `Content-Length: 5` expects a body of five bytes, which the rules do not permit |
| `HttpCases.CodingWithLength` | base/net/http/http_parser.c:1591-1600 | a request with `Transfer-Encoding: gzip` and `Content-Length: 5`, which must be refused, is read by its length |
| `HttpCases.ChunksUnseen` | base/net/http/http_parser.c:1591-1661 | a request with `Transfer-Encoding: gzip, chunked`, which is chunked, is taken to have no body |
| `HttpCases.LongerNamesRefused` | base/net/http/http_parser.c:1361-1376 | a request with `Content-Length-A: x` and `Content-Length-B: x`, which has no body, is refused |
| `HttpCases.LongerNameConflicts` | base/net/http/http_parser.c:1785-1791 | a request with `Content-Length-A: x` and `Transfer-Encoding: chunked`, which is chunked, is refused |
| `HttpFraming.UnmixedStep` | base/net/http/http_parser.c:1785-1791 | no step leads to a body that is both chunked and of declared length |
| `HttpFraming.ReachableStates` | base/net/http/http_parser.c:1886-2054 | in every state any connection can reach the asserts hold on the next byte, the fields fit, and framing is unambiguous |
| `HttpFraming.BodyConserved` | base/net/http/http_parser.c:1881-1931 | bytes delivered plus remaining content_length is the declared length at every point of the body, and the message completes exactly when all have been delivered |
| `HttpGrammar.KeepsStep` | base/net/http/http_parser.c:708-2053 | every byte moves the log along the grammar of messages and leaves the parser where the log says |
| `HttpGrammar.Grammar` | base/net/http/http_parser.c:954-2051 | in every run of a parser of either type, over any buffers and with or without an error, the merged log is a prefix of a sequence of messages: begin, URL or status, (field value)*, headers_complete, then a body or chunks with trailers, message_complete |
| `HttpGrammar.ReportedInGrammar` | base/net/http/http_parser.c:2070-2090 | what is actually reported stays in the grammar when an error loses the last data |
| `HttpGrammar.EndsStep` | base/net/http/http_parser.c:456-456 | message_complete leads to the start of a message, or to the dead state exactly if http_should_keep_alive is false |
| `HttpGrammar.DeadSilent` | base/net/http/http_parser.c:711-719 | a dead parser reports nothing, accepts line ends and refuses everything else |
| `HttpGrammar.LastMessageIsLast` | base/net/http/http_parser.c:2117-2133 | nothing is reported after a message for which http_should_keep_alive is false, whatever buffers follow |
| `HttpMethods.FollowSound` | base/net/http/http_parser.c:1005-1045 | every candidate switch goes to a method whose name begins with the bytes read |
| `HttpMethods.FollowComplete` | base/net/http/http_parser.c:1005-1045 | no switch is missing: every next byte of every method name is followed |
| `HttpMethods.MethodRecogniser` | base/net/http/http_parser.c:966-1051 | a word and a space reach the URL if and only if the word is one of the 33 method names, and the method is then that one |
| `HttpLengths.AccumulateLimit` | base/net/http/http_parser.c:1573-1589 | the largest values the overflow tests let through, for either base |
| `HttpLengths.ContentLengthRead` | base/net/http/http_parser.c:1471-1589 | a Content-Length is accepted if and only if it is digits, spaces skipped after the first, of value at most 18446744073709551609; content_length is then the unbounded decimal value |
| `HttpLengths.ChunkSizeRead` | base/net/http/http_parser.c:1933-1983 | a chunk size is accepted if and only if every byte is in the unhex table and its value is at most 2^64-17; content_length is then that value |
| `HttpLengths.SizesAreHexadecimal` | base/net/http/http_parser.c:224-233 | accepted sizes are hexadecimal numbers if and only if they have no byte from 128 up |
| `HttpLengths.HighByteIsASize` | base/net/http/http_parser.c:224-233 | the byte 0x80 is accepted as the size zero |
| `HttpHeaders.NameByte` | base/net/http/http_parser.c:1302-1410 | one byte of the name automaton, for every beginning of every keyword |
| `HttpHeaders.NameRun` | base/net/http/http_parser.c:1248-1430 | after a whole header name the header state says which of the special names it is, in any case; a name that begins with content-length, even a longer one, is refused if there was one before |
| `HttpHeaders.SettleRun` | base/net/http/http_parser.c:1707-1772 | a finished header takes effect with the byte behind it, unless that is a blank |
| `HttpOptions.ScanByte` | base/net/http/http_parser.c:1602-1678 | the Connection automaton, byte by byte, is a scan of the list's elements that hears an element in full, passes over it, or has given up |
| `HttpOptions.ScanEnds` | base/net/http/http_parser.c:1714-1733 | at the end of the header the flags are those of the options heard |
| `HttpConnection.ConnectionHeard` | base/net/http/http_parser.c:1602-1678 | a Connection line sets the flag of close, keep-alive or upgrade if and only if it was set or some element is that word in any case, is reached, and has no tab at its side; section 6.1 of RFC 7230, which counts every element with optional white space around it, is met if and only if a named option is set already or is so heard |
| `HttpConnection.PlainListHeard` | base/net/http/http_parser.c:1602-1678 | a list without tabs, of tokens none of which is a beginning of an option, is heard in full |
| `HttpConnection.CloseMissed` | base/net/http/http_parser.c:1632-1678 | the header lines `Connection: close` with a trailing tab, `keep-alive,` tab `close`, and `c,close` do not close the connection |
| `HttpValues.CodingRun` | base/net/http/http_parser.c:1591-1661 | a Transfer-Encoding value is taken for chunked if and only if it is that word in any case with spaces behind it |
| `HttpValues.OptionsRun` | base/net/http/http_parser.c:1480-1678 | a whole Connection value leaves the flags of the options heard |
| `HttpValues.HeaderLine` | base/net/http/http_parser.c:1248-1772 | a header line is reported as its name and value, and its effect is on the flags and the length |
| `HttpValues.HeaderBlock` | base/net/http/http_parser.c:1248-1772 | so is any number of them |
| `HttpChunks.SizeLine` | base/net/http/http_parser.c:1933-2012 | a size line, however spelled and with any extensions, announces its value |
| `HttpChunks.ChunkRun` | base/net/http/http_parser.c:1933-2051 | one chunk is announced with its true length, delivered and completed |
| `HttpChunks.ChunkedRoundTrip` | base/net/http/http_parser.c:1774-2051 | any chunks and trailers, encoded by section 4.1 of RFC 7230, are announced, delivered and reported in order, and the message completes on the last byte and not before |
| `HttpChunks.CodingDelivers` | base/net/http/http_parser.c:2014-2051 | the body bytes delivered are the chunks' data, concatenated |
| `HttpChunks.HexSpells` | base/net/http/http_parser.c:1933-1983 | every length up to the limit has a spelling, so every data has an encoding |
| `UrlStates.UrlScanned` | base/net/http/http_parser.c:1053-1124 | a URL and the byte behind it are accepted if and only if the URL automaton accepts the URL, and then the whole URL is reported |
| `HttpRequests.MethodRun` | base/net/http/http_parser.c:954-1051 | a method name and a space announce the message and set the method |
| `HttpRequests.RequestRoundTrip` | base/net/http/http_parser.c:954-2051 | a printed request of any method but CONNECT, any URL the automaton accepts, any headers and a plain or chunked body is reported in full, and the parser is then ready or dead as the connection persists or not |
| `HttpRequests.StreamRoundTrip` | base/net/http/http_parser.c:954-2051 | any number of pipelined requests is consumed to the last byte and reported in turn |
| `HttpRequests.StreamInPieces` | base/net/http/http_parser.c:634-2090 | so it is from a fresh parser however the stream is cut into non-empty buffers |
| `HttpStreams.StreamCounts` | base/net/http/http_parser.c:154-165 | a stream of requests never counts more header bytes than its longest head, with the chunked body in front of it, or its longest chunked body |
| `HttpStreams.ExecuteStream` | base/net/http/http_parser.c:634-2090 | a fresh parser object fed a stream of requests in any non-empty buffers reports every request and consumes every byte, if that count and the number of buffers stay below HTTP_MAX_HEADER_SIZE |
| `HttpResponses.StatusLineRun` | base/net/http/http_parser.c:758-952 | a status line of any version and code, with or without a reason phrase, sets the version and the status and reports the phrase |
| `HttpResponses.ReplyRoundTrip` | base/net/http/http_parser.c:758-2051 | a printed response of any status line and headers, with a body that is chunked, of declared length, excluded by the status or delimited by the close, is reported in full, and the parser is then ready, dead or waiting for the close |
| `HttpResponses.RepliesRoundTrip` | base/net/http/http_parser.c:758-2051 | so is any number of them on one connection |
| `HttpResponses.RepliesInPieces` | base/net/http/http_parser.c:634-2090 | and so they are however they are cut into non-empty buffers |
| `UrlFields.UrlRankGrows` | base/net/http/http_parser.c:486-632 | the URL automaton never goes back |
| `UrlFields.HostRankGrows` | base/net/http/http_parser.c:2172-2252 | nor does the host automaton |
| `UrlFields.Decomposition` | base/net/http/http_parser.c:2340-2442 | in every URL that parses the fields are inside it, in URL order and apart, an authority has a host, and every byte outside the fields is one of `:/@[]?#` |
| `UrlFields.ScannersAgree` | base/net/http/http_parser.c:2350-2396 | http_parser_parse_url accepts a non-empty URL if and only if the request line does and its own checks on schema, host, CONNECT and port pass |
| `UrlParser.ParsedUrl.ScanUrl` | base/net/http/http_parser.c:2340-2407 | the loop refuses exactly what the automaton refuses, never meets an unexpected state, and leaves every part's offset and length, in 16 bits |
| `UrlParser.ParsedUrl.ParseHost` | base/net/http/http_parser.c:2254-2333 | refuses exactly what is no authority and otherwise finds user information, host and port |
| `UrlParser.ParsedUrl.FindFields` | base/net/http/http_parser.c:2340-2421 | everything up to the CONNECT check |
| `UrlParser.StrToUl` | base/net/http/http_parser.c:2429-2431 | the decimal value of the digits at the offset, saturated |
| `UrlParser.PortRun` | base/net/http/http_parser.c:2428-2431 | those digits are exactly the port |
| `UrlParser.ParsedUrl.ParseUrl` | base/net/http/http_parser.c:2340-2442 | up to 65535 bytes, zero if and only if the URL parses, and then exactly its fields are set, with their spans, and the port's value |
| `UrlRoundTrip.RoundTrip` | base/net/http/http_parser.c:2172-2442 | a URL printed from well-formed components, in absolute, origin or authority form, parses, and every field is the component it was printed from |
| `PumpTasks.InsertOrdered` | base/message_loop/message_pump_impl.h:30-35 | insertion keeps the (deadline, id) order, and the new task comes first exactly if it is the earliest |
| `PumpTasks.DueExact` | base/message_loop/message_pump_impl.cc:109-116 | the tasks the drain loop takes are exactly those whose deadline has come |
| `PumpTasks.OneByOne` | base/message_loop/message_pump_impl.cc:84-120 | DoOneWork repeated at a fixed time takes the tasks DoWork takes, in the same order |
| `MessagePump.Pump.PostRunable` | base/message_loop/message_pump_impl.cc:50-71 | a stopped pump refuses; otherwise the id is new, the task joins the set, and Wakeup is called exactly if it became the earliest; this is the joining step of the protocol |
| `MessagePump.Pump.Cancel` | base/message_loop/message_pump_impl.cc:73-82 | true exactly if the task was there, and it is gone; this is the cancelling step of the protocol |
| `MessagePump.Pump.DoOneWork` | base/message_loop/message_pump_impl.cc:84-102 | takes the earliest task if it is due and asks to be woken for the earliest that is left |
| `MessagePump.Pump.TakeDue` | base/message_loop/message_pump_impl.cc:103-117 | takes every due task, in order, and no other; this is the taking step of the protocol |
| `MessagePump.Pump.Rearm` | base/message_loop/message_pump_impl.cc:122-127 | if tasks are left, exactly one more wake-up has been asked for, with the least deadline of those tasks, and otherwise none; this is the re-arming step of the protocol |
| `PumpProtocol.NoTaskStranded` | base/message_loop/message_pump_impl.cc:50-128 | under every interleaving, until DoStop runs, a non-empty task set has an armed timer, a queued drain, a drain that has yet to re-arm, or a poster that owes its wake-up |
| `PumpConservation.ExactlyOnce` | base/message_loop/message_pump_impl.cc:50-128 | in every reachable state every accepted task is in exactly one of pending, taken, run once and cancelled, nothing else is anywhere, and ids are not reused |
| `PumpConservation.CancelledNeverRuns` | base/message_loop/message_pump_impl.cc:73-82 | a task whose Cancel returned true never runs, whatever happens afterwards |
| `PumpConservation.NeverEarly` | base/message_loop/message_pump_impl.cc:103-117 | no task is taken before its deadline |
| `PumpOrder.PostingOrder` | base/message_loop/message_pump_impl.cc:103-120 | with one worker, every task posted before y and due no later has been run before y, or was cancelled |
| `PumpOrder.OnePosterInOrder` | base/message_loop/message_pump_impl.cc:50-120 | the undelayed tasks of posts that do not overlap run in the order they were posted, unless cancelled |
| `PumpTimer.TimerOnTime` | base/message_loop/message_pump_default.cc:33-51 | throughout a run the timer, whenever only it attends to the set, goes off no later than the first task is due, if and only if no wake-up of the run is stale: for a later deadline, with nobody else attending |
| `PumpTimer.OnePosterOnTime` | base/message_loop/message_pump_default.cc:33-51 | so it does if no two posts overlap |
| `PumpTimer.TimerCanBeLate` | base/message_loop/message_pump_default.cc:33-51 | with two overlapping posts the timer can be set for the later of two deadlines |
| `PumpTimer.CanBeEmptied` | base/message_loop/message_pump_default.cc:33-51 | from every reachable state before DoStop, time and the pump's own steps are enough to take every pending task |
| `NetConnection.NetConnectionImpl.DoSendFromQueue` | base/net/net_connection_impl.cc:230-237 | the buffer joins the queue and is handed over exactly if the queue was empty and there was no clean-up |
| `NetConnection.NetConnectionImpl.NotifySendComplete` | base/net/net_connection_impl.cc:248-263 | a write ends: its buffer is the front of a non-empty queue and leaves it, and the next is handed over; after an error nothing more is |
| `NetConnection.NetConnectionImpl.HandedInOrder` | base/net/net_connection_impl.cc:230-263 | in every state the buffers handed to the transport are a prefix of the buffers posted |
| `NetConnection.NetConnectionImpl.OnDnsResolvered` | base/net/net_connection_impl.cc:122-148 | resolving leads to connecting or to one failure status |
| `NetConnection.NetConnectionImpl.NotifyConnectComplete` | base/net/net_connection_impl.cc:168-190 | connecting leads to the proxy, to the other handshakes or to one failure status |
| `NetConnection.NetConnectionImpl.OnSocks5Handshake` | base/net/net_connection_impl.cc:111-120 | the proxy leads to the other handshakes or to one failure status |
| `NetConnection.NetConnectionImpl.DoOtherHandshake` | base/net/net_connection_impl.cc:326-342 | TLS, WebSocket or success, by the net type |
| `NetConnection.NetConnectionImpl.NotifyTlsHandshakeComplete` | base/net/net_connection_impl.cc:192-212 | TLS leads to WebSocket or to the one status |
| `NetConnection.NetConnectionImpl.NotifyWebsocketHandshakeComplete` | base/net/net_connection_impl.cc:214-224 | WebSocket leads to the one status |
| `NetConnection.NetConnectionImpl.ConnectOutcome` | base/net/net_connection_impl.cc:111-298 | in every state OnConnect has been delivered at most once, and with code 0 only after every stage the connection needs has succeeded, in order |
| `NetConnection.NetConnectionImpl.Run` | base/net/net_connection_impl.cc:64-342 | over every sequence of things that can happen, the buffers handed to the transport are the first of those sent, in order, OnConnect is delivered at most once, and with code 0 only after every stage in order |
| `DelegateLock.SilentExactly` | base/net/net_connection_impl.cc:74-88 | with locking, testing, calling and unlocking as separate steps of any number of threads, no callback is running and none ever starts again if and only if some DisConnect has cleared the delegate or holds the mutex to do so |
| `DelegateLock.ReturnedSilence` | base/net/net_connection_impl.cc:74-88 | a DisConnect that found the stop flag unset returns into silence; one that found it set does if and only if another has cleared the delegate or is about to |
| `DelegateLock.EarlyReturn` | base/net/net_connection_impl.cc:75-77 | a second DisConnect returns, and then a callback starts |
| `Socks5.CredentialsRoundTrip` | base/net/socks5_client.cc:183-199 | a server reads back user name and password if and only if neither is longer than 255 bytes |
| `Socks5.ConnectReads` | base/net/socks5_client.cc:220-275 | what a server reads from the CONNECT request: for a literal address, zeros; for a name, its first bytes up to its length modulo 256 |
| `Socks5.ConnectRoundTrip` | base/net/socks5_client.cc:220-275 | for a name and for a literal of either family, a server reads back destination and port if and only if it is a name of less than 256 bytes or the literal is all zeros |
| `Socks5.LiteralLost` | base/net/socks5_client.cc:227-249 | 127.0.0.1 is sent as 0.0.0.0 |
| `Socks5.HostNameCut` | base/net/socks5_client.cc:256-263 | a host name of 256 bytes is read as empty |
| `Socks5.UserNameCut` | base/net/socks5_client.cc:188-190 | a user name of 256 bytes is read as empty |
| `Socks5.NextInv` | base/net/socks5_client.cc:122-307 | every event keeps the invariant that ties the status to the requests sent and the replies received |
| `Socks5.HandshakeSafe` | base/net/socks5_client.cc:122-307 | whatever arrives, at most one outcome is acted on, and success only after the greeting was answered 05 with method 0 or 2, credentials were sent if and only if method 2 was chosen and were answered 01 00, and CONNECT was answered 05 00; the reply then has no IPv6 address, and is complete by section 6 of RFC 1928 if and only if it has an IPv4 address or a name of less than 128 bytes |
| `Socks5.IncompleteSuccess` | base/net/socks5_client.cc:277-307 | five bytes of a reply with a name of 254 bytes, and a reply of an unknown address type, are taken for success |
| `Socks5.ServerChooses` | base/net/socks5_client.cc:156-181 | in every handshake that succeeds the client has gone by the second byte the server sent and nothing else: it sent credentials if and only if that byte is 2, so the method used was offered if and only if the reply names the one offered |
| `Socks5.UnofferedMethod` | base/net/socks5_client.cc:148-199 | no proxy is excepted: for every one there is a server that chooses the method it was not offered and with which the handshake succeeds; without credentials the client sends them all the same |
| `Socks5.ShortRepliesSplit` | base/net/socks5_client.cc:156-218 | how the replies to the greeting and the credentials are split does not matter |
| `Socks5.ConnectReplyReads` | base/net/socks5_client.cc:81-307 | what any number of reads of 1 to 10 bytes make of the reply to CONNECT: success, failure, waiting, or reading no more |
| `Socks5.GrantSucceeds` | base/net/socks5_client.cc:277-307 | of a grant, in any reads, success is reported if and only if all of it has been read, or its name has 249 bytes or more and enough is there to deceive the signed length test |
| `Socks5.LongGrantsFail` | base/net/socks5_client.cc:117-307 | a grant with an IPv6 address or a name of 7 to 248 bytes never succeeds, however it arrives |
| `Socks5.SplitGrantLost` | base/net/socks5_client.cc:284-296 | the usual ten-byte grant succeeds in one read and is lost if cut behind its fourth byte |
| `Socks5Client.Socks5ClientImpl.Connect` | base/net/socks5_client.cc:112-120 | sends the greeting, once |
| `Socks5Client.Socks5ClientImpl.Handshake` | base/net/socks5_client.cc:112-307 | the client object, driven by any legal sequence of reads and failures: at most one outcome, and on success the requests it put on the wire and the replies it got are those of a handshake by RFC 1928 and RFC 1929 |

## Left out

- HttpExecute.HttpParser.Execute: when the header budget is hit, only that the callbacks are those of some prefix of the buffer, that the count returned is the length of that prefix or of the buffer, and that the budget is used up, give or take one per call.
- HttpSession.EofMeans: the state is left unchanged at the end of input, as in the code, so nothing is claimed about calls after it.
- HttpSession.ExecuteAll: when the header budget is hit the callbacks are in the grammar and belong to a prefix of the input, but which prefix is not said; `HttpExecute.HttpParser.Execute` bounds it.
- HttpFramingRules.FramingFollowsRules: header lines are one line each with the colon followed by one space; folded lines are in the automaton but not in the lists.
- An `on_headers_complete` whose answer depends on earlier callbacks, such as which request a response belongs to, rather than on the parser it is given: results about one message cover it, results about whole sessions do not.
- UrlParser.ParsedUrl.ParseUrl: above 65535 bytes offsets and lengths wrap, as modelled, and nothing but memory safety is claimed; `strtoul` reads inside the buffer only.
- UrlParser.ParsedUrl.FindFields: above 65535 bytes nothing but memory safety is claimed.
- HttpRequests.RequestRoundTrip: requests that ask for another protocol (CONNECT, Upgrade) end the call early and are not printed; header folding is not printed.
- HttpGrammar.Grammar: in a response `message_begin` may be repeated, because leading line ends report it too.
- MessagePump.Pump.PostRunable: the id counter does not wrap at 2^64; the deadline does.
- PumpProtocol.NoTaskStranded: re-arming the timer is one step, although the timer object is not protected by the lock; deadlines do not wrap.
- NetConnection.NetConnectionImpl.Run: the stages belong to one `Connect`, and each completes at most once; the source does not guard against a second `Connect`, which would start the stages again.
- PumpOrder.OnePosterInOrder: posts have no thread identity in the protocol, so one poster is a run in which no two posts overlap.
- Socks5.HandshakeSafe: that the owner acts on one outcome only is its dropping the client, which is part of the model.
- Parser pausing, failing callbacks and `http_parser_pause`: early returns skip the budget accounting.
- HttpResponses.ReplyRoundTrip: answers to HEAD and CONNECT, for which the embedder answers 1 or 2, and responses that switch protocols are not printed; header folding is not printed.
- `MessagePumpImpl::Run` clearing the set after the loop, thread names, and the Windows and Android pumps.
- `OnDisconnect`, which a send error and a receive error can each report.
- TLS, DNS, WebSocket and socket internals, file download, logging, generated code and user interface glue.
- Hex and URL encoding helpers, the semaphore and the at-exit stack: they would only add easy members.
