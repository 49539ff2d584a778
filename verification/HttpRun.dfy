/**
 Whole runs of the parser: the callbacks one byte causes, and the configuration reached
 after any number of bytes and buffers.
 */
module HttpRun {
  import opened Basics
  import opened HttpTypes
  import opened HttpStep

  // ---------------------------------------------------------------- callbacks of one byte

  // The mark http_parser_execute restores when a buffer starts in state s.  The body mark is
  // not restored: the body states set it again.
  function StartLive(s: State): Option<Kind> {
    match s
    case AtUrl(u) => if u == ReqSpacesBeforeUrl then None else Some(OnUrl)
    case AtField(f) => if f == HeaderField then Some(OnHeaderField) else None
    case AtValue(v) => if v == HeaderValue then Some(OnHeaderValue) else None
    case AtStatus(r) => if r == ResStatus then Some(OnStatus) else None
    case _ => None
  }

  // The mark that is set after action a, when `live` is set before it.
  function Marked(live: Option<Kind>, a: Action): Option<Kind> {
    match a
    case Mark(k) => if live.Some? then live else Some(k)
    case Flush(k) => if live == Some(k) then None else live
    case FlushThrough(k) => if live == Some(k) then None else live
    case Call(n) => live
  }

  // The callbacks caused by action a on byte ch.  A mark opens a data run, so it shows as an
  // empty data event even if nothing follows.
  function Caused(live: Option<Kind>, a: Action, ch: Byte): seq<Event> {
    match a
    case Mark(k) => if live.Some? then [] else [Data(k, [])]
    case Flush(k) => []
    case FlushThrough(k) => if live == Some(k) then [Data(k, [ch])] else []
    case Call(n) => [Notify(n)]
  }

  // At most one mark is set at a time, and no notification overtakes unreported data.
  predicate Legal(live: Option<Kind>, a: Action) {
    match a
    case Mark(k) => live == None
    case Flush(k) => live == None || live == Some(k)
    case FlushThrough(k) => live == Some(k)
    case Call(n) => live == None
  }

  function Trace(live: Option<Kind>, acts: Actions, ch: Byte): seq<Event>
    decreases acts
  {
    match acts
    case Nil => []
    case Do(a, rest) => Caused(live, a, ch) + Trace(Marked(live, a), rest, ch)
  }

  function LiveAfter(live: Option<Kind>, acts: Actions): Option<Kind>
    decreases acts
  {
    match acts
    case Nil => live
    case Do(a, rest) => LiveAfter(Marked(live, a), rest)
  }

  predicate LegalActs(live: Option<Kind>, acts: Actions)
    decreases acts
  {
    match acts
    case Nil => true
    case Do(a, rest) => Legal(live, a) && LegalActs(Marked(live, a), rest)
  }

  function Opening(live: Option<Kind>): seq<Event> {
    if live.Some? then [Data(live.value, [])] else []
  }

  function Closing(live: Option<Kind>, ch: Byte): seq<Event> {
    if live.Some? then [Data(live.value, [ch])] else []
  }

  // What a buffer holding the single byte ch reports: the restored mark, the arm's callbacks,
  // and the final flush, which an error skips.
  function StepEvents(p: Parser, r: Result, ch: Byte): seq<Event> {
    var l := StartLive(p.state);
    Opening(l) + Trace(l, r.acts, ch) + (if r.p.errno == OK then Closing(LiveAfter(l, r.acts), ch) else [])
  }

  // The mark that is set after the byte that takes state s to state t.
  function EndLive(s: State, t: State): Option<Kind> {
    if s == AtChunkData(ChunkData) || s == AtBody(BodyIdentityEof) ||
       (s == AtBody(BodyIdentity) && t == AtBody(BodyIdentity))
    then Some(OnBody)
    else StartLive(t)
  }

  // ---------------------------------------------------------------- configurations

  /** A parser with everything it has reported, merged, and how much it has consumed.
      `skip`: the current buffer's memchr scan is inside a header value.
      `nread`: the bytes consumed in header states since the counter was last reset.
      `peak`: the largest count at which on_headers_complete was called. */
  datatype Config = Config(
    p: Parser, skip: bool, log: seq<Event>, pos: nat, exited: bool, nread: nat, peak: nat)

  predicate Running(c: Config) { c.p.errno == OK && !c.exited }

  // memchr looks past a byte that was examined in the general header state.
  predicate SkipsNext(p: Parser, q: Parser) {
    p.state == AtValue(HeaderValue) && p.hstate.General? && q.state == AtValue(HeaderValue)
  }

  function Max(a: nat, b: nat): nat { if a < b then b else a }

  function Advance(c: Config, ch: Byte, hc: Callback): Config {
    var r := Step(c.p, ch, hc, c.skip);
    Config(r.p,
           r.p.errno == OK && SkipsNext(c.p, r.p),
           Emit(c.log, StepEvents(c.p, r, ch)),
           if r.p.errno == OK then c.pos + 1 else c.pos,
           r.exit,
           if r.reset then 0 else if ParsingHeader(c.p.state) then c.nread + 1 else c.nread,
           if Calls(r.acts, HeadersComplete) then Max(c.peak, c.nread + 1) else c.peak)
  }

  function Run(c: Config, s: Bytes, hc: Callback): Config
    decreases |s|
  {
    if s == [] || !Running(c) then c else Run(Advance(c, s[0], hc), s[1..], hc)
  }

  // One call of http_parser_execute on a non-empty buffer, as far as its effect on the
  // configuration goes: the memchr scan starts afresh.
  function Feed(c: Config, buffer: Bytes, hc: Callback): Config {
    Run(c.(skip := false), buffer, hc)
  }

  function FeedAll(c: Config, buffers: seq<Bytes>, hc: Callback): Config
    decreases |buffers|
  {
    if buffers == [] then c else FeedAll(Feed(c, buffers[0], hc), buffers[1..], hc)
  }

  function Flatten(buffers: seq<Bytes>): Bytes
    decreases |buffers|
  {
    if buffers == [] then [] else buffers[0] + Flatten(buffers[1..])
  }

  function Start(t: ParserType, lenient: bool): Config {
    Config(Init(t, lenient), false, [], 0, false, 0, 0)
  }

  lemma {:induction false} RunConcat(c: Config, a: Bytes, b: Bytes, hc: Callback)
    ensures Run(c, a + b, hc) == Run(Run(c, a, hc), b, hc)
    decreases |a|
  {
    hide Advance;
    if a == [] {
      assert a + b == b;
    } else if Running(c) {
      assert (a + b)[1..] == a[1..] + b;
      RunConcat(Advance(c, a[0], hc), a[1..], b, hc);
    }
  }

  lemma RunOne(c: Config, ch: Byte, hc: Callback)
    requires Running(c)
    ensures Run(c, [ch], hc) == Advance(c, ch, hc)
  {
    hide Advance;
    assert [ch][1..] == [];
  }

  lemma {:induction false} RunStopped(c: Config, s: Bytes, hc: Callback)
    requires !Running(c)
    ensures Run(c, s, hc) == c
  {
  }

  // ---------------------------------------------------------------- the discipline of marks

  // The marks of one arm are in order, and `live` is what they leave set.
  predicate Orderly(start: Option<Kind>, r: Result, live: Option<Kind>) {
    && LegalActs(start, r.acts)
    && (r.p.errno == OK ==> LiveAfter(start, r.acts) == live)
  }

  lemma OrderlyStart(p: Parser, s: StartState, ch: Byte)
    requires p.errno == OK && p.state == AtStart(s)
    ensures var r := StartTransition(p, s, ch);
            !r.exit && Orderly(StartLive(p.state), r, EndLive(p.state, r.p.state))
  {
  }

  lemma OrderlyStatus(p: Parser, s: StatusState, ch: Byte)
    requires p.errno == OK && p.state == AtStatus(s)
    ensures var r := StatusTransition(p, s, ch);
            !r.exit && Orderly(StartLive(p.state), r, EndLive(p.state, r.p.state))
  {
  }

  lemma OrderlyVersion(p: Parser, s: VersionState, ch: Byte)
    requires p.errno == OK && p.state == AtVersion(s)
    ensures var r := VersionTransition(p, s, ch);
            !r.exit && Orderly(StartLive(p.state), r, EndLive(p.state, r.p.state))
  {
  }

  lemma OrderlyUrl(p: Parser, s: UrlState, ch: Byte)
    requires p.errno == OK && p.state == AtUrl(s)
    ensures var r := UrlTransition(p, s, ch);
            !r.exit && Orderly(StartLive(p.state), r, EndLive(p.state, r.p.state))
  {
  }

  lemma OrderlyChunkSize(p: Parser, s: ChunkSizeState, ch: Byte)
    requires p.errno == OK && p.state == AtChunkSize(s)
    ensures var r := ChunkSizeTransition(p, s, ch);
            !r.exit && Orderly(StartLive(p.state), r, EndLive(p.state, r.p.state))
  {
  }

  lemma OrderlyChunkData(p: Parser, s: ChunkDataState, ch: Byte)
    requires p.errno == OK && p.state == AtChunkData(s)
    ensures var r := ChunkDataTransition(p, s, ch);
            !r.exit && Orderly(StartLive(p.state), r, EndLive(p.state, r.p.state))
  {
  }

  lemma OrderlyFinish(p: Parser)
    requires p.errno == OK
    ensures Orderly(None, FinishMessage(p), None) && FinishMessage(p).p.state.AtStart?
    ensures Orderly(None, FinishHeaders(p), None) && StartLive(FinishHeaders(p).p.state) == None
  {
  }

  lemma OrderlyTwo(a: Action, b: Action, r: Result, live: Option<Kind>)
    requires Legal(None, a) && Legal(Marked(None, a), b) && Marked(Marked(None, a), b) == None
    requires Orderly(None, r, live)
    ensures Orderly(None, First(a, First(b, r)), live)
  {
    assert LegalActs(Marked(None, a), Do(b, r.acts));
    assert LiveAfter(Marked(None, a), Do(b, r.acts)) == LiveAfter(None, r.acts);
  }

  lemma OrderlyBody(p: Parser, s: BodyState, ch: Byte)
    requires p.errno == OK && p.state == AtBody(s)
    ensures var r := BodyTransition(p, s, ch);
            Orderly(StartLive(p.state), r, if r.exit then None else EndLive(p.state, r.p.state))
  {
    hide FinishMessage;
    match s
    case BodyIdentity =>
      var q := p.(contentLength := 0, state := AtBody(MessageDone));
      OrderlyFinish(q);
      OrderlyTwo(Mark(OnBody), FlushThrough(OnBody), FinishMessage(q), None);
    case MessageDone => OrderlyFinish(p);
    case _ =>
  }

  lemma OrderlyEndHeaders(p: Parser, ch: Byte, hc: Callback)
    requires p.errno == OK
    ensures var r := EndHeaders(p, ch, hc);
            Orderly(None, r, None) && (r.p.errno == OK ==> StartLive(r.p.state) == None)
  {
    hide FinishMessage, FinishHeaders;
    OrderlyFinish(p);
    OrderlyFinish(Answered(HeadersSeen(p), hc(HeadersSeen(p))));
  }

  lemma OrderlyStartField(p: Parser, ch: Byte, hc: Callback)
    requires p.errno == OK
    ensures var r := StartField(p, ch, hc);
            Orderly(None, r, if r.exit then None else StartLive(r.p.state))
  {
    hide EndHeaders;
    OrderlyEndHeaders(p.(state := AtField(HeadersAlmostDone)), ch, hc);
  }

  lemma OrderlyField(p: Parser, s: FieldState, ch: Byte, hc: Callback)
    requires p.errno == OK && p.state == AtField(s)
    ensures var r := FieldTransition(p, s, ch, hc);
            Orderly(StartLive(p.state), r, if r.exit then None else EndLive(p.state, r.p.state))
  {
    hide StartField, EndHeaders, FinishHeaders, FieldByte;
    OrderlyStartField(p, ch, hc);
    OrderlyEndHeaders(p, ch, hc);
    OrderlyFinish(p);
  }

  lemma OrderlyValue(p: Parser, s: ValueState, ch: Byte, hc: Callback, skip: bool)
    requires p.errno == OK && p.state == AtValue(s)
    ensures var r := ValueTransition(p, s, ch, hc, skip);
            Orderly(StartLive(p.state), r, if r.exit then None else EndLive(p.state, r.p.state))
  {
    hide StartField, StartValue, ValueByte, SetHeaderFlag, IsHeaderChar;
    OrderlyStartField(SetHeaderFlag(p).(state := AtField(HeaderFieldStart)), ch, hc);
    if s == HeaderValueDiscardLws {
      var r := EndField(p, ch, hc);
      OrderlyTwo(Mark(OnHeaderValue), Flush(OnHeaderValue), r, if r.exit then None else StartLive(r.p.state));
    }
  }

  // In every state and on every byte, marks are set and flushed so that at most one is live,
  // and the one that is live afterwards is the one the next state expects.
  lemma StepMarks(p: Parser, ch: Byte, hc: Callback, skip: bool)
    requires p.errno == OK
    ensures var r := Step(p, ch, hc, skip);
            Orderly(StartLive(p.state), r, if r.exit then None else EndLive(p.state, r.p.state))
  {
    hide StartTransition, StatusTransition, UrlTransition, VersionTransition, FieldTransition,
         ValueTransition, ChunkSizeTransition, ChunkDataTransition, BodyTransition;
    match p.state
    case AtStart(s) => OrderlyStart(p, s, ch);
    case AtStatus(s) => OrderlyStatus(p, s, ch);
    case AtUrl(s) => OrderlyUrl(p, s, ch);
    case AtVersion(s) => OrderlyVersion(p, s, ch);
    case AtField(s) => OrderlyField(p, s, ch, hc);
    case AtValue(s) => OrderlyValue(p, s, ch, hc, skip);
    case AtChunkSize(s) => OrderlyChunkSize(p, s, ch);
    case AtChunkData(s) => OrderlyChunkData(p, s, ch);
    case AtBody(s) => OrderlyBody(p, s, ch);
  }

  // ---------------------------------------------------------------- the end of the log

  predicate EndsWith(log: seq<Event>, k: Kind) {
    |log| > 0 && log[|log| - 1].Data? && log[|log| - 1].kind == k
  }

  lemma PushEmpty(log: seq<Event>, k: Kind)
    requires EndsWith(log, k)
    ensures Push(log, Data(k, [])) == log
  {
    var l := log[|log| - 1];
    assert l.bytes + [] == l.bytes;
    assert log == log[..|log| - 1] + [l];
  }

  // While a mark is restored at buffer starts, the last callback was data of its kind.
  predicate LogEnds(c: Config) {
    Running(c) && StartLive(c.p.state).Some? ==> EndsWith(c.log, StartLive(c.p.state).value)
  }

  lemma EmitEnds(log: seq<Event>, es: seq<Event>, k: Kind, b: Bytes)
    ensures EndsWith(Emit(log, es + [Data(k, b)]), k)
  {
    EmitConcat(log, es, [Data(k, b)]);
    EmitOne(Emit(log, es), Data(k, b));
  }

  lemma AdvanceLogEnds(c: Config, ch: Byte, hc: Callback)
    requires Running(c)
    ensures LogEnds(Advance(c, ch, hc))
  {
    hide Step, Emit, Trace, LiveAfter;
    StepMarks(c.p, ch, hc, c.skip);
    var d, r := Advance(c, ch, hc), Step(c.p, ch, hc, c.skip);
    var live := LiveAfter(StartLive(c.p.state), r.acts);
    if Running(d) && StartLive(d.p.state).Some? {
      assert live == EndLive(c.p.state, d.p.state);
      var k := StartLive(d.p.state).value;
      if c.p.state.AtChunkData? || c.p.state.AtBody? {
        BodyLeavesNoMark(c.p, ch, hc, c.skip);
      }
      var es := Opening(StartLive(c.p.state)) + Trace(StartLive(c.p.state), r.acts, ch);
      assert StepEvents(c.p, r, ch) == es + [Data(k, [ch])];
      EmitEnds(c.log, es, k, [ch]);
    }
  }

  lemma BodyLeavesNoMark(p: Parser, ch: Byte, hc: Callback, skip: bool)
    requires p.state.AtChunkData? || p.state.AtBody?
    ensures StartLive(Step(p, ch, hc, skip).p.state) == None
  {
  }

  // ---------------------------------------------------------------- fragmentation

  // The one thing a buffer boundary can change: buffer b starts inside a general header value
  // with a byte that a longer buffer would have skipped unchecked.
  predicate Exposed(c: Config, b: Bytes) {
    Running(c) && c.skip && !c.p.lenient && |b| > 0 && !IsHeaderChar(b[0])
  }

  predicate SkipsInValue(c: Config) {
    c.skip ==> Running(c) && c.p.state == AtValue(HeaderValue) && c.p.hstate.General?
  }

  lemma AdvanceSkips(c: Config, ch: Byte, hc: Callback)
    requires Running(c)
    ensures SkipsInValue(Advance(c, ch, hc))
  {
    hide StepEvents, Emit, StartTransition, StatusTransition, UrlTransition, VersionTransition,
         FieldTransition, ChunkSizeTransition, ChunkDataTransition, BodyTransition, EndField;
    if SkipsNext(c.p, Advance(c, ch, hc).p) {
      assert Step(c.p, ch, hc, c.skip) == InValue(c.p, ch, c.skip);
    }
  }

  lemma {:induction false} RunSkips(c: Config, s: Bytes, hc: Callback)
    requires SkipsInValue(c)
    ensures SkipsInValue(Run(c, s, hc))
    decreases |s|
  {
    hide Advance;
    if s != [] && Running(c) {
      AdvanceSkips(c, s[0], hc);
      RunSkips(Advance(c, s[0], hc), s[1..], hc);
    }
  }

  lemma {:induction false} RunPos(c: Config, s: Bytes, hc: Callback)
    ensures c.pos <= Run(c, s, hc).pos <= c.pos + |s|
    ensures Running(Run(c, s, hc)) ==> Run(c, s, hc).pos == c.pos + |s|
    decreases |s|
  {
    hide Step;
    if s != [] && Running(c) {
      RunPos(Advance(c, s[0], hc), s[1..], hc);
    }
  }

  // The scan position matters to one byte only, and only if that byte is exposed.
  lemma SkipMatters(c: Config, ch: Byte, hc: Callback)
    requires Running(c) && SkipsInValue(c) && c.skip
    ensures var d := c.(skip := false);
            if !c.p.lenient && !IsHeaderChar(ch) then
              Advance(d, ch, hc).p.errno == InvalidHeaderToken && Advance(d, ch, hc).pos == c.pos &&
              Advance(c, ch, hc).p.errno == OK && Advance(c, ch, hc).pos == c.pos + 1
            else Advance(c, ch, hc) == Advance(d, ch, hc)
  {
    hide StepEvents, Emit, StartTransition, StatusTransition, UrlTransition, VersionTransition,
         FieldTransition, ChunkSizeTransition, ChunkDataTransition, BodyTransition, EndField;
    assert Step(c.p, ch, hc, c.skip) == InValue(c.p, ch, true);
    assert Step(c.p, ch, hc, false) == InValue(c.p, ch, false);
  }

  // A buffer boundary is invisible exactly when it does not expose a byte; otherwise the parser
  // rejects the byte behind it.
  lemma BoundaryInvisible(c: Config, b: Bytes, hc: Callback)
    requires SkipsInValue(c) && b != []
    ensures !Exposed(c, b) ==> Feed(c, b, hc) == Run(c, b, hc)
    ensures Exposed(c, b) ==> var d := Feed(c, b, hc);
                              d.p.errno == InvalidHeaderToken && d.pos == c.pos < Run(c, b, hc).pos
  {
    hide Advance;
    if Running(c) && c.skip {
      SkipMatters(c, b[0], hc);
      if Exposed(c, b) {
        var d := c.(skip := false);
        RunStopped(Advance(d, b[0], hc), b[1..], hc);
        RunPos(Advance(c, b[0], hc), b[1..], hc);
      }
    }
  }

  // Some buffer of the list starts with an exposed byte.
  predicate AnyExposed(c: Config, buffers: seq<Bytes>, hc: Callback)
    decreases |buffers|
  {
    buffers != [] &&
    (Exposed(c, buffers[0]) || AnyExposed(Feed(c, buffers[0], hc), buffers[1..], hc))
  }

  lemma {:induction false} FeedAllStopped(c: Config, buffers: seq<Bytes>, hc: Callback)
    requires !Running(c) && !c.skip
    ensures FeedAll(c, buffers, hc) == c
    decreases |buffers|
  {
    hide Advance;
    if buffers != [] {
      assert c.(skip := false) == c;
      FeedAllStopped(c, buffers[1..], hc);
    }
  }

  // Fragmentation independence, with its exact condition: feeding the buffers one by one gives
  // what feeding their concatenation gives, unless a buffer starts with an exposed byte; and
  // then it does not.
  lemma {:induction false} Fragmentation(c: Config, buffers: seq<Bytes>, hc: Callback)
    requires SkipsInValue(c) && forall i :: 0 <= i < |buffers| ==> buffers[i] != []
    ensures var cut, whole := FeedAll(c, buffers, hc), Run(c, Flatten(buffers), hc);
            && (cut == whole <==> !AnyExposed(c, buffers, hc))
            && (AnyExposed(c, buffers, hc) ==> cut.p.errno == InvalidHeaderToken && cut.pos < whole.pos)
    decreases |buffers|
  {
    hide Advance;
    if buffers != [] {
      var b, rest := buffers[0], buffers[1..];
      RunConcat(c, b, Flatten(rest), hc);
      BoundaryInvisible(c, b, hc);
      if Exposed(c, b) {
        RunSkips(c.(skip := false), b, hc);
        FeedAllStopped(Feed(c, b, hc), rest, hc);
        RunPos(Run(c, b, hc), Flatten(rest), hc);
      } else {
        RunSkips(c, b, hc);
        Fragmentation(Run(c, b, hc), rest, hc);
      }
    }
  }
}
