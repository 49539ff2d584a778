/**
 http_parser_execute: the parser object, its buffer loop with marks and block paths, and the
 header budget.  Every call is proved to do what the one-byte automaton does on the same bytes.
 */
module HttpExecute {
  import opened Basics
  import opened HttpTypes
  import opened HttpStep
  import opened HttpRun
  import opened HttpBlocks
  import opened HttpInvariant
  import opened HttpLost

  // ---------------------------------------------------------------- marks

  // The five mark pointers of http_parser_execute, as offsets into the buffer; -1 is NULL.
  datatype Marks = Marks(headerField: int, headerValue: int, url: int, body: int, status: int)

  const NO_MARKS := Marks(-1, -1, -1, -1, -1)

  function At(m: Marks, k: Kind): int {
    match k
    case OnHeaderField => m.headerField
    case OnHeaderValue => m.headerValue
    case OnUrl => m.url
    case OnBody => m.body
    case OnStatus => m.status
  }

  function Put(m: Marks, k: Kind, i: int): Marks {
    match k
    case OnHeaderField => m.(headerField := i)
    case OnHeaderValue => m.(headerValue := i)
    case OnUrl => m.(url := i)
    case OnBody => m.(body := i)
    case OnStatus => m.(status := i)
  }

  lemma PutAt(m: Marks, k: Kind, i: int)
    ensures forall l :: At(Put(m, k, i), l) == if l == k then i else At(m, l)
  {
  }

  // `live` is the one mark that is set, and it is set at or before offset i.
  predicate MarksOk(m: Marks, live: Option<Kind>, i: nat) {
    && (m.headerField >= 0 <==> live == Some(OnHeaderField)) && m.headerField <= i
    && (m.headerValue >= 0 <==> live == Some(OnHeaderValue)) && m.headerValue <= i
    && (m.url >= 0 <==> live == Some(OnUrl)) && m.url <= i
    && (m.body >= 0 <==> live == Some(OnBody)) && m.body <= i
    && (m.status >= 0 <==> live == Some(OnStatus)) && m.status <= i
  }

  lemma MarkAt(m: Marks, live: Option<Kind>, k: Kind, i: nat)
    requires MarksOk(m, live, i)
    ensures (At(m, k) >= 0 <==> live == Some(k)) && At(m, k) <= i
    ensures live == None ==> MarksOk(Put(m, k, i), Some(k), i) && At(Put(m, k, i), k) == i
    ensures live == Some(k) ==> MarksOk(Put(m, k, -1), None, i)
  {
  }

  // The data between the mark and offset i, not yet reported.
  function Pending(data: Bytes, m: Marks, live: Option<Kind>, i: nat): seq<Event>
    requires MarksOk(m, live, i) && i <= |data|
  {
    if live.Some? then [Data(live.value, data[At(m, live.value)..i])] else []
  }

  // Marks stay where they are, are cleared, or are set at offset i.
  predicate MarksMoved(m: Marks, m': Marks, i: nat) {
    forall k :: At(m', k) in {At(m, k), -1, i}
  }

  // How many bytes lie between the mark and offset i.
  function Behind(m: Marks, live: Option<Kind>, i: nat): nat
    requires MarksOk(m, live, i)
  {
    if live.Some? then i - At(m, live.value) else 0
  }

  // c is where a call that began in `base` is behind byte i, and the mark is where the open data began.
  ghost predicate Tracked(base: Config, c: Config, data: Bytes, i: nat, m: Marks, live: Option<Kind>, hc: Callback) {
    && i <= |data| && MarksOk(m, live, i) && c == Run(base, data[..i], hc)
    && Held(base, data[..i], hc) == Behind(m, live, i)
  }

  // A mark that was set stays, and a new one is set at i.
  predicate Carried(m: Marks, live: Option<Kind>, m': Marks, live': Option<Kind>, i: nat) {
    live'.Some? ==> At(m', live'.value) == if live.Some? then At(m, live.value) else i
  }

  lemma TrackByte(base: Config, c: Config, data: Bytes, i: nat, m: Marks, live: Option<Kind>,
                  m': Marks, live': Option<Kind>, hc: Callback)
    requires i < |data| && Tracked(base, c, data, i, m, live, hc) && Running(c)
    requires MarksOk(m', live', i + 1) && Carried(m, live, m', live', i)
    requires live'.Some? <==> EndLive(c.p.state, Advance(c, data[i], hc).p.state).Some?
    ensures Tracked(base, Advance(c, data[i], hc), data, i + 1, m', live', hc)
  {
    hide Run, Advance, EndLive, Held, At, MarksOk;
    assert data[..i + 1] == data[..i] + [data[i]];
    RunConcat(base, data[..i], [data[i]], hc);
    RunOne(c, data[i], hc);
    HeldNext(base, data, i, hc);
    if live'.Some? {
      MarkAt(m', live', live'.value, i + 1);
    }
    if live.Some? {
      MarkAt(m, live, live.value, i);
    }
  }

  // The bytes from j to k are data of the kind of the mark.
  lemma TrackStretch(base: Config, c: Config, data: Bytes, j: nat, k: nat, m: Marks, live: Option<Kind>,
                     m': Marks, kind: Kind, hc: Callback)
    requires j < k <= |data| && Tracked(base, c, data, j, m, live, hc)
    requires MarksOk(m', Some(kind), k) && Carried(m, live, m', Some(kind), j)
    requires DataStretch(base, data, j, k, hc)
    ensures Tracked(base, Run(c, data[j..k], hc), data, k, m', Some(kind), hc)
  {
    hide Run, Held, At, MarksOk, DataStretch;
    assert data[..k] == data[..j] + data[j..k];
    RunConcat(base, data[..j], data[j..k], hc);
    HeldStretch(base, data, j, k, hc);
    MarkAt(m', Some(kind), kind, k);
    if live.Some? {
      MarkAt(m, live, live.value, j);
    }
  }

  // The byte behind the data is consumed too, and no mark is left.
  lemma TrackNone(base: Config, c: Config, data: Bytes, j: nat, k: nat, m: Marks, live: Option<Kind>,
                  m': Marks, hc: Callback)
    requires j < k <= |data| && Tracked(base, c, data, j, m, live, hc) && MarksOk(m', None, k)
    requires EndLive(Run(c, data[j..k - 1], hc).p.state, Run(c, data[j..k], hc).p.state).None?
    ensures Tracked(base, Run(c, data[j..k], hc), data, k, m', None, hc)
  {
    hide Run, Held, MarksOk, EndLive;
    assert data[..k] == data[..j] + data[j..k] && data[..k - 1] == data[..j] + data[j..k - 1];
    RunConcat(base, data[..j], data[j..k], hc);
    RunConcat(base, data[..j], data[j..k - 1], hc);
    HeldNext(base, data, k - 1, hc);
  }

  lemma TrackedAt(base: Config, c: Config, data: Bytes, i: nat, m: Marks, live: Option<Kind>, hc: Callback)
    requires Tracked(base, c, data, i, m, live, hc)
    ensures i <= |data| && c == Run(base, data[..i], hc)
  {
  }

  // Stretches of header value and of body are data throughout.
  lemma ValueStretch(base: Config, c: Config, data: Bytes, j: nat, k: nat, hc: Callback)
    requires j < k <= |data| && c == Run(base, data[..j], hc) && Running(c)
    requires c.p.state == AtValue(HeaderValue) && c.p.hstate.General?
    requires c.skip || c.p.lenient || IsHeaderChar(data[j])
    requires forall x :: j <= x < k ==> IsValueText(data[x])
    ensures DataStretch(base, data, j, k, hc)
  {
    hide Run, IsHeaderChar, Push;
    forall y | j <= y <= k ensures Run(base, data[..y], hc).p.state == AtValue(HeaderValue) {
      if y > j {
        var text := data[j..y];
        assert forall x :: 0 <= x < |text| ==> text[x] == data[j + x];
        SkipRun(c, text, hc);
        assert data[..y] == data[..j] + text;
        RunConcat(base, data[..j], text, hc);
      }
    }
  }

  lemma BodyStretch(base: Config, c: Config, data: Bytes, j: nat, k: nat, hc: Callback)
    requires j < k <= |data| && c == Run(base, data[..j], hc) && Running(c) && Inv(c.p) && InBody(c.p.state)
    requires c.p.state == AtChunkData(ChunkData) ==> k - j <= c.p.contentLength
    requires c.p.state == AtBody(BodyIdentity) ==> k - j < c.p.contentLength
    ensures DataStretch(base, data, j, k, hc)
  {
    hide Run, Push, Inv;
    forall y | j <= y <= k
      ensures var t := Run(base, data[..y], hc).p.state;
              t == c.p.state || (y == k && c.p.state == AtChunkData(ChunkData))
    {
      if y > j {
        BodyRun(c, data[j..y], hc);
        assert data[..y] == data[..j] + data[j..y];
        RunConcat(base, data[..j], data[j..y], hc);
      }
    }
  }

  // What is unreported when byte i fails.
  lemma LostPending(base: Config, c: Config, data: Bytes, i: nat, m: Marks, live: Option<Kind>,
                    m': Marks, live': Option<Kind>, hc: Callback)
    requires i < |data| && Tracked(base, c, data, i, m, live, hc)
    requires MarksOk(m', live', i) && Carried(m, live, m', live', i)
    requires live' == LostKind(c.p.state, data[i], i)
    ensures Pending(data, m', live', i) == Unreported(base, data, i, hc)
  {
    hide Run, Held, MarksOk, LostKind, At;
    if live.Some? {
      MarkAt(m, live, live.value, i);
    }
    if live'.Some? {
      MarkAt(m', live', live'.value, i);
    }
  }

  // One-byte arms carry the mark.
  lemma ActsCarry(p: Parser, ch: Byte, hc: Callback, i: nat, m: Marks, live: Option<Kind>, m': Marks)
    requires p.errno == OK && live == OpenMark(p.state, i) && MarksOk(m, live, i)
    requires var acts := Step(p, ch, hc, false).acts;
             MarksOk(m', LiveAfter(live, acts), i) && MarksMoved(m, m', i) && (acts == Nil ==> m' == m)
    ensures Carried(m, live, m', LiveAfter(live, Step(p, ch, hc, false).acts), i)
  {
    hide Step, At, OpenMark, MarksOk;
    var acts := Step(p, ch, hc, false).acts;
    var live' := LiveAfter(live, acts);
    if live.Some? {
      FlushOnly(p, ch, hc, false, i);
    }
    if live'.Some? {
      MarkAt(m, live, live'.value, i);
      MarkAt(m', live', live'.value, i);
      assert At(m', live'.value) in {At(m, live'.value), -1, i};
    }
  }

  // The mark that may be set in state s: the restored one, or the body mark.
  predicate LiveFits(s: State, live: Option<Kind>) {
    live == StartLive(s) ||
    (live == Some(OnBody) && (s == AtChunkData(ChunkData) || s == AtChunkData(ChunkDataAlmostDone) ||
                              s == AtBody(BodyIdentity) || s == AtBody(BodyIdentityEof)))
  }

  // The states whose arm takes as much of the buffer as belongs to the body.
  predicate InBody(s: State) {
    s == AtChunkData(ChunkData) || s == AtBody(BodyIdentity) || s == AtBody(BodyIdentityEof)
  }

  // A call starts with a fresh scan, and an embedder may call again after an upgrade.
  function Resume(c: Config): Config { c.(skip := false, exited := false) }

  lemma EmitAfter(a: seq<Event>, b: seq<Event>, e: Event)
    ensures Emit([], a + b + [e]) == Push(Emit([], a + b), e)
  {
    EmitConcat([], a + b, [e]);
    EmitOne(Emit([], a + b), e);
  }

  // The restored mark reports nothing by itself.
  lemma OpeningSilent(log: seq<Event>, live: Option<Kind>)
    requires live.Some? ==> EndsWith(log, live.value)
    ensures Emit(log, Opening(live)) == log
  {
    EmitNone(log);
    if live.Some? {
      EmitOne(log, Data(live.value, []));
      PushEmpty(log, live.value);
    }
  }

  // What a one-byte arm reports, given the mark that is actually set.
  lemma SimpleEvents(c: Config, ch: Byte, hc: Callback, live: Option<Kind>)
    requires Running(c) && !InBody(c.p.state) && LiveFits(c.p.state, live)
    requires live.Some? ==> EndsWith(c.log, live.value)
    ensures var r := Step(c.p, ch, hc, c.skip);
            var after := LiveAfter(live, r.acts);
            && LegalActs(live, r.acts)
            && Advance(c, ch, hc).log == Emit(Emit(c.log, Trace(live, r.acts, ch)),
                                              if r.p.errno == OK then Closing(after, ch) else [])
            && (r.p.errno == OK ==> LiveFits(r.p.state, after) && (r.exit ==> after == None))
            && (r.p.errno == OK && !r.exit ==> after == EndLive(c.p.state, r.p.state))
  {
    hide Step, Emit, Trace, LiveAfter, LegalActs;
    var r := Step(c.p, ch, hc, c.skip);
    var start := StartLive(c.p.state);
    StepMarks(c.p, ch, hc, c.skip);
    CounterFitsStep(c.p, ch, hc, c.skip);
    if live != start {
      BodyMarkFlushed(c, ch, hc);
    }
    var closing := if r.p.errno == OK then Closing(LiveAfter(start, r.acts), ch) else [];
    OpeningSilent(c.log, start);
    EmitConcat(c.log, Opening(start) + Trace(start, r.acts, ch), closing);
    EmitConcat(c.log, Opening(start), Trace(start, r.acts, ch));
  }

  lemma SkipOnText(p: Parser, ch: Byte, hc: Callback, skip: bool)
    requires !IsValueText(ch) || !skip
    ensures Step(p, ch, hc, skip) == Step(p, ch, hc, false)
    ensures p.state == AtValue(HeaderValue) && !IsValueText(ch) ==>
              Step(p, ch, hc, skip).p.state != AtValue(HeaderValue)
  {
    hide StartTransition, StatusTransition, UrlTransition, VersionTransition, FieldTransition,
         ChunkSizeTransition, ChunkDataTransition, BodyTransition, ValueByte, EndField;
  }

  // Everything http_parser_execute relies on after an arm that consumed one byte.
  lemma AfterOneByte(c: Config, ch: Byte, hc: Callback, live: Option<Kind>)
    requires Running(c) && Inv(c.p) && !InBody(c.p.state) && LiveFits(c.p.state, live)
    requires live.Some? ==> EndsWith(c.log, live.value)
    requires c.skip || c.p.state == AtValue(HeaderValue) ==> !IsValueText(ch)
    ensures var r, d := Step(c.p, ch, hc, false), Advance(c, ch, hc);
            var count := if ParsingHeader(c.p.state) then c.nread + 1 else c.nread;
            var after := LiveAfter(live, r.acts);
            && d.p == r.p && d.exited == r.exit && !d.skip
            && d.pos == (if r.p.errno == OK then c.pos + 1 else c.pos)
            && d.nread == (if r.reset then 0 else count) && d.peak <= Max(c.peak, count)
            && (r.p.errno == OK || IsSyntaxError(r.p.errno)) && (r.exit ==> r.p.errno == OK)
            && (r.p.errno == OK ==> Inv(r.p) && LiveFits(r.p.state, after))
            && (r.p.errno == OK && r.p.state == AtChunkSize(ChunkSizeStart) ==> r.reset)
            && (r.exit ==> r.p.state.AtStart? && after == None)
            && (r.p.errno == OK && !r.exit ==> after == EndLive(c.p.state, r.p.state))
            && LegalActs(live, r.acts)
            && d.log == Emit(Emit(c.log, Trace(live, r.acts, ch)),
                             if r.p.errno == OK then Closing(after, ch) else [])
  {
    hide Step, Emit, Trace, LiveAfter, LegalActs, Inv, LiveFits, StepEvents;
    SkipOnText(c.p, ch, hc, c.skip);
    SimpleEvents(c, ch, hc, live);
    InvStep(c.p, ch, hc, false);
    CounterFitsStep(c.p, ch, hc, false);
  }

  // The next byte ends the parse with error e inside a header block.
  predicate Failing(p: Parser, ch: Byte, e: Errno, skip: bool) {
    && p.errno == OK && e != OK
    && (|| (p.state == AtField(HeaderField) && IsToken(ch) && e == FieldByte(p, ch).errno)
        || (p.state == AtValue(HeaderValue) && IsValueText(ch) && !skip && !p.lenient && !IsHeaderChar(ch) &&
            e == InvalidHeaderToken)
        || (p.state == AtValue(HeaderValue) && IsValueText(ch) && (skip || p.lenient || IsHeaderChar(ch)) &&
            e == ValueByte(p, ch).errno))
  }

  lemma FailingAdvance(c: Config, ch: Byte, e: Errno, hc: Callback)
    requires Running(c) && Failing(c.p, ch, e, c.skip)
    requires StartLive(c.p.state).Some? ==> EndsWith(c.log, StartLive(c.p.state).value)
    ensures var d := Advance(c, ch, hc);
            && d.p.errno == e && d.p.state == c.p.state && d.log == c.log && d.peak == c.peak && !d.skip
            && IsSyntaxError(e) && d.pos == c.pos
  {
    hide FieldByte, ValueByte, IsHeaderChar, IsToken, Emit;
    var r := Step(c.p, ch, hc, c.skip);
    var live := StartLive(c.p.state);
    assert r.acts == Nil && r.p.errno == e && r.p.state == c.p.state && !r.exit;
    assert Trace(live, Nil, ch) == [];
    assert StepEvents(c.p, r, ch) == Opening(live);
    OpeningSilent(c.log, live);
  }

  // At the end of a chunk the body mark may or may not be set: either way the CR flushes it.
  lemma BodyMarkFlushed(c: Config, ch: Byte, hc: Callback)
    requires Running(c) && c.p.state == AtChunkData(ChunkDataAlmostDone)
    ensures var acts := Step(c.p, ch, hc, c.skip).acts;
            && LegalActs(Some(OnBody), acts) && Trace(Some(OnBody), acts, ch) == Trace(None, acts, ch) == []
            && (ch == CR ==> LiveAfter(Some(OnBody), acts) == LiveAfter(None, acts) == None)
            && (ch != CR ==> Step(c.p, ch, hc, c.skip).p.errno != OK)
  {
    assert Step(c.p, ch, hc, c.skip) == ChunkDataTransition(c.p, ChunkDataAlmostDone, ch);
    assert Trace(None, Nil, ch) == [];
  }

  // The parser after k body bytes that do not end an identity body.
  function BodyLeft(p: Parser, k: nat): (q: Parser)
    requires p.state != AtBody(BodyIdentityEof) ==> k <= p.contentLength
    ensures q == p.(contentLength := q.contentLength, state := q.state)
  {
    if p.state == AtBody(BodyIdentityEof) then p
    else if p.state == AtChunkData(ChunkData) && k == p.contentLength then
      p.(contentLength := 0, state := AtChunkData(ChunkDataAlmostDone))
    else p.(contentLength := p.contentLength - k)
  }

  lemma BodyRun(c: Config, s: Bytes, hc: Callback)
    requires Running(c) && Inv(c.p) && InBody(c.p.state) && s != []
    requires c.p.state == AtChunkData(ChunkData) ==> |s| <= c.p.contentLength
    requires c.p.state == AtBody(BodyIdentity) ==> |s| < c.p.contentLength
    ensures Run(c, s, hc) == c.(p := BodyLeft(c.p, |s|), skip := false,
                                log := Push(c.log, Data(OnBody, s)), pos := c.pos + |s|)
    ensures Inv(BodyLeft(c.p, |s|)) && LiveFits(BodyLeft(c.p, |s|).state, Some(OnBody))
    ensures var t := BodyLeft(c.p, |s|).state; InBody(t) || t == AtChunkData(ChunkDataAlmostDone)
  {
    hide Advance, Push, Run;
    match c.p.state
    case AtChunkData(_) => ChunkDataRun(c, s, hc);
    case AtBody(BodyIdentity) => IdentityRun(c, s, hc);
    case _ => EofRun(c, s, hc);
  }

  class HttpParser {
    var st: Parser
    var nread: nat
    // The callbacks made so far.
    var log: seq<Event>
    const hc: Callback

    // What the one-byte automaton does with everything fed so far.
    ghost var hist: Config
    // Data that an error left unreported.
    ghost var lost: seq<Event>
    // The calls since the header counter was last reset.
    ghost var calls: nat
    // The configuration in which the last call began.
    ghost var base: Config

    ghost predicate Valid()
      reads this
    {
      && (lost == [] || (|lost| == 1 && lost[0].Data?)) && Emit([], log + lost) == hist.log
      && SkipsInValue(hist) && hist.peak <= HTTP_MAX_HEADER_SIZE
      && (st.errno == OK ==>
            && lost == [] && hist.p == st && Inv(st) && LogEnds(Resume(hist))
            && hist.nread <= nread <= hist.nread + calls && nread <= HTTP_MAX_HEADER_SIZE
            && (st.state == AtChunkSize(ChunkSizeStart) ==> nread == 0))
      && (st.errno == HeaderOverflow ==> hist.nread + calls >= HTTP_MAX_HEADER_SIZE)
      && (st.errno != OK && st.errno != HeaderOverflow && st.errno != InvalidEofState ==>
            hist.p.errno == st.errno && hist.p.state == st.state)
    }

    constructor (t: ParserType, lenient: bool, hc: Callback)
      ensures Valid() && st == Init(t, lenient) && nread == 0 && log == [] && this.hc == hc
      ensures hist == Start(t, lenient) && calls == 0
    {
      st := Init(t, lenient);
      nread := 0;
      log := [];
      this.hc := hc;
      hist := Start(t, lenient);
      lost := [];
      calls := 0;
      base := Start(t, lenient);
      InvInit(t, lenient);
    }

    // The automaton has stopped too, n bytes behind c.
    ghost predicate Stopped(n: int, c: Config)
      reads this
    {
      !Running(hist) && st.errno == hist.p.errno && hist.pos == c.pos + n
    }

    // Inside a call, with i bytes of the buffer consumed and n counted.
    ghost predicate InCall(data: Bytes, i: nat, m: Marks, live: Option<Kind>, n: nat)
      reads this
    {
      && i <= |data| && MarksOk(m, live, i) && LiveFits(st.state, live)
      && (!InBody(st.state) ==> live == OpenMark(st.state, i)) && Tracked(base, hist, data, i, m, live, hc)
      && Running(hist) && hist.p == st && Inv(st)
      && Emit([], log + Pending(data, m, live, i)) == hist.log
      && SkipsInValue(hist) && (hist.skip ==> i == |data| || !IsValueText(data[i]))
      && hist.nread <= n && n + 1 <= hist.nread + calls && hist.peak <= HTTP_MAX_HEADER_SIZE
      && (st.state == AtChunkSize(ChunkSizeStart) ==> n == 0)
    }

    // MARK, CALLBACK_DATA and CALLBACK_NOTIFY at offset i.
    method PerformOne(a: Action, data: Bytes, i: nat, m: Marks, ghost live: Option<Kind>) returns (m': Marks)
      requires i < |data| && MarksOk(m, live, i) && Legal(live, a)
      modifies this`log
      ensures MarksOk(m', Marked(live, a), i)
      ensures Emit([], log + Pending(data, m', Marked(live, a), i)) ==
              Emit(Emit([], old(log) + Pending(data, m, live, i)), Caused(live, a, data[i]))
      ensures MarksMoved(m, m', i)
    {
      hide Emit, MarksOk, At, Put;
      m' := m;
      match a
      case Mark(k) =>
        MarkAt(m, live, k, i);
        if At(m, k) < 0 {
          m' := Put(m, k, i);
          PutAt(m, k, i);
        }
        assert data[i..i] == [];
        EmitConcat([], log + Pending(data, m, live, i), Caused(live, a, data[i]));
        assert log + Pending(data, m, live, i) + Caused(live, a, data[i]) == log + [Data(k, [])];
      case Flush(k) =>
        MarkAt(m, live, k, i);
        if At(m, k) >= 0 {
          log := log + [Data(k, data[At(m, k)..i])];
          m' := Put(m, k, -1);
          PutAt(m, k, -1);
        }
        assert log + Pending(data, m', Marked(live, a), i) == old(log) + Pending(data, m, live, i);
        EmitNone(Emit([], old(log) + Pending(data, m, live, i)));
      case FlushThrough(k) =>
        MarkAt(m, live, k, i);
        if At(m, k) >= 0 {
          log := log + [Data(k, data[At(m, k)..i + 1])];
          m' := Put(m, k, -1);
          PutAt(m, k, -1);
        }
        FlushedThrough(old(log), data, m, k, i);
        assert log + [] == log;
      case Call(n) =>
        log := log + [Notify(n)];
        EmitConcat([], old(log), [Notify(n)]);
        assert old(log) + [] == old(log) && log + [] == log;
    }

    static lemma FlushedThrough(log: seq<Event>, data: Bytes, m: Marks, k: Kind, i: nat)
      requires i < |data| && MarksOk(m, Some(k), i)
      ensures Emit([], log + [Data(k, data[At(m, k)..i + 1])]) ==
              Emit(Emit([], log + Pending(data, m, Some(k), i)), [Data(k, [data[i]])])
    {
      var a := data[At(m, k)..i];
      assert data[At(m, k)..i + 1] == a + [data[i]];
      EmitConcat([], log, [Data(k, a + [data[i]])]);
      EmitOne(Emit([], log), Data(k, a + [data[i]]));
      EmitConcat([], log, [Data(k, a)]);
      EmitOne(Emit([], log), Data(k, a));
      EmitOne(Push(Emit([], log), Data(k, a)), Data(k, [data[i]]));
      PushSplit(Emit([], log), k, a, [data[i]]);
    }

    method Perform(acts: Actions, data: Bytes, i: nat, m: Marks, ghost live: Option<Kind>) returns (m': Marks)
      requires i < |data| && MarksOk(m, live, i) && LegalActs(live, acts)
      modifies this`log
      ensures MarksOk(m', LiveAfter(live, acts), i)
      ensures Emit([], log + Pending(data, m', LiveAfter(live, acts), i)) ==
              Emit(Emit([], old(log) + Pending(data, m, live, i)), Trace(live, acts, data[i]))
      ensures MarksMoved(m, m', i) && (acts == Nil ==> m' == m)
    {
      hide Emit, Caused, Marked, Legal, Pending, MarksOk;
      m' := m;
      var todo := acts;
      ghost var l := live;
      ghost var made: seq<Event> := [];
      ghost var start := Emit([], log + Pending(data, m, live, i));
      EmitNone(start);
      while todo.Do?
        invariant LegalActs(l, todo) && LiveAfter(l, todo) == LiveAfter(live, acts) && MarksOk(m', l, i)
        invariant made + Trace(l, todo, data[i]) == Trace(live, acts, data[i])
        invariant Emit([], log + Pending(data, m', l, i)) == Emit(start, made)
        invariant MarksMoved(m, m', i) && (todo == acts ==> m' == m)
        decreases todo
      {
        var a := todo.first;
        EmitConcat(start, made, Caused(l, a, data[i]));
        m' := PerformOne(a, data, i, m', l);
        made := made + Caused(l, a, data[i]);
        l := Marked(l, a);
        todo := todo.rest;
      }
      assert made + [] == made;
    }

    // One more byte before offset i + 1 belongs to the live mark.
    static lemma PendingGrows(log: seq<Event>, data: Bytes, m: Marks, live: Option<Kind>, i: nat)
      requires i < |data| && MarksOk(m, live, i)
      ensures MarksOk(m, live, i + 1)
      ensures Emit([], log + Pending(data, m, live, i + 1)) ==
              Emit(Emit([], log + Pending(data, m, live, i)), Closing(live, data[i]))
    {
      if live.Some? {
        FlushedThrough(log, data, m, live.value, i);
      } else {
        EmitNone(Emit([], log + []));
      }
    }

    lemma PendingEnds(data: Bytes, i: nat, m: Marks, live: Option<Kind>, n: nat)
      requires InCall(data, i, m, live, n)
      ensures live.Some? ==> EndsWith(hist.log, live.value)
    {
      if live.Some? {
        EmitEnds([], log, live.value, data[At(m, live.value)..i]);
      }
    }

    // An arm that consumes one byte.
    method OneByte(data: Bytes, i: nat, m: Marks, ghost live: Option<Kind>, ghost n: nat)
      returns (m': Marks, exit: bool, ghost live': Option<Kind>)
      requires i < |data| && InCall(data, i, m, live, n) && !InBody(st.state) && lost == []
      requires st.state == AtValue(HeaderValue) ==> !IsValueText(data[i])
      requires nread == (if ParsingHeader(st.state) then n + 1 else n) && nread <= HTTP_MAX_HEADER_SIZE
      modifies this`st, this`nread, this`log, this`hist, this`lost, this`calls
      ensures calls <= old(calls)
      ensures hist == Advance(old(hist), data[i], hc)
      ensures st.errno != OK || exit ==>
                Valid() && st.errno == hist.p.errno != HeaderOverflow && !Running(hist)
      ensures hist.pos == old(hist).pos + (if st.errno == OK then 1 else 0)
      ensures st.errno != OK ==> lost == Unreported(base, data, i, hc)
      ensures st.errno == OK && !exit ==>
                InCall(data, i + 1, m', live', nread) && nread <= HTTP_MAX_HEADER_SIZE && lost == []
    {
      hide Step, Emit, Trace, LiveAfter, LegalActs, Advance, Inv, MarksOk, Tracked, Carried, Unreported;
      hide LiveFits, InBody, OpenMark, LostKind, ParsingHeader;
      var r := Step(st, data[i], hc, false);
      PendingEnds(data, i, m, live, n);
      AfterOneByte(hist, data[i], hc, live);
      m' := Perform(r.acts, data, i, m, live);
      live' := LiveAfter(live, r.acts);
      PendingGrows(log, data, m', live', i);
      EmitNone(Emit([], log + Pending(data, m', live', i)));
      st := r.p;
      exit := r.exit;
      if r.reset {
        nread := 0;
        calls := 1;
      }
      hist := Advance(hist, data[i], hc);
      AlmostDone(old(st), data[i], hc, false);
      ActsCarry(old(st), data[i], hc, i, m, live, m');
      if st.errno != OK {
        FailLeaves(old(st), data[i], hc, false, i);
        lost := Pending(data, m', live', i);
        LostPending(base, old(hist), data, i, m, live, m', live', hc);
      } else if !exit {
        MarkAfter(old(st).state, st.state, live', i + 1);
        TrackByte(base, old(hist), data, i, m, live, m', live', hc);
      }
    }

    // The mark left by an arm is the one expected in front of the next byte.
    static lemma MarkAfter(s: State, t: State, live: Option<Kind>, i: nat)
      requires !InBody(s) && LiveFits(t, live)
      requires t == AtChunkData(ChunkDataAlmostDone) ==> s == AtChunkData(ChunkData)
      ensures !InBody(t) ==> live == OpenMark(t, i)
    {
    }

    // `goto error` out of a block, on byte j: marks are not flushed.
    method BlockError(data: Bytes, j: nat, m: Marks, e: Errno, ghost live: Option<Kind>, ghost n: nat)
      requires j < |data| && InCall(data, j, m, live, n)
      requires Failing(st, data[j], e, hist.skip)
      modifies this`st, this`hist, this`lost
      ensures hist == Advance(old(hist), data[j], hc) && !Running(hist)
      ensures Valid() && st.errno == e && hist.pos == old(hist).pos && lost == Unreported(base, data, j, hc)
    {
      hide Step, Emit, Inv, MarksOk, Tracked, Unreported;
      PendingEnds(data, j, m, live, n);
      FailingAdvance(hist, data[j], e, hc);
      hist := Advance(hist, data[j], hc);
      st := st.(errno := e);
      lost := Pending(data, m, live, j);
      LostPending(base, old(hist), data, j, m, live, m, live, hc);
    }

    // One turn of the s_header_field loop.
    method FieldTurn(data: Bytes, j: nat, m: Marks, ghost live: Option<Kind>, ghost n: nat)
      requires j < |data| && InCall(data, j, m, live, n) && st.state == AtField(HeaderField)
      requires IsToken(data[j]) && FieldByte(st, data[j]).errno == OK
      modifies this`st, this`hist
      ensures hist == Advance(old(hist), data[j], hc)
      ensures st.state == AtField(HeaderField) && InCall(data, j + 1, m, live, n + 1)
    {
      hide Step, Emit, FieldByte, IsToken, Advance, MarksOk, LiveFits, Tracked;
      FieldAdvance(hist, data[j], hc);
      FieldByteInv(st, data[j]);
      OnlyField(live);
      PendingGrows(log, data, m, live, j);
      EmitOne(hist.log, Data(OnHeaderField, [data[j]]));
      TrackByte(base, hist, data, j, m, live, m, live, hc);
      hist := Advance(hist, data[j], hc);
      st := FieldByte(st, data[j]);
    }

    // The loop of s_header_field, up to the first byte it does not accept.
    method ScanField(data: Bytes, i: nat, m: Marks, ghost live: Option<Kind>, ghost n: nat) returns (j: nat)
      requires i < |data| && InCall(data, i, m, live, n) && st.state == AtField(HeaderField)
      modifies this`st, this`hist
      ensures i <= j <= |data| && hist == Run(old(hist), data[i..j], hc)
      ensures st.state == AtField(HeaderField) && InCall(data, j, m, live, n + (j - i))
      ensures j < |data| && IsToken(data[j]) ==> FieldByte(st, data[j]).errno != OK
    {
      hide Step, Emit, FieldByte, IsToken, Advance, MarksOk, LiveFits, Tracked, Unreported, Inv, OpenMark, SkipsInValue;
      j := i;
      assert data[i..i] == [];
      while j < |data| && IsToken(data[j]) && FieldByte(st, data[j]).errno == OK
        invariant i <= j <= |data| && hist == Run(old(hist), data[i..j], hc)
        invariant st.state == AtField(HeaderField) && InCall(data, j, m, live, n + (j - i))
      {
        ExtendRun(old(hist), data, i, j);
        FieldTurn(data, j, m, live, n + (j - i));
        j := j + 1;
      }
    }

    // At the top of the byte loop, or past the end of the buffer, where a block that reached
    // the end has counted one byte too many.
    ghost predicate BetweenBytes(data: Bytes, i: nat, m: Marks, live: Option<Kind>, n: nat)
      reads this
    {
      && InCall(data, i, m, live, n) && lost == [] && nread <= HTTP_MAX_HEADER_SIZE
      && n <= nread <= n + 1 && (i < |data| ==> nread == n)
      && (st.state == AtChunkSize(ChunkSizeStart) ==> nread == 0)
    }

    // COUNT_HEADER_SIZE found the header too long.
    method Overflow(data: Bytes, i: nat, m: Marks, ghost live: Option<Kind>, ghost n: nat)
      requires InCall(data, i, m, live, n) && n + 1 > HTTP_MAX_HEADER_SIZE
      modifies this`st, this`lost
      ensures Valid() && st.errno == HeaderOverflow
    {
      hide Emit, Inv, MarksOk;
      st := st.(errno := HeaderOverflow);
      lost := Pending(data, m, live, i);
    }

    // The same at the CR behind a value, where CALLBACK_DATA runs before the count.
    method OverflowBehindValue(data: Bytes, j: nat, m: Marks, ghost live: Option<Kind>, ghost n: nat)
      requires InCall(data, j, m, live, n) && n + 1 > HTTP_MAX_HEADER_SIZE
      requires st.state == AtValue(HeaderValue) && lost == []
      modifies this`st, this`log
      ensures Valid() && st.errno == HeaderOverflow
    {
      hide Emit, Inv, Tracked;
      OnlyValue(live);
      assert log + Pending(data, m, live, j) == log + [Data(OnHeaderValue, data[m.headerValue..j])] + [];
      log := log + [Data(OnHeaderValue, data[m.headerValue..j])];
      st := st.(state := AtValue(HeaderAlmostDone), errno := HeaderOverflow);
    }

    // s_header_field: a block of header-name bytes, and the byte after it.
    method FieldBlock(data: Bytes, i: nat, m: Marks, ghost live: Option<Kind>, ghost n: nat)
      returns (j: nat, m': Marks, stop: bool, ghost live': Option<Kind>, ghost n': nat, ghost k: nat)
      requires i < |data| && InCall(data, i, m, live, n) && st.state == AtField(HeaderField) && lost == []
      requires nread == n + 1 <= HTTP_MAX_HEADER_SIZE
      modifies this`st, this`nread, this`log, this`hist, this`lost, this`calls
      ensures calls <= old(calls)
      ensures i <= j <= |data| && i <= k <= |data| && hist == Run(old(hist), data[i..k], hc)
      ensures stop ==> Valid() && (st.errno == HeaderOverflow || Stopped(j - i, old(hist)))
      ensures stop && IsSyntaxError(st.errno) ==> j < |data| && lost == Unreported(base, data, j, hc)
      ensures stop && st.errno == HeaderOverflow ==> j == k || j == |data|
      ensures !stop ==> BetweenBytes(data, j, m', live', n') && i < j == k
    {
      hide Step, Emit, FieldByte, IsToken, Advance, MarksOk, LiveFits, Inv, Run, Tracked, Unreported;
      m', stop, live' := m, false, live;
      j := ScanField(data, i, m, live, n);
      RunPos(old(hist), data[i..j], hc);
      k, n' := j, n + (j - i);
      if j < |data| {
        ExtendRun(old(hist), data, i, j);
      }
      if j < |data| && IsToken(data[j]) {
        BlockError(data, j, m, FieldByte(st, data[j]).errno, live, n');
        k, stop := j + 1, true;
        return;
      }
      nread := nread + (j - i);
      if nread > HTTP_MAX_HEADER_SIZE {
        Overflow(data, j, m, live, n');
        stop := true;
      } else if j < |data| {
        m', stop, live' := OneByte(data, j, m, live, n');
        k := j + 1;
        if st.errno == OK {
          j := j + 1;
        } else {
          stop := true;
        }
        n' := nread;
      }
    }

    // The scan for the end of a general header value: two memchr calls over at most
    // HTTP_MAX_HEADER_SIZE bytes, and everything if they find nothing.
    method FindLineEnd(data: Bytes, j: nat) returns (end: nat, ghost scanned: nat)
      requires j < |data| && IsValueText(data[j])
      ensures j < scanned <= end <= |data|
      ensures forall x :: j <= x < scanned ==> IsValueText(data[x])
      ensures end < |data| ==> scanned == end && !IsValueText(data[end])
      ensures end == |data| ==> scanned == if |data| - j <= HTTP_MAX_HEADER_SIZE then end else j + HTTP_MAX_HEADER_SIZE
    {
      var limit := if |data| - j < HTTP_MAX_HEADER_SIZE then |data| - j else HTTP_MAX_HEADER_SIZE;
      var cr := MemChr(data, j, CR, limit);
      var lf := MemChr(data, j, LF, limit);
      if cr >= 0 {
        if lf >= 0 && cr >= lf { end := lf; } else { end := cr; }
      } else if lf >= 0 {
        end := lf;
      } else {
        end := |data|;
      }
      scanned := if end == |data| then j + limit else end;
    }

    static method MemChr(data: Bytes, from: nat, c: Byte, limit: nat) returns (at: int)
      requires from + limit <= |data|
      ensures at == -1 ==> forall x :: from <= x < from + limit ==> data[x] != c
      ensures at != -1 ==> from <= at < from + limit && data[at] == c && forall x :: from <= x < at ==> data[x] != c
    {
      at := from;
      while at < from + limit
        invariant from <= at <= from + limit
        invariant forall x :: from <= x < at ==> data[x] != c
      {
        if data[at] == c {
          return;
        }
        at := at + 1;
      }
      at := -1;
    }

    // One turn of the s_header_value loop outside the general header state.
    method ValueTurn(data: Bytes, j: nat, m: Marks, ghost live: Option<Kind>, ghost n: nat)
      requires j < |data| && InCall(data, j, m, live, n) && st.state == AtValue(HeaderValue)
      requires IsValueText(data[j]) && !st.hstate.General? && (st.lenient || IsHeaderChar(data[j]))
      requires ValueByte(st, data[j]).errno == OK
      modifies this`st, this`hist
      ensures hist == Advance(old(hist), data[j], hc)
      ensures st.state == AtValue(HeaderValue) && InCall(data, j + 1, m, live, n + 1)
    {
      hide Step, Emit, ValueByte, IsHeaderChar, Advance, MarksOk, LiveFits, Tracked, Unreported;
      ValueAdvance(hist, data[j], hc);
      ValueByteState(st, data[j]);
      ValueByteInv(st, data[j]);
      ValueByteFlags(st, data[j]);
      ValueByteLength(st, data[j]);
      OnlyValue(live);
      PendingGrows(log, data, m, live, j);
      EmitOne(hist.log, Data(OnHeaderValue, [data[j]]));
      TrackByte(base, hist, data, j, m, live, m, live, hc);
      hist := Advance(hist, data[j], hc);
      st := ValueByte(st, data[j]);
    }

    // What the automaton does while memchr passes over the text from j to k.
    ghost method ValueSkip(data: Bytes, j: nat, k: nat, m: Marks, live: Option<Kind>, n: nat)
      requires j < k <= |data| && InCall(data, j, m, live, n) && st.state == AtValue(HeaderValue)
      requires st.hstate.General? && (st.lenient || IsHeaderChar(data[j]))
      requires forall x :: j <= x < k ==> IsValueText(data[x])
      modifies this`hist
      ensures hist == Run(old(hist), data[j..k], hc) && hist.nread == old(hist).nread + (k - j)
      ensures k == |data| || !IsValueText(data[k]) ==> InCall(data, k, m, live, n + (k - j))
      ensures MarksOk(m, live, k) && Emit([], log + Pending(data, m, live, k)) == hist.log
      ensures Running(hist) && SkipsInValue(hist) && hist.peak == old(hist).peak
    {
      hide Step, Emit, IsHeaderChar, Advance, Inv, Run, Push, MarksOk, Tracked, Unreported;
      var text := data[j..k];
      assert forall x :: 0 <= x < |text| ==> text[x] == data[j + x] && IsValueText(text[x]);
      SkipRun(hist, text, hc);
      OnlyValue(live);
      PendingBlock(log, data, m, OnHeaderValue, j, k);
      TrackedAt(base, hist, data, j, m, live, hc);
      ValueStretch(base, hist, data, j, k, hc);
      TrackStretch(base, hist, data, j, k, m, live, m, OnHeaderValue, hc);
      hist := Run(hist, text, hc);
    }

    // A block of bytes from j to k belongs to the live mark.
    static lemma PendingBlock(log: seq<Event>, data: Bytes, m: Marks, kind: Kind, j: nat, k: nat)
      requires j <= k <= |data| && MarksOk(m, Some(kind), j)
      ensures MarksOk(m, Some(kind), k)
      ensures Emit([], log + Pending(data, m, Some(kind), k)) ==
              Push(Emit([], log + Pending(data, m, Some(kind), j)), Data(kind, data[j..k]))
    {
      hide Push, Emit;
      var a, text := data[At(m, kind)..j], data[j..k];
      assert data[At(m, kind)..k] == a + text;
      EmitConcat([], log, [Data(kind, a)]);
      EmitOne(Emit([], log), Data(kind, a));
      EmitConcat([], log, [Data(kind, a + text)]);
      EmitOne(Emit([], log), Data(kind, a + text));
      PushSplit(Emit([], log), kind, a, text);
    }

    // One turn of the s_header_value loop in the general header state: on to the end of the line.
    method SkipLine(data: Bytes, j: nat, m: Marks, ghost live: Option<Kind>, ghost n: nat)
      returns (end: nat, stop: bool, ghost k: nat)
      requires j < |data| && InCall(data, j, m, live, n) && st.state == AtValue(HeaderValue) && lost == []
      requires IsValueText(data[j]) && st.hstate.General? && (st.lenient || IsHeaderChar(data[j]))
      modifies this`st, this`hist, this`lost
      ensures j < end <= |data| && j < k <= |data| && hist == Run(old(hist), data[j..k], hc)
      ensures stop ==> Valid() && st.errno == HeaderOverflow && end == |data|
      ensures !stop ==> && k == end && lost == [] && InCall(data, end, m, live, n + (end - j))
                        && st.state == AtValue(HeaderValue) && (end < |data| ==> !IsValueText(data[end]))
    {
      hide Step, Emit, IsHeaderChar, Advance, MarksOk, LiveFits, Inv, Run, Tracked, Unreported, OpenMark, StartLive;
      stop := false;
      end, k := FindLineEnd(data, j);
      ValueSkip(data, j, k, m, live, n);
      if end == |data| && |data| - j > HTTP_MAX_HEADER_SIZE {
        // Nothing was found in the bytes searched, so the count that follows overflows.
        st := st.(errno := HeaderOverflow);
        lost := Pending(data, m, live, k);
        stop := true;
      }
    }

    // The loop of s_header_value, up to the CR or LF that ends the line.
    method ScanValue(data: Bytes, i: nat, m: Marks, ghost live: Option<Kind>, ghost n: nat)
      returns (j: nat, stop: bool, ghost k: nat)
      requires i < |data| && InCall(data, i, m, live, n) && st.state == AtValue(HeaderValue) && lost == []
      modifies this`st, this`hist, this`lost
      ensures i <= j <= |data| && i <= k <= |data| && hist == Run(old(hist), data[i..k], hc)
      ensures stop ==> Valid() && (st.errno == HeaderOverflow || Stopped(j - i, old(hist)))
      ensures stop && IsSyntaxError(st.errno) ==> j < |data| && lost == Unreported(base, data, j, hc)
      ensures stop && st.errno == HeaderOverflow ==> j == k || j == |data|
      ensures !stop ==> && k == j && lost == [] && InCall(data, j, m, live, n + (j - i))
                        && st.state == AtValue(HeaderValue) && (j < |data| ==> !IsValueText(data[j]))
    {
      hide Step, Emit, IsHeaderChar, ValueByte, Advance, MarksOk, LiveFits, Inv, Run, Tracked, Unreported, OpenMark,
           StartLive, SkipsInValue;
      j, stop, k := i, false, i;
      assert data[i..i] == [];
      RunNothing(hist);
      while j < |data| && IsValueText(data[j])
        invariant i <= j <= |data| && hist == Run(old(hist), data[i..j], hc) && k == j && !stop && lost == []
        invariant st.state == AtValue(HeaderValue) && InCall(data, j, m, live, n + (j - i))
        decreases |data| - j
      {
        ExtendRun(old(hist), data, i, j);
        RunPos(old(hist), data[i..j], hc);
        if !st.lenient && !IsHeaderChar(data[j]) {
          BlockError(data, j, m, InvalidHeaderToken, live, n + (j - i));
          k, stop := j + 1, true;
          return;
        }
        if st.hstate.General? {
          var end;
          end, stop, k := SkipLine(data, j, m, live, n + (j - i));
          assert data[i..k] == data[i..j] + data[j..k];
          RunConcat(old(hist), data[i..j], data[j..k], hc);
          j := end;
          if stop {
            return;
          }
        } else if ValueByte(st, data[j]).errno != OK {
          BlockError(data, j, m, ValueByte(st, data[j]).errno, live, n + (j - i));
          k, stop := j + 1, true;
          return;
        } else {
          ValueTurn(data, j, m, live, n + (j - i));
          j := j + 1;
          k := j;
        }
      }
    }

    // s_header_value: a block of header-value bytes, and the CR or LF after it.
    method ValueBlock(data: Bytes, i: nat, m: Marks, ghost live: Option<Kind>, ghost n: nat)
      returns (j: nat, m': Marks, stop: bool, ghost live': Option<Kind>, ghost n': nat, ghost k: nat)
      requires i < |data| && InCall(data, i, m, live, n) && st.state == AtValue(HeaderValue) && lost == []
      requires nread == n + 1 <= HTTP_MAX_HEADER_SIZE
      modifies this`st, this`nread, this`log, this`hist, this`lost, this`calls
      ensures calls <= old(calls)
      ensures i <= j <= |data| && i <= k <= |data| && hist == Run(old(hist), data[i..k], hc)
      ensures stop ==> Valid() && (st.errno == HeaderOverflow || Stopped(j - i, old(hist)))
      ensures stop && IsSyntaxError(st.errno) ==> j < |data| && lost == Unreported(base, data, j, hc)
      ensures stop && st.errno == HeaderOverflow ==> j == k || j == |data|
      ensures !stop ==> BetweenBytes(data, j, m', live', n') && i < j == k
    {
      hide Step, Emit, Advance, Inv, Run, Tracked, Unreported, MarksOk, LiveFits, OpenMark, SkipsInValue;
      m', live', n' := m, live, n;
      j, stop, k := ScanValue(data, i, m, live, n);
      if stop {
        return;
      }
      RunPos(old(hist), data[i..j], hc);
      n' := n + (j - i);
      nread := nread + (j - i);
      if nread > HTTP_MAX_HEADER_SIZE {
        stop := true;
        if j < |data| && data[j] == CR {
          OverflowBehindValue(data, j, m, live, n');
        } else {
          Overflow(data, j, m, live, n');
        }
      } else if j < |data| {
        ExtendRun(old(hist), data, i, j);
        m', stop, live' := OneByte(data, j, m, live, n');
        k := j + 1;
        if st.errno == OK {
          j := j + 1;
        } else {
          stop := true;
        }
        n' := nread;
      }
    }

    // MARK(body) at i, and the body bytes from i to j.
    static lemma BodyPending(log: seq<Event>, data: Bytes, m: Marks, live: Option<Kind>, i: nat, j: nat)
      requires i <= j <= |data| && MarksOk(m, live, i) && (live == None || live == Some(OnBody))
      ensures var m' := if m.body < 0 then m.(body := i) else m;
              && MarksOk(m', Some(OnBody), j)
              && Emit([], log + Pending(data, m', Some(OnBody), j)) ==
                 Push(Emit([], log + Pending(data, m, live, i)), Data(OnBody, data[i..j]))
    {
      if live == None {
        EmitConcat([], log, [Data(OnBody, data[i..j])]);
        EmitOne(Emit([], log), Data(OnBody, data[i..j]));
        assert log + [] == log;
      } else {
        PendingBlock(log, data, m, OnBody, i, j);
      }
    }

    static lemma BodyCarried(m: Marks, live: Option<Kind>, i: nat)
      requires MarksOk(m, live, i) && (live == None || live == Some(OnBody))
      ensures Carried(m, live, if m.body < 0 then m.(body := i) else m, Some(OnBody), i)
    {
    }

    static lemma OnlyBody(s: State, live: Option<Kind>)
      requires InBody(s) && LiveFits(s, live)
      ensures live == None || live == Some(OnBody)
    {
    }

    // s_chunk_data and s_body_identity_eof, and s_body_identity short of its end: everything in
    // the buffer up to j is body.
    method BodyBlock(data: Bytes, i: nat, m: Marks, ghost live: Option<Kind>, ghost n: nat) returns (j: nat, m': Marks)
      requires i < |data| && InCall(data, i, m, live, n) && InBody(st.state)
      requires st.state == AtBody(BodyIdentity) ==> |data| - i < st.contentLength
      modifies this`st, this`hist
      ensures i < j <= |data|
      ensures hist == Run(old(hist), data[i..j], hc)
      ensures InCall(data, j, m', Some(OnBody), n)
    {
      hide Step, Emit, Advance, Push, MarksOk, StartLive, BodyLeft, LiveFits, Run, Tracked, Unreported;
      OnlyBody(st.state, live);
      m' := if m.body < 0 then m.(body := i) else m;
      j := |data|;
      if st.state != AtBody(BodyIdentityEof) && st.contentLength < |data| - i {
        j := i + st.contentLength;
      }
      BodyPending(log, data, m, live, i, j);
      BodyRun(hist, data[i..j], hc);
      TrackedAt(base, hist, data, i, m, live, hc);
      BodyStretch(base, hist, data, i, j, hc);
      BodyCarried(m, live, i);
      TrackStretch(base, hist, data, i, j, m, live, m', OnBody, hc);
      st := BodyLeft(st, j - i);
      hist := Run(hist, data[i..j], hc);
    }

    static lemma NewMessageInv(p: Parser)
      requires Inv(p)
      ensures var q := p.(contentLength := 0); Inv(q.(state := AtStart(NewMessage(q))))
      ensures p.state == AtBody(BodyIdentity) ==> p.contentLength > 0
    {
      hide KeepAlive;
    }

    // s_body_identity when the buffer holds the rest of the body: the body is reported through
    // its last byte, which s_message_done then sees again.
    method LastBodyBlock(data: Bytes, i: nat, m: Marks, ghost live: Option<Kind>, ghost n: nat)
      returns (j: nat, m': Marks, exit: bool)
      requires i < |data| && InCall(data, i, m, live, n) && lost == []
      requires st.state == AtBody(BodyIdentity) && st.contentLength <= |data| - i
      requires nread == n && nread <= HTTP_MAX_HEADER_SIZE
      modifies this`st, this`log, this`hist
      ensures i < j <= |data| && hist == Run(old(hist), data[i..j], hc)
      ensures st.errno == OK && (exit <==> hist.exited) && hist.pos == old(hist).pos + (j - i)
      ensures exit ==> Valid()
      ensures !exit ==> InCall(data, j, m', None, n)
    {
      hide Step, Emit, Advance, Run, Push, MarksOk, NewMessage, Tracked, Unreported, Inv;
      OnlyBody(st.state, live);
      NewMessageInv(st);
      m' := if m.body < 0 then m.(body := i) else m;
      j := i + st.contentLength;
      BodyPending(log, data, m, live, i, j);
      IdentityComplete(hist, data[i..j], hc);
      BeforeLast(hist, data, i, j);
      FlushedBody(log, data, m', j);
      TrackNone(base, hist, data, i, j, m, live, m'.(body := -1), hc);
      log := log + [Data(OnBody, data[m'.body..j])];
      m' := m'.(body := -1);
      st := st.(contentLength := 0);
      st := st.(state := AtStart(NewMessage(st)));
      log := log + [Notify(MessageComplete)];
      exit := st.upgrade;
      hist := Run(hist, data[i..j], hc);
      assert log + [] == log;
    }

    lemma BeforeLast(c: Config, data: Bytes, i: nat, j: nat)
      requires i < j <= |data| && Running(c) && c.p.state == AtBody(BodyIdentity) && c.p.contentLength == j - i
      ensures EndLive(Run(c, data[i..j - 1], hc).p.state, Run(c, data[i..j], hc).p.state).None?
    {
      hide Run, Advance, Push, NewMessage;
      IdentityComplete(c, data[i..j], hc);
      if i < j - 1 {
        IdentityRun(c, data[i..j - 1], hc);
      } else {
        assert data[i..j - 1] == [];
        RunNothing(c);
      }
    }

    static lemma FlushedBody(log: seq<Event>, data: Bytes, m: Marks, j: nat)
      requires j <= |data| && MarksOk(m, Some(OnBody), j)
      ensures MarksOk(m.(body := -1), None, j)
      ensures Emit([], log + [Data(OnBody, data[m.body..j])] + [Notify(MessageComplete)]) ==
              Push(Emit([], log + Pending(data, m, Some(OnBody), j)), Notify(MessageComplete))
    {
      EmitAfter(log, [Data(OnBody, data[m.body..j])], Notify(MessageComplete));
    }

    // The callbacks for the marks left over at the end of the buffer.
    method FlushAll(data: Bytes, m: Marks, ghost live: Option<Kind>, ghost n: nat)
      requires InCall(data, |data|, m, live, n)
      modifies this`log
      ensures Emit([], log) == hist.log
    {
      hide Emit, Inv;
      var end := |data|;
      // At most one mark is set.
      assert (if m.headerField >= 0 then 1 else 0) + (if m.headerValue >= 0 then 1 else 0) +
             (if m.url >= 0 then 1 else 0) + (if m.body >= 0 then 1 else 0) +
             (if m.status >= 0 then 1 else 0) <= 1;
      ghost var all := log + Pending(data, m, live, end);
      if m.headerField >= 0 { log := log + [Data(OnHeaderField, data[m.headerField..end])]; }
      if m.headerValue >= 0 { log := log + [Data(OnHeaderValue, data[m.headerValue..end])]; }
      if m.url >= 0 { log := log + [Data(OnUrl, data[m.url..end])]; }
      if m.body >= 0 { log := log + [Data(OnBody, data[m.body..end])]; }
      if m.status >= 0 { log := log + [Data(OnStatus, data[m.status..end])]; }
      assert log == all;
    }

    // The marks restored at the start of a buffer.
    static function StartMarks(s: State): (m: Marks)
      ensures MarksOk(m, StartLive(s), 0)
    {
      match StartLive(s)
      case Some(k) => Put(NO_MARKS, k, 0)
      case None => NO_MARKS
    }

    // What the end of the input does in state p.state, and the value returned.
    static function AtEof(p: Parser): (r: (Errno, seq<Event>, nat)) {
      match p.state
      case AtBody(BodyIdentityEof) => (OK, [Notify(MessageComplete)], 0)
      case AtStart(s) => if s == ResOrRespH || s == ReqMethod then (InvalidEofState, [], 1) else (OK, [], 0)
      case _ => (InvalidEofState, [], 1)
    }

    // http_parser_execute with a length of zero: the input has ended.
    method ExecuteEof() returns (n: nat)
      requires Valid() && st.errno == OK
      modifies this`st, this`log, this`hist
      ensures Valid() && nread == old(nread)
      ensures var (e, events, value) := AtEof(old(st));
              st == old(st).(errno := e) && log == old(log) + events && n == value
      ensures hist == old(hist).(log := Emit(old(hist).log, AtEof(old(st)).1))
    {
      hide Inv, Emit;
      n := 0;
      EmitNone(hist.log);
      assert log + [] == log;
      match st.state
      case AtBody(BodyIdentityEof) =>
        EmitConcat([], log, [Notify(MessageComplete)]);
        log := log + [Notify(MessageComplete)];
        assert log + [] == log;
        hist := hist.(log := Emit(hist.log, [Notify(MessageComplete)]));
      case AtStart(s) =>
        if s == ResOrRespH || s == ReqMethod {
          st := st.(errno := InvalidEofState);
          n := 1;
        }
      case _ =>
        st := st.(errno := InvalidEofState);
        n := 1;
    }

    // One turn of the byte loop: count, then the arm of the current state.
    method Turn(data: Bytes, i: nat, m: Marks, ghost live: Option<Kind>, ghost n: nat)
      returns (j: nat, m': Marks, stop: bool, ghost live': Option<Kind>, ghost n': nat, ghost k: nat)
      requires i < |data| && BetweenBytes(data, i, m, live, n)
      modifies this`st, this`nread, this`log, this`hist, this`lost, this`calls
      ensures calls <= old(calls)
      ensures i <= j <= |data| && i <= k <= |data| && hist == Run(old(hist), data[i..k], hc)
      ensures stop ==> Valid() && (st.errno == HeaderOverflow || Stopped(j - i, old(hist)))
      ensures stop && IsSyntaxError(st.errno) ==> j < |data| && lost == Unreported(base, data, j, hc)
      ensures stop && st.errno == HeaderOverflow ==> j == k || j == |data|
      ensures !stop ==> BetweenBytes(data, j, m', live', n') && i < j == k
    {
      hide Step, Emit, Advance, MarksOk, LiveFits, Run, Inv, Tracked, Unreported;
      j, m', stop, live', n', k := i, m, false, live, n, i;
      assert data[i..i] == [];
      RunNothing(hist);
      if ParsingHeader(st.state) {
        nread := nread + 1;
        if nread > HTTP_MAX_HEADER_SIZE {
          Overflow(data, i, m, live, n);
          stop := true;
          return;
        }
      }
      if st.state == AtField(HeaderField) {
        j, m', stop, live', n', k := FieldBlock(data, i, m, live, n);
      } else if st.state == AtValue(HeaderValue) {
        j, m', stop, live', n', k := ValueBlock(data, i, m, live, n);
      } else if st.state == AtBody(BodyIdentity) && st.contentLength <= |data| - i {
        j, m', stop := LastBodyBlock(data, i, m, live, n);
        live', k := None, j;
        RunPos(old(hist), data[i..j], hc);
      } else if InBody(st.state) {
        j, m' := BodyBlock(data, i, m, live, n);
        live', k := Some(OnBody), j;
      } else {
        RunOne(hist, data[i], hc);
        assert data[i..i + 1] == [data[i]];
        m', stop, live' := OneByte(data, i, m, live, n);
        n', k := nread, i + 1;
        if st.errno == OK {
          j := i + 1;
        } else {
          stop := true;
        }
      }
    }

    // The byte loop and the final flush.
    method ByteLoop(data: Bytes) returns (n: nat, ghost k: nat)
      requires Valid() && st.errno == OK && data != []
      requires hist == Resume(hist) == base && nread + 1 <= hist.nread + calls
      modifies this`st, this`nread, this`log, this`hist, this`lost, this`calls
      ensures calls <= old(calls)
      ensures Valid() && n <= |data| && k <= |data| && hist == Run(base, data[..k], hc)
      ensures st.errno != HeaderOverflow ==>
                hist == Run(base, data, hc) && hist.p.errno == st.errno && n == hist.pos - base.pos
      ensures IsSyntaxError(st.errno) ==> n < |data| && lost == Unreported(base, data, n, hc)
      ensures st.errno == HeaderOverflow ==> n == k || n == |data|
    {
      hide Step, Emit, Advance, MarksOk, LiveFits, Run, Inv, Tracked, Unreported, OpenMark, InBody, SkipsInValue;
      var m := StartMarks(st.state);
      ghost var live, c := StartLive(st.state), nread;
      StartCall(data, m);
      RunNothing(hist);
      assert data[..0] == [];
      var i := 0;
      while i < |data|
        invariant i <= |data| && BetweenBytes(data, i, m, live, c) && hist == Run(base, data[..i], hc)
        invariant calls <= old(calls)
        decreases |data| - i
      {
        var j, stop;
        ghost var b;
        RunPos(base, data[..i], hc);
        j, m, stop, live, c, b := Turn(data, i, m, live, c);
        assert data[..b] == data[..i] + data[i..b];
        RunConcat(base, data[..i], data[i..b], hc);
        if stop {
          n, k := j, b;
          assert data == data[..b] + data[b..];
          RunConcat(base, data[..b], data[b..], hc);
          if st.errno != HeaderOverflow {
            RunStopped(hist, data[b..], hc);
          }
          return;
        }
        i := j;
      }
      EndCall(data, m, live, c);
      FlushAll(data, m, live, c);
      n, k := |data|, |data|;
      assert data[..k] == data && log + [] == log;
      RunPos(base, data, hc);
    }

    /** http_parser_execute.  Whatever the buffer holds, the parser ends in the state, with the
        callbacks, and after consuming the number of bytes, of the one-byte automaton; unless the
        header budget is hit, and then at least HTTP_MAX_HEADER_SIZE header bytes, give or take
        one per call, have been consumed since the counter was last reset, in that many calls. */
    method Execute(data: Bytes) returns (n: nat, ghost k: nat)
      requires Valid() && |data| + HTTP_MAX_HEADER_SIZE < 0xffff_ffff
      modifies this`st, this`nread, this`log, this`hist, this`lost, this`calls, this`base
      ensures Valid() && calls <= old(calls) + 1
      ensures hist.peak <= HTTP_MAX_HEADER_SIZE && (st.errno == OK ==> hist.nread <= nread <= hist.nread + calls)
      ensures old(st).errno != OK ==> n == 0 && st == old(st) && log == old(log) && hist == old(hist)
      ensures old(st).errno == OK && data == [] ==>
                var (e, events, value) := AtEof(old(st));
                st == old(st).(errno := e) && log == old(log) + events && n == value
      ensures old(st).errno == OK && data != [] ==>
                k <= |data| && hist == Run(Resume(old(hist)), data[..k], hc)
      ensures old(st).errno == OK && data != [] && st.errno != HeaderOverflow ==>
                && hist == Run(Resume(old(hist)), data, hc) && hist.p.errno == st.errno
                && n == hist.pos - old(hist).pos
      ensures old(st).errno == OK && data != [] ==>
                n <= |data| && (st.errno == HeaderOverflow ==> n == k || n == |data|)
      ensures old(st).errno == OK && data != [] && IsSyntaxError(st.errno) ==>
                n < |data| && lost == Unreported(Resume(old(hist)), data, n, hc)
    {
      hide Step, Emit, Advance, Run, Inv, Unreported;
      calls := calls + 1;
      n, k := 0, 0;
      if st.errno != OK {
        return;
      }
      if data == [] {
        n := ExecuteEof();
        return;
      }
      hist := Resume(hist);
      base := hist;
      n, k := ByteLoop(data);
    }

    lemma StartCall(data: Bytes, m: Marks)
      requires Valid() && st.errno == OK && hist == Resume(hist) && nread + 1 <= hist.nread + calls
      requires m == StartMarks(st.state) && data != [] && base == hist
      ensures BetweenBytes(data, 0, m, StartLive(st.state), nread)
    {
      hide Inv, Emit;
      var live := StartLive(st.state);
      assert log + [] == log;
      assert data[..0] == [];
      RunNothing(hist);
      if live.Some? {
        assert data[0..0] == [];
        EmitConcat([], log, [Data(live.value, [])]);
        OpeningSilent(hist.log, live);
      }
    }

    lemma EndCall(data: Bytes, m: Marks, live: Option<Kind>, n: nat)
      requires BetweenBytes(data, |data|, m, live, n)
      ensures LogEnds(Resume(hist))
    {
      hide Emit, Inv;
      PendingEnds(data, |data|, m, live, n);
    }

    lemma RunNothing(c: Config)
      ensures Run(c, [], hc) == c
    {
      hide Advance;
    }

    static lemma OnlyValue(live: Option<Kind>)
      requires LiveFits(AtValue(HeaderValue), live)
      ensures live == Some(OnHeaderValue)
    {
    }

    lemma ExtendRun(c: Config, data: Bytes, i: nat, j: nat)
      requires i <= j < |data| && Running(Run(c, data[i..j], hc))
      ensures Run(c, data[i..j + 1], hc) == Advance(Run(c, data[i..j], hc), data[j], hc)
    {
      hide Advance;
      assert data[i..j + 1] == data[i..j] + [data[j]];
      RunConcat(c, data[i..j], [data[j]], hc);
      RunOne(Run(c, data[i..j], hc), data[j], hc);
    }

    static lemma OnlyField(live: Option<Kind>)
      requires LiveFits(AtField(HeaderField), live)
      ensures live == Some(OnHeaderField)
    {
    }
  }
}
