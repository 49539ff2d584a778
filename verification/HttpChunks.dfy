/**
 Chunked bodies: the coding of section 4.1 of RFC 7230, and its round trip through the parser.
 */
module HttpChunks {
  import opened HttpTypes
  import opened HttpStep
  import opened HttpRun
  import opened HttpBlocks
  import opened HttpReach
  import opened HttpLengths
  import opened HttpValues

  // A chunk: its size as it is spelled, its extensions, and its data.
  datatype Chunk = Chunk(size: Bytes, ext: Bytes, data: Bytes)

  // size spells n.
  predicate Spells(size: Bytes, n: nat) {
    && IsSize(size) && HexValue(size) == n
    && forall i :: 0 <= i < |size| ==> size[i] != CR && size[i] != ' ' && size[i] != ';'
  }

  predicate IsExtension(ext: Bytes) {
    ext == [] || ((ext[0] == ';' || ext[0] == ' ') && CR !in ext)
  }

  predicate IsChunk(k: Chunk) {
    k.data != [] && Spells(k.size, |k.data|) && IsExtension(k.ext)
  }

  function PrintSize(size: Bytes, ext: Bytes): Bytes { size + ext + "\r\n" }

  function PrintChunk(k: Chunk): Bytes { PrintSize(k.size, k.ext) + k.data + "\r\n" }

  function Announced(k: Chunk): seq<Event> {
    [Notify(ChunkHeader(|k.data|)), Data(OnBody, k.data), Notify(ChunkComplete)]
  }

  // ---------------------------------------------------------------- the line in front of the data

  lemma {:induction false} ParametersRun(c: Config, s: Bytes, hc: Callback)
    requires Running(c) && c.p.state == AtChunkSize(ChunkParameters) && CR !in s
    ensures Reaches(c, s, hc, c.p, c.log)
    decreases |s|
  {
    hide Run, StepEvents;
    if s == [] {
      ReachNothing(c, hc);
    } else {
      ReachQuiet(c, s[0], hc);
      var d := Run(c, [s[0]], hc);
      ParametersRun(d, s[1..], hc);
      assert s == [s[0]] + s[1..];
      Then(c, [s[0]], s[1..], hc, c.p, c.log);
    }
  }

  // The extensions and the CR behind a size.
  lemma ExtensionRun(c: Config, ext: Bytes, hc: Callback)
    requires Running(c) && c.p.state == AtChunkSize(ChunkSize) && IsExtension(ext)
    ensures Reaches(c, ext + "\r", hc, c.p.(state := AtChunkSize(ChunkSizeAlmostDone)), c.log)
  {
    hide Run, StepEvents, Accumulate;
    var q := c.p.(state := AtChunkSize(ChunkSizeAlmostDone));
    if ext == [] {
      assert ext + "\r" == "\r";
      ReachQuiet(c, CR, hc);
    } else {
      ReachQuiet(c, ext[0], hc);
      var d := Run(c, [ext[0]], hc);
      ParametersRun(d, ext[1..], hc);
      var e := Run(d, ext[1..], hc);
      ReachQuiet(e, CR, hc);
      Then(d, ext[1..], "\r", hc, q, c.log);
      Then(c, [ext[0]], ext[1..] + "\r", hc, q, c.log);
      assert [ext[0]] + (ext[1..] + "\r") == ext + "\r";
    }
  }

  // A whole size line, up to the LF.
  lemma SizeRun(c: Config, size: Bytes, ext: Bytes, n: nat, hc: Callback)
    requires Running(c) && c.p.state == AtChunkSize(ChunkSizeStart) && Spells(size, n) && IsExtension(ext)
    ensures Reaches(c, size + (ext + "\r"), hc,
                    c.p.(state := AtChunkSize(ChunkSizeAlmostDone), contentLength := n), c.log)
  {
    hide Run, HexValue;
    ChunkSizeRead(c, size, hc);
    var d := Run(c, size, hc);
    ExtensionRun(d, ext, hc);
    Then(c, size, ext + "\r", hc, c.p.(state := AtChunkSize(ChunkSizeAlmostDone), contentLength := n), c.log);
  }

  // The parser after the line that announces a chunk of n bytes.
  function Announcing(p: Parser, n: nat): Parser {
    if n == 0 then p.(contentLength := 0, state := AtField(HeaderFieldStart), flags := p.flags.(trailing := true))
    else p.(contentLength := n, state := AtChunkData(ChunkData))
  }

  lemma SizeLine(c: Config, size: Bytes, ext: Bytes, n: nat, hc: Callback)
    requires Running(c) && c.p.state == AtChunkSize(ChunkSizeStart) && Spells(size, n) && IsExtension(ext)
    ensures Reaches(c, PrintSize(size, ext), hc, Announcing(c.p, n), c.log + [Notify(ChunkHeader(n))])
  {
    hide Run, StepEvents, Spells;
    SizeRun(c, size, ext, n, hc);
    var a := size + (ext + "\r");
    var d := Run(c, a, hc);
    ReachCall(d, LF, hc, ChunkHeader(n));
    Then(c, a, "\n", hc, Announcing(c.p, n), c.log + [Notify(ChunkHeader(n))]);
    assert "\r" + "\n" == "\r\n";
    assert a + "\n" == PrintSize(size, ext);
  }

  // ---------------------------------------------------------------- chunks

  lemma DataEnds(c: Config, hc: Callback)
    requires Running(c) && c.p.state == AtChunkData(ChunkDataAlmostDone)
    ensures Reaches(c, "\r\n", hc, c.p.(state := AtChunkSize(ChunkSizeStart)), c.log + [Notify(ChunkComplete)])
  {
    hide Run, StepEvents;
    ReachNoFlush(c, CR, hc, OnBody);
    var d := Run(c, "\r", hc);
    ReachCall(d, LF, hc, ChunkComplete);
    Then(c, "\r", "\n", hc, c.p.(state := AtChunkSize(ChunkSizeStart)), c.log + [Notify(ChunkComplete)]);
    assert "\r" + "\n" == "\r\n";
  }

  // One chunk: its length is announced, its data delivered, and its end reported.
  lemma ChunkRun(c: Config, k: Chunk, hc: Callback)
    requires Running(c) && c.p.state == AtChunkSize(ChunkSizeStart) && IsChunk(k)
    ensures Reaches(c, PrintChunk(k), hc, c.p.(contentLength := 0), c.log + Announced(k))
  {
    hide Run, PrintSize, Spells;
    var n := |k.data|;
    SizeLine(c, k.size, k.ext, n, hc);
    var line := PrintSize(k.size, k.ext);
    var d := Run(c, line, hc);
    ChunkDataRun(d, k.data, hc);
    var e := Run(d, k.data, hc);
    DataEnds(e, hc);
    var log := c.log + Announced(k);
    assert e.log + [Notify(ChunkComplete)] == log;
    Then(d, k.data, "\r\n", hc, c.p.(contentLength := 0), log);
    Then(c, line, k.data + "\r\n", hc, c.p.(contentLength := 0), log);
    assert line + (k.data + "\r\n") == PrintChunk(k);
  }

  function PrintChunks(ks: seq<Chunk>): Bytes
    decreases |ks|
  {
    if ks == [] then [] else PrintChunk(ks[0]) + PrintChunks(ks[1..])
  }

  function AllAnnounced(ks: seq<Chunk>): seq<Event>
    decreases |ks|
  {
    if ks == [] then [] else Announced(ks[0]) + AllAnnounced(ks[1..])
  }

  predicate AreChunks(ks: seq<Chunk>) { forall i :: 0 <= i < |ks| ==> IsChunk(ks[i]) }

  lemma {:induction false} ChunksRun(c: Config, ks: seq<Chunk>, hc: Callback) returns (q: Parser)
    requires Running(c) && c.p.state == AtChunkSize(ChunkSizeStart) && AreChunks(ks)
    ensures q == c.p.(contentLength := q.contentLength)
    ensures Reaches(c, PrintChunks(ks), hc, q, c.log + AllAnnounced(ks))
    decreases |ks|
  {
    hide Run, IsChunk, PrintChunk, Announced;
    if ks == [] {
      ReachNothing(c, hc);
      q := c.p;
      assert c.log + [] == c.log;
    } else {
      ChunkRun(c, ks[0], hc);
      var d := Run(c, PrintChunk(ks[0]), hc);
      q := ChunksRun(d, ks[1..], hc);
      assert c.log + AllAnnounced(ks) == d.log + AllAnnounced(ks[1..]);
      Then(c, PrintChunk(ks[0]), PrintChunks(ks[1..]), hc, q, c.log + AllAnnounced(ks));
    }
  }

  // ---------------------------------------------------------------- the whole body

  // A chunked body: its chunks, the spelling and extensions of the last, empty one, and trailers.
  datatype Coding = Coding(chunks: seq<Chunk>, last: Bytes, ext: Bytes, trailers: seq<Header>)

  function Trailing(f: Flags): Flags { f.(trailing := true) }

  predicate IsCoding(f: Flags, b: Coding) {
    AreChunks(b.chunks) && Spells(b.last, 0) && IsExtension(b.ext) && AreHeaders(Trailing(f), b.trailers)
  }

  function PrintCoding(b: Coding): Bytes {
    PrintChunks(b.chunks) + (PrintSize(b.last, b.ext) + (PrintHeaders(b.trailers) + "\r\n"))
  }

  // Everything that is reported before the last byte.
  function Told(b: Coding): seq<Event> {
    AllAnnounced(b.chunks) + [Notify(ChunkHeader(0))] + AllReported(b.trailers)
  }

  function CodingEvents(b: Coding): seq<Event> {
    Told(b) + [Notify(ChunkComplete), Notify(MessageComplete)]
  }

  // The line end behind the trailers.
  lemma TrailersEnd(c: Config, hc: Callback)
    requires Running(c) && c.p.state == AtField(HeaderFieldStart) && c.p.flags.trailing
    ensures Reaches(c, "\r", hc, c.p.(state := AtField(HeadersAlmostDone)), c.log)
    ensures var d := Run(c, "\r\n", hc);
            && d.p == c.p.(state := AtStart(NewMessage(c.p))) && d.exited == c.p.upgrade
            && d.log == c.log + [Notify(ChunkComplete), Notify(MessageComplete)]
  {
    hide Run, StepEvents, NewMessage;
    ReachQuiet(c, CR, hc);
    var d := Run(c, "\r", hc);
    NewMessageState(c.p, AtField(HeadersAlmostDone));
    TwoCalls(d, LF, hc, ChunkComplete, MessageComplete);
    RunConcat(c, "\r", "\n", hc);
    assert "\r" + "\n" == "\r\n";
  }

  // The trailers, when `rest` is what follows them.
  lemma CodingRun(c: Config, b: Coding, rest: Bytes, hc: Callback) returns (e: Config)
    requires Running(c) && c.p.state == AtChunkSize(ChunkSizeStart) && IsCoding(c.p.flags, b)
    requires rest != [] && !IsBlank(rest[0])
    ensures Running(e) && e.log == Emit(c.log, Told(b))
    ensures e.p == c.p.(state := AtField(HeaderFieldStart), index := e.p.index, hstate := e.p.hstate,
                        flags := AllFlags(Trailing(c.p.flags), b.trailers), contentLength := e.p.contentLength)
    ensures Run(c, PrintChunks(b.chunks) + (PrintSize(b.last, b.ext) + (PrintHeaders(b.trailers) + rest)), hc) ==
            Run(e, rest, hc)
  {
    hide Run, AreHeaders, Spells, PrintSize, IsChunk, AllFlags;
    var s1, s2, s3 := PrintChunks(b.chunks), PrintSize(b.last, b.ext), PrintHeaders(b.trailers) + rest;
    var q := ChunksRun(c, b.chunks, hc);
    var d := Run(c, s1, hc);
    SizeLine(d, b.last, b.ext, 0, hc);
    var d' := Run(d, s2, hc);
    assert d'.p.flags == Trailing(c.p.flags);
    e := HeaderBlock(d', b.trailers, rest, hc);
    RunConcat(c, s1, s2 + s3, hc);
    RunConcat(d, s2, s3, hc);
    var told := AllAnnounced(b.chunks) + [Notify(ChunkHeader(0))];
    assert d'.log == c.log + told;
    EmitAnnounced(c.log, b.chunks);
    EmitConcat(c.log, told, AllReported(b.trailers));
  }

  // Notifications keep the data between them apart.
  lemma {:induction false} EmitAnnounced(log: seq<Event>, ks: seq<Chunk>)
    requires AreChunks(ks)
    ensures Emit(log, AllAnnounced(ks) + [Notify(ChunkHeader(0))]) ==
            log + (AllAnnounced(ks) + [Notify(ChunkHeader(0))])
    decreases |ks|
  {
    hide IsChunk, Announced, Emit;
    var last := [Notify(ChunkHeader(0))];
    if ks == [] {
      assert AllAnnounced(ks) + last == last;
      EmitOne(log, last[0]);
    } else {
      var a, rest := Announced(ks[0]), AllAnnounced(ks[1..]) + last;
      assert AllAnnounced(ks) + last == a + rest;
      EmitConcat(log, a, rest);
      EmitOneChunk(log, ks[0]);
      EmitAnnounced(log + a, ks[1..]);
      assert log + a + rest == log + (a + rest);
    }
  }

  lemma EmitOneChunk(log: seq<Event>, k: Chunk)
    ensures Emit(log, Announced(k)) == log + Announced(k)
  {
    var x, y, z := Notify(ChunkHeader(|k.data|)), Data(OnBody, k.data), Notify(ChunkComplete);
    assert Announced(k) == [x] + ([y] + [z]);
    EmitConcat(log, [x], [y] + [z]);
    EmitOne(log, x);
    EmitConcat(log + [x], [y], [z]);
    EmitOne(log + [x], y);
    EmitOne(log + [x] + [y], z);
    assert log + [x] + [y] + [z] == log + Announced(k);
  }

  // The round trip: the coding of any chunks and trailers, fed to a parser that expects a chunk,
  // announces every chunk's true length and delivers its data and the trailers, and completes the
  // message on the last byte, and not before.
  lemma ChunkedRoundTrip(c: Config, b: Coding, hc: Callback) returns (d: Config)
    requires Running(c) && c.p.state == AtChunkSize(ChunkSizeStart) && IsCoding(c.p.flags, b)
    ensures d == Run(c, PrintCoding(b), hc) && d.log == Emit(c.log, CodingEvents(b))
    ensures d.p == c.p.(state := AtStart(NewMessage(d.p)), index := d.p.index, hstate := d.p.hstate,
                        flags := AllFlags(Trailing(c.p.flags), b.trailers), contentLength := d.p.contentLength)
    ensures d.exited == c.p.upgrade && d.pos == c.pos + |PrintCoding(b)|
    ensures var e := Run(c, PrintCoding(b)[..|PrintCoding(b)| - 1], hc); Running(e) && e.log == Emit(c.log, Told(b))
  {
    hide Run, AreHeaders, Spells, PrintSize, IsChunk, AllFlags, NewMessage, AllReported;
    var e := CodingRun(c, b, "\r\n", hc);
    d := Run(e, "\r\n", hc);
    FlagsKept(Trailing(c.p.flags), b.trailers);
    TrailersEnd(e, hc);
    NewMessageState(e.p, d.p.state);
    EmitEnd(c.log, Told(b));
    BeforeLast(c, b, hc);
    Consumed(c, PrintCoding(b), hc);
  }

  lemma BeforeLast(c: Config, b: Coding, hc: Callback)
    requires Running(c) && c.p.state == AtChunkSize(ChunkSizeStart) && IsCoding(c.p.flags, b)
    ensures var e := Run(c, PrintCoding(b)[..|PrintCoding(b)| - 1], hc); Running(e) && e.log == Emit(c.log, Told(b))
  {
    hide Run, AreHeaders, Spells, PrintSize, IsChunk, AllFlags, AllReported;
    var e := CodingRun(c, b, "\r", hc);
    FlagsKept(Trailing(c.p.flags), b.trailers);
    TrailersEnd(e, hc);
    var s1, s2, s3 := PrintChunks(b.chunks), PrintSize(b.last, b.ext), PrintHeaders(b.trailers);
    assert PrintCoding(b)[..|PrintCoding(b)| - 1] == s1 + (s2 + (s3 + "\r"));
  }

  lemma EmitEnd(log: seq<Event>, es: seq<Event>)
    ensures Emit(log, es + [Notify(ChunkComplete), Notify(MessageComplete)]) ==
            Emit(log, es) + [Notify(ChunkComplete), Notify(MessageComplete)]
  {
    var x, y := Notify(ChunkComplete), Notify(MessageComplete);
    EmitConcat(log, es, [x, y]);
    EmitConcat(Emit(log, es), [x], [y]);
    assert [x, y] == [x] + [y];
    EmitOne(Emit(log, es), x);
    EmitOne(Emit(log, es) + [x], y);
    assert Emit(log, es) + [x] + [y] == Emit(log, es) + [x, y];
  }

  // ---------------------------------------------------------------- what is delivered

  function BodyPart(e: Event): Bytes { if e.Data? && e.kind == OnBody then e.bytes else [] }

  // The body bytes a log delivers.
  function Delivered(log: seq<Event>): Bytes
    decreases |log|
  {
    if log == [] then [] else Delivered(log[..|log| - 1]) + BodyPart(log[|log| - 1])
  }

  lemma DeliveredNext(log: seq<Event>, e: Event)
    ensures Delivered(log + [e]) == Delivered(log) + BodyPart(e)
  {
    assert (log + [e])[..|log|] == log;
  }

  lemma DeliveredPush(log: seq<Event>, e: Event)
    ensures Delivered(Push(log, e)) == Delivered(log) + BodyPart(e)
  {
    if e.Data? && |log| > 0 && log[|log| - 1].Data? && log[|log| - 1].kind == e.kind {
      var init, l := log[..|log| - 1], log[|log| - 1];
      DeliveredNext(init, Data(e.kind, l.bytes + e.bytes));
      assert Delivered(init) + BodyPart(Data(e.kind, l.bytes + e.bytes)) == Delivered(log) + BodyPart(e);
    } else {
      DeliveredNext(log, e);
    }
  }

  lemma {:induction false} DeliveredEmit(log: seq<Event>, es: seq<Event>)
    ensures Delivered(Emit(log, es)) == Delivered(log) + Delivered(es)
    decreases |es|
  {
    hide Push, BodyPart, Emit;
    if es == [] {
      EmitNone(log);
      assert Delivered(log) + [] == Delivered(log);
    } else {
      var init, l := es[..|es| - 1], es[|es| - 1];
      assert es == init + [l];
      EmitConcat(log, init, [l]);
      EmitOne(Emit(log, init), l);
      DeliveredPush(Emit(log, init), l);
      DeliveredEmit(log, init);
      assert Delivered(log) + Delivered(init) + BodyPart(l) == Delivered(log) + Delivered(es);
    }
  }

  lemma {:induction false} DeliveredConcat(a: seq<Event>, b: seq<Event>)
    ensures Delivered(a + b) == Delivered(a) + Delivered(b)
    decreases |b|
  {
    hide BodyPart;
    if b == [] {
      assert a + b == a;
    } else {
      assert (a + b)[..|a + b| - 1] == a + b[..|b| - 1];
      DeliveredConcat(a, b[..|b| - 1]);
      assert Delivered(a) + Delivered(b[..|b| - 1]) + BodyPart(b[|b| - 1]) == Delivered(a) + Delivered(b);
    }
  }

  lemma DeliveredOne(e: Event)
    ensures Delivered([e]) == BodyPart(e)
  {
    assert [e][..0] == [];
  }

  function AllData(ks: seq<Chunk>): Bytes
    decreases |ks|
  {
    if ks == [] then [] else ks[0].data + AllData(ks[1..])
  }

  lemma AnnouncedDelivers(k: Chunk)
    ensures Delivered(Announced(k)) == k.data
  {
    var x, y, z := Notify(ChunkHeader(|k.data|)), Data(OnBody, k.data), Notify(ChunkComplete);
    assert Announced(k) == [x] + [y] + [z];
    DeliveredNext([x] + [y], z);
    DeliveredNext([x], y);
    DeliveredOne(x);
  }

  lemma {:induction false} ChunksDeliver(ks: seq<Chunk>)
    ensures Delivered(AllAnnounced(ks)) == AllData(ks)
    decreases |ks|
  {
    hide Announced;
    if ks != [] {
      DeliveredConcat(Announced(ks[0]), AllAnnounced(ks[1..]));
      AnnouncedDelivers(ks[0]);
      ChunksDeliver(ks[1..]);
    }
  }

  lemma ReportedDelivers(h: Header)
    ensures Delivered(Reported(h)) == []
  {
    var x, y := Data(OnHeaderField, h.name), Data(OnHeaderValue, h.value);
    assert Reported(h) == [x] + [y];
    DeliveredNext([x], y);
    DeliveredOne(x);
  }

  lemma {:induction false} HeadersDeliverNothing(hs: seq<Header>)
    ensures Delivered(AllReported(hs)) == []
    decreases |hs|
  {
    hide Reported;
    if hs != [] {
      DeliveredConcat(Reported(hs[0]), AllReported(hs[1..]));
      ReportedDelivers(hs[0]);
      HeadersDeliverNothing(hs[1..]);
    }
  }

  // The body bytes are exactly the chunks' data, in order.
  lemma CodingDelivers(log: seq<Event>, b: Coding)
    ensures Delivered(Emit(log, CodingEvents(b))) == Delivered(log) + AllData(b.chunks)
  {
    hide Emit, AllReported, AllAnnounced, Delivered, AllData;
    var x, y, z := Notify(ChunkHeader(0)), Notify(ChunkComplete), Notify(MessageComplete);
    DeliveredEmit(log, CodingEvents(b));
    assert CodingEvents(b) == Told(b) + [y] + [z];
    DeliveredNext(Told(b) + [y], z);
    DeliveredNext(Told(b), y);
    DeliveredConcat(AllAnnounced(b.chunks) + [x], AllReported(b.trailers));
    DeliveredNext(AllAnnounced(b.chunks), x);
    ChunksDeliver(b.chunks);
    HeadersDeliverNothing(b.trailers);
  }

  // ---------------------------------------------------------------- spelling sizes

  function HexDigit(n: nat): Byte
    requires n < 16
  {
    "0123456789abcdef"[n]
  }

  function Hex(n: nat): Bytes
    decreases n
  {
    if n < 16 then [HexDigit(n)] else Hex(n / 16) + [HexDigit(n % 16)]
  }

  lemma DigitRead(n: nat)
    requires n < 16
    ensures var d := HexDigit(n); Unhex(d) == n && d != CR && d != ' ' && d != ';'
  {
  }

  // Every size up to the limit has a spelling, so every data has a coding.
  lemma {:induction false} HexSpells(n: nat)
    requires n <= MAX_HEX
    ensures Spells(Hex(n), n)
    decreases n
  {
    hide HexDigit, Unhex;
    DigitRead(n % 16);
    if n < 16 {
      OneHex(HexDigit(n));
    } else {
      HexSpells(n / 16);
      var h := Hex(n);
      assert h[..|h| - 1] == Hex(n / 16);
    }
  }

  // Codings exist: one chunk and no trailers.
  lemma SomeCoding(f: Flags)
    ensures IsCoding(f, Coding([Chunk("3", [], "abc")], "0", [], []))
  {
    OneHex('3');
    OneHex('0');
  }
}
