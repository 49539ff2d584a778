/**
 Header lines: what a name, a colon, a value and a line end do to the parser.
 */
module HttpValues {
  import opened HttpTypes
  import opened HttpStep
  import opened HttpRun
  import opened HttpInvariant
  import opened HttpBlocks
  import opened HttpReach
  import opened HttpLengths
  import opened HttpHeaders
  import opened HttpOptions

  // Text a header value may consist of, under either setting of lenient_http_headers.
  predicate IsText(s: Bytes) {
    forall i :: 0 <= i < |s| ==> IsValueText(s[i]) && IsHeaderChar(s[i])
  }

  predicate IsBlank(ch: Byte) { ch == ' ' || ch == '\t' }

  // A value without the white space in front of it.
  predicate IsValue(s: Bytes) { IsText(s) && (s != [] ==> !IsBlank(s[0])) }

  lemma ColonRun(c: Config, hc: Callback)
    requires Running(c) && c.p.state == AtField(HeaderField) && EndsWith(c.log, OnHeaderField)
    ensures Reaches(c, ": ", hc, c.p.(state := AtValue(HeaderValueDiscardWs)), c.log)
  {
    hide Run, StepEvents;
    ReachFlush(c, ':', hc, OnHeaderField);
    var d := Run(c, ":", hc);
    ReachQuiet(d, ' ', hc);
    Then(c, ":", " ", hc, d.p, c.log);
    assert ":" + " " == ": ";
  }

  lemma LineEnds(c: Config, hc: Callback)
    requires Running(c) && c.p.state == AtValue(HeaderValue) && EndsWith(c.log, OnHeaderValue)
    ensures Reaches(c, "\r\n", hc, c.p.(state := AtValue(HeaderValueLws)), c.log)
  {
    hide Run, StepEvents, EndField;
    ReachFlush(c, CR, hc, OnHeaderValue);
    var d := Run(c, "\r", hc);
    ReachQuiet(d, LF, hc);
    Then(c, "\r", "\n", hc, c.p.(state := AtValue(HeaderValueLws)), c.log);
    assert "\r" + "\n" == "\r\n";
  }

  lemma EmptyLineEnds(c: Config, hc: Callback)
    requires Running(c) && c.p.state == AtValue(HeaderValueDiscardWs)
    ensures Reaches(c, "\r\n", hc, c.p.(state := AtValue(HeaderValueDiscardLws)), c.log)
  {
    hide Run, StepEvents, EndField;
    ReachQuiet(c, CR, hc);
    var d := Run(c, "\r", hc);
    ReachQuiet(d, LF, hc);
    Then(c, "\r", "\n", hc, c.p.(state := AtValue(HeaderValueDiscardLws)), c.log);
    assert "\r" + "\n" == "\r\n";
  }

  // ---------------------------------------------------------------- values of no interest

  predicate IsPlain(h: HeaderState) {
    !h.ContentLength? && !h.TransferEncoding? && !h.Connection? && !h.MatchingConnectionTokenStart?
  }

  function PlainFlags(f: Flags, h: HeaderState): Flags {
    if h.Upgrade? then f.(upgrade := true) else f
  }

  lemma ValueStarts(c: Config, ch: Byte, hc: Callback)
    requires Running(c) && c.p.state == AtValue(HeaderValueDiscardWs)
    requires IsValueText(ch) && !IsBlank(ch) && StartValue(c.p, ch).p.errno == OK
    ensures Reaches(c, [ch], hc, StartValue(c.p, ch).p, Push(c.log, Data(OnHeaderValue, [ch])))
  {
    hide Run, StepEvents, EndField, StartValue;
    assert Step(c.p, ch, hc, c.skip) == StartValue(c.p, ch);
    ReachMark(c, ch, hc, OnHeaderValue);
  }

  lemma PlainStarts(p: Parser, ch: Byte)
    requires IsPlain(p.hstate)
    ensures StartValue(p, ch).p ==
            p.(state := AtValue(HeaderValue), index := 0, hstate := General, flags := PlainFlags(p.flags, p.hstate))
  {
    hide Lower;
  }

  lemma PlainValue(c: Config, s: Bytes, hc: Callback)
    requires Running(c) && c.p.state == AtValue(HeaderValueDiscardWs) && IsPlain(c.p.hstate)
    requires s != [] && IsValue(s)
    ensures Reaches(c, s, hc, c.p.(state := AtValue(HeaderValue), index := 0, hstate := General,
                                   flags := PlainFlags(c.p.flags, c.p.hstate)),
                    Push(c.log, Data(OnHeaderValue, s)))
  {
    hide Run, StartValue, IsHeaderChar, Push, PlainFlags, IsPlain;
    PlainStarts(c.p, s[0]);
    ValueStarts(c, s[0], hc);
    var d := Run(c, [s[0]], hc);
    assert s == [s[0]] + s[1..];
    if |s| > 1 {
      SkipRun(d, s[1..], hc);
      PushSplit(c.log, OnHeaderValue, [s[0]], s[1..]);
      Then(c, [s[0]], s[1..], hc, d.p, Push(c.log, Data(OnHeaderValue, s)));
    } else {
      assert s == [s[0]];
    }
  }

  // ---------------------------------------------------------------- Transfer-Encoding

  // "chunked" in any case, with spaces behind it.
  predicate IsChunked(s: Bytes) { IsWord(s, CHUNKED) }

  predicate CodingRead(p: Parser, s: Bytes) {
    if IsChunked(s) then p.hstate == TransferEncodingChunked
    else if LowerAll(s) < CHUNKED then p.hstate == MatchingTransferEncodingChunked && p.index == |s| - 1
    else p.hstate == General
  }

  lemma CodingByte(p: Parser, s: Bytes, ch: Byte)
    requires CodingRead(p, s) && s != []
    ensures var q := ValueByte(p, ch);
            CodingRead(q, s + [ch]) && q == p.(index := q.index, hstate := q.hstate)
  {
    hide CHUNKED, Lower, LowerAll, IsWord;
    MatchNext(LowerAll(s), Lower(ch), CHUNKED);
    WordGrows(s, ch, CHUNKED);
    LowerGrows(s, ch);
    WordNotCut(s, CHUNKED);
  }

  lemma CodingFirst(p: Parser, ch: Byte)
    requires p.hstate == TransferEncoding
    ensures var q := StartValue(p, ch).p;
            && CodingRead(q, [ch])
            && q == p.(state := AtValue(HeaderValue), index := 0, hstate := q.hstate)
  {
    assert [ch][..0] == [];
    assert LowerAll([ch]) == [Lower(ch)];
    assert CHUNKED[..1] == "c";
    if [Lower(ch)] < CHUNKED {
      assert [Lower(ch)][0] == CHUNKED[0];
    }
  }

  // A transfer coding: the header state at its end says whether it is "chunked".
  lemma {:induction false} CodingRun(c: Config, s: Bytes, hc: Callback) returns (q: Parser)
    requires Running(c) && c.p.state == AtValue(HeaderValueDiscardWs) && c.p.hstate == TransferEncoding
    requires s != [] && IsValue(s)
    ensures CodingRead(q, s) && q == c.p.(state := AtValue(HeaderValue), index := q.index, hstate := q.hstate)
    ensures Reaches(c, s, hc, q, Push(c.log, Data(OnHeaderValue, s)))
    decreases |s|
  {
    hide Run, StartValue, CodingRead, ValueByte, Push;
    var t, ch := s[..|s| - 1], s[|s| - 1];
    assert s == t + [ch];
    if t == [] {
      assert s == [ch];
      CodingFirst(c.p, ch);
      ValueStarts(c, ch, hc);
      q := StartValue(c.p, ch).p;
    } else {
      q := CodingRun(c, t, hc);
      CodingByte(q, t, ch);
      var d := Run(c, t, hc);
      ValueContinues(d, ch, hc);
      q := ValueByte(q, ch);
      PushSplit(c.log, OnHeaderValue, t, [ch]);
      Then(c, t, [ch], hc, q, Push(c.log, Data(OnHeaderValue, s)));
    }
  }

  // A list of connection options: at its end the parser has the flags of the options it heard.
  lemma {:induction false} OptionsRun(c: Config, s: Bytes, hc: Callback) returns (q: Parser)
    requires Running(c) && c.p.state == AtValue(HeaderValueDiscardWs) && c.p.hstate == Connection
    requires s != [] && IsValue(s)
    ensures Scanned(q, ScanAll(c.p.flags, s))
    ensures q == c.p.(state := AtValue(HeaderValue), index := q.index, hstate := q.hstate, flags := q.flags)
    ensures Reaches(c, s, hc, q, Push(c.log, Data(OnHeaderValue, s)))
    decreases |s|
  {
    hide Run, StartValue, ValueByte, Push, Scanned, ScanNext;
    var t, ch := s[..|s| - 1], s[|s| - 1];
    assert s == t + [ch];
    if t == [] {
      assert s == [ch];
      ScanStarts(c.p, ch);
      ValueStarts(c, ch, hc);
      q := StartValue(c.p, ch).p;
    } else {
      q := OptionsRun(c, t, hc);
      ScanByte(q, ScanAll(c.p.flags, t), ch);
      var d := Run(c, t, hc);
      ValueContinues(d, ch, hc);
      q := ValueByte(q, ch);
      PushSplit(c.log, OnHeaderValue, t, [ch]);
      Then(c, t, [ch], hc, q, Push(c.log, Data(OnHeaderValue, s)));
    }
  }

  lemma ValueContinues(c: Config, ch: Byte, hc: Callback)
    requires Running(c) && c.p.state == AtValue(HeaderValue) && IsValueText(ch) && IsHeaderChar(ch)
    requires ValueByte(c.p, ch).errno == OK
    ensures Reaches(c, [ch], hc, ValueByte(c.p, ch), Push(c.log, Data(OnHeaderValue, [ch])))
  {
    hide Run, StepEvents, ValueByte;
    assert Step(c.p, ch, hc, c.skip) == Stay(ValueByte(c.p, ch));
    ReachData(c, ch, hc, OnHeaderValue);
  }

  // ---------------------------------------------------------------- lines

  datatype Header = Header(name: Bytes, value: Bytes)

  function PrintHeader(h: Header): Bytes { h.name + ": " + h.value + "\r\n" }

  // What the parser makes of a header by its name.
  function KindOf(h: Header): HeaderState { NameState(Lowered(h.name)) }

  // A header the parser accepts: its value is text, and a length if the name is Content-Length.
  predicate IsHeader(h: Header) {
    && h.name != [] && IsTokens(h.name) && IsValue(h.value)
    && (KindOf(h) == ContentLength && h.value != [] ==> IsLength(h.value))
  }

  // The flags after a header of kind k with a non-empty value.
  function ValueFlags(f: Flags, k: HeaderState, value: Bytes): Flags {
    match k
    case Upgrade => f.(upgrade := true)
    case TransferEncoding => if IsChunked(value) then f.(chunked := true) else f
    case Connection => Heard(ScanAll(f, value))
    case _ => f
  }

  // The flags after a header.
  function FlagsAfter(f: Flags, h: Header): Flags {
    var g := NameFlags(f, Lowered(h.name));
    if h.value == [] then g else ValueFlags(g, KindOf(h), h.value)
  }

  function LengthAfter(n: nat, h: Header): nat
    requires IsHeader(h)
  {
    if KindOf(h) == ContentLength && h.value != [] then Decimal(h.value) else n
  }

  // The parser after a header, up to the fields it uses for matching.
  predicate Applied(p: Parser, h: Header, q: Parser)
    requires IsHeader(h)
  {
    q == p.(index := q.index, hstate := q.hstate, flags := FlagsAfter(p.flags, h),
            contentLength := LengthAfter(p.contentLength, h))
  }

  function Reported(h: Header): seq<Event> {
    [Data(OnHeaderField, h.name), Data(OnHeaderValue, h.value)]
  }

  lemma EmitPair(log: seq<Event>, h: Header)
    ensures Emit(log, Reported(h)) == Push(Push(log, Data(OnHeaderField, h.name)), Data(OnHeaderValue, h.value))
  {
    EmitConcat(log, [Data(OnHeaderField, h.name)], [Data(OnHeaderValue, h.value)]);
    EmitOne(log, Data(OnHeaderField, h.name));
    EmitOne(Push(log, Data(OnHeaderField, h.name)), Data(OnHeaderValue, h.value));
    assert Reported(h) == [Data(OnHeaderField, h.name)] + [Data(OnHeaderValue, h.value)];
  }

  lemma NameStateKinds(u: Bytes)
    ensures !NameState(u).MatchingConnectionTokenStart?
    ensures NameState(u).ContentLength? ==> u == CONTENT_LENGTH
    ensures !NameState(u).TransferEncodingChunked? && !NameState(u).ConnectionKeepAlive?
    ensures !NameState(u).ConnectionClose? && !NameState(u).ConnectionUpgrade?
  {
  }

  // A non-empty value and its line end.
  lemma ValueLine(c: Config, h: Header, hc: Callback) returns (q: Parser)
    requires Running(c) && c.p.state == AtValue(HeaderValueDiscardWs) && c.p.hstate == KindOf(h)
    requires IsHeader(h) && h.value != []
    ensures q.state == AtValue(HeaderValue)
    ensures SetHeaderFlag(q).(state := c.p.state) ==
            c.p.(index := q.index, hstate := q.hstate,
                 flags := ValueFlags(c.p.flags, KindOf(h), h.value),
                 contentLength := LengthAfter(c.p.contentLength, h))
    ensures Reaches(c, h.value, hc, q, Push(c.log, Data(OnHeaderValue, h.value)))
  {
    hide Run, NameState, Push, IsChunked, IsLength, Decimal, Heard, Scanned;
    NameStateKinds(Lowered(h.name));
    if KindOf(h) == ContentLength {
      ContentLengthRead(c, h.value, hc);
      assert IsLength(h.value) ==> IsDecimal(h.value) by { LengthIsDecimal(h.value); }
      q := WithLength(c, h.value);
    } else if KindOf(h) == TransferEncoding {
      q := CodingRun(c, h.value, hc);
    } else if KindOf(h) == Connection {
      q := OptionsRun(c, h.value, hc);
      ScanEnds(q, ScanAll(c.p.flags, h.value));
    } else {
      PlainValue(c, h.value, hc);
      q := c.p.(state := AtValue(HeaderValue), index := 0, hstate := General,
                flags := PlainFlags(c.p.flags, c.p.hstate));
    }
  }

  lemma LengthIsDecimal(s: Bytes)
    requires IsLength(s)
    ensures IsDecimal(s)
  {
  }

  lemma PushEnds(log: seq<Event>, k: Kind, b: Bytes)
    ensures EndsWith(Push(log, Data(k, b)), k)
  {
  }

  // A name, a colon and a space.
  lemma NamePart(c: Config, h: Header, hc: Callback) returns (q: Parser)
    requires Running(c) && c.p.state == AtField(HeaderFieldStart) && IsHeader(h) && Admits(c.p.flags, h)
    ensures q == c.p.(state := AtValue(HeaderValueDiscardWs), index := q.index, hstate := KindOf(h),
                      flags := NameFlags(c.p.flags, Lowered(h.name)))
    ensures Reaches(c, h.name + ": ", hc, q, Push(c.log, Data(OnHeaderField, h.name)))
  {
    hide Run, NameState, Push, NameFlags, CONTENT_LENGTH;
    q := NameRun(c, h.name, hc);
    var d := Run(c, h.name, hc);
    PushEnds(c.log, OnHeaderField, h.name);
    ColonRun(d, hc);
    q := q.(state := AtValue(HeaderValueDiscardWs));
    Then(c, h.name, ": ", hc, q, d.log);
  }

  // The flags do not yet rule the header out.
  predicate Admits(f: Flags, h: Header) { f.contentLength ==> !(CONTENT_LENGTH <= Lowered(h.name)) }

  // The rest of a line, up to the byte that shows it is finished.
  lemma ValuePart(c: Config, h: Header, hc: Callback) returns (e: Config)
    requires Running(c) && c.p.state == AtValue(HeaderValueDiscardWs) && c.p.hstate == KindOf(h) && IsHeader(h)
    ensures var d := Run(c, h.value + "\r\n", hc); Running(d) && AfterLine(d.p.state) && e == Settle(d)
    ensures e.log == Push(c.log, Data(OnHeaderValue, h.value))
    ensures e.p == c.p.(state := AtField(HeaderFieldStart), index := e.p.index, hstate := e.p.hstate,
                 flags := if h.value == [] then c.p.flags else ValueFlags(c.p.flags, KindOf(h), h.value),
                 contentLength := LengthAfter(c.p.contentLength, h))
  {
    hide Run, KindOf, Push, IsLength, Decimal, ValueFlags, SetHeaderFlag;
    e := Settle(Run(c, h.value + "\r\n", hc));
    if h.value == [] {
      assert h.value + "\r\n" == "\r\n";
      EmptyLineEnds(c, hc);
      KindFlagsNothing(c.p, h);
    } else {
      var q := ValueLine(c, h, hc);
      var d := Run(c, h.value, hc);
      PushEnds(c.log, OnHeaderValue, h.value);
      LineEnds(d, hc);
      Then(c, h.value, "\r\n", hc, q.(state := AtValue(HeaderValueLws)), d.log);
      FlagIgnoresState(q, AtValue(HeaderValueLws));
    }
  }

  // No header state of a name sets a flag by itself.
  lemma KindFlagsNothing(p: Parser, h: Header)
    requires p.hstate == KindOf(h)
    ensures forall s :: SetHeaderFlag(p.(state := s)) == p.(state := s)
  {
    hide NameState, Lowered;
    NameStateKinds(Lowered(h.name));
  }

  lemma FlagIgnoresState(p: Parser, s: State)
    ensures SetHeaderFlag(p.(state := s)) == SetHeaderFlag(p).(state := s)
  {
  }

  // One header line: its name and value are reported and its effect is on the flags and the length.
  lemma HeaderLine(c: Config, h: Header, rest: Bytes, hc: Callback) returns (e: Config)
    requires Running(c) && c.p.state == AtField(HeaderFieldStart) && IsHeader(h) && Admits(c.p.flags, h)
    requires rest != [] && !IsBlank(rest[0])
    ensures Running(e) && Applied(c.p, h, e.p) && e.log == Emit(c.log, Reported(h))
    ensures Run(c, PrintHeader(h) + rest, hc) == Run(e, rest, hc)
  {
    hide Run, NameState, Push, IsChunked, IsLength, Decimal, CONTENT_LENGTH, Emit;
    var q := NamePart(c, h, hc);
    var a, b := h.name + ": ", h.value + "\r\n";
    var d := Run(c, a, hc);
    e := ValuePart(d, h, hc);
    EmitPair(c.log, h);
    RunConcat(c, a, b, hc);
    assert a + b == PrintHeader(h);
    RunConcat(c, a + b, rest, hc);
    SettleRun(Run(c, a + b, hc), rest, hc);
  }

  // ---------------------------------------------------------------- header blocks

  function PrintHeaders(hs: seq<Header>): Bytes
    decreases |hs|
  {
    if hs == [] then [] else PrintHeader(hs[0]) + PrintHeaders(hs[1..])
  }

  function AllReported(hs: seq<Header>): seq<Event>
    decreases |hs|
  {
    if hs == [] then [] else Reported(hs[0]) + AllReported(hs[1..])
  }

  function AllFlags(f: Flags, hs: seq<Header>): Flags
    decreases |hs|
  {
    if hs == [] then f else AllFlags(FlagsAfter(f, hs[0]), hs[1..])
  }

  // Headers that may stand together: a name beginning with content-length occurs at most once.
  predicate AreHeaders(f: Flags, hs: seq<Header>)
    decreases |hs|
  {
    hs == [] || (IsHeader(hs[0]) && Admits(f, hs[0]) && AreHeaders(FlagsAfter(f, hs[0]), hs[1..]))
  }

  function AllLength(f: Flags, n: nat, hs: seq<Header>): nat
    requires AreHeaders(f, hs)
    decreases |hs|
  {
    if hs == [] then n else AllLength(FlagsAfter(f, hs[0]), LengthAfter(n, hs[0]), hs[1..])
  }

  lemma {:induction false} HeaderBlock(c: Config, hs: seq<Header>, rest: Bytes, hc: Callback) returns (e: Config)
    requires Running(c) && c.p.state == AtField(HeaderFieldStart) && AreHeaders(c.p.flags, hs)
    requires rest != [] && !IsBlank(rest[0])
    ensures Running(e) && e.log == Emit(c.log, AllReported(hs))
    ensures e.p == c.p.(index := e.p.index, hstate := e.p.hstate, flags := AllFlags(c.p.flags, hs),
                        contentLength := AllLength(c.p.flags, c.p.contentLength, hs))
    ensures Run(c, PrintHeaders(hs) + rest, hc) == Run(e, rest, hc)
    decreases |hs|
  {
    hide Run, IsHeader, FlagsAfter, LengthAfter, Admits, Reported, PrintHeader;
    if hs == [] {
      e := c;
      EmitNone(c.log);
      assert PrintHeaders(hs) + rest == rest;
    } else {
      var tail := PrintHeaders(hs[1..]) + rest;
      assert PrintHeaders(hs) + rest == PrintHeader(hs[0]) + tail;
      StartsPlain(hs[1..], rest, FlagsAfter(c.p.flags, hs[0]));
      e := HeaderLine(c, hs[0], tail, hc);
      EmitConcat(c.log, Reported(hs[0]), AllReported(hs[1..]));
      e := HeaderBlock(e, hs[1..], rest, hc);
    }
  }

  lemma StartsPlain(hs: seq<Header>, rest: Bytes, f: Flags)
    requires AreHeaders(f, hs) && rest != [] && !IsBlank(rest[0])
    ensures var s := PrintHeaders(hs) + rest; s != [] && !IsBlank(s[0])
  {
    hide NameState, IsToken;
    if hs != [] {
      var ch := hs[0].name[0];
      assert (PrintHeaders(hs) + rest)[0] == ch;
      assert IsToken(ch);
      TokenNoBlank(ch);
    } else {
      assert PrintHeaders(hs) + rest == rest;
    }
  }

  lemma TokenNoBlank(ch: Byte)
    requires IsToken(ch)
    ensures !IsBlank(ch)
  {
  }

  // Headers leave F_TRAILING and F_SKIPBODY alone.
  predicate Kept(f: Flags, g: Flags) { g.trailing == f.trailing && g.skipBody == f.skipBody }

  lemma {:induction false} FlagsKept(f: Flags, hs: seq<Header>)
    ensures Kept(f, AllFlags(f, hs))
    decreases |hs|
  {
    hide FlagsAfter;
    if hs != [] {
      HeaderKeeps(f, hs[0]);
      FlagsKept(FlagsAfter(f, hs[0]), hs[1..]);
    }
  }

  lemma HeaderKeeps(f: Flags, h: Header)
    ensures Kept(f, FlagsAfter(f, h))
  {
    hide NameFlags, ValueFlags, KindOf, Lowered;
    NameKeeps(f, Lowered(h.name));
    ValueKeeps(NameFlags(f, Lowered(h.name)), KindOf(h), h.value);
  }

  lemma NameKeeps(f: Flags, u: Bytes)
    ensures Kept(f, NameFlags(f, u))
  {
  }

  lemma ValueKeeps(f: Flags, k: HeaderState, value: Bytes)
    ensures Kept(f, ValueFlags(f, k, value))
  {
    hide Heard, ScanAll, IsChunked;
    OptionsKeep(f, value);
  }

  lemma {:induction false} OptionsKeep(f: Flags, s: Bytes)
    ensures Kept(f, ScanAll(f, s).flags) && Kept(f, Heard(ScanAll(f, s)))
    decreases |s|
  {
    hide IsWord, ModeAfter, Strip, Grant;
    var t := ScanAll(f, s);
    GrantKeeps(t.flags, Element(t));
    if s != [] {
      OptionsKeep(f, s[..|s| - 1]);
    }
  }

  lemma GrantKeeps(f: Flags, y: Bytes)
    ensures Kept(f, Grant(f, y))
  {
    hide IsWord;
  }
}
