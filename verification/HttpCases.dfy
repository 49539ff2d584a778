/**
 Concrete inputs, byte by byte from a fresh parser: messages it frames against section 3.3.3 of
 RFC 7230, and cuts that show.
 */
module HttpCases {
  import opened Basics
  import opened HttpTypes
  import opened HttpStep
  import opened HttpRun
  import opened HttpReach
  import opened HttpCuts
  import opened HttpLengths
  import opened HttpHeaders
  import opened HttpOptions
  import opened HttpLists
  import opened HttpValues
  import opened HttpMethods
  import opened HttpLost
  import opened HttpRequests
  import opened HttpResponses
  import opened HttpFramingRules
  import opened UrlStates

  // ---------------------------------------------------------------- headers

  const LENGTH_FIVE := Header("Content-Length", "5")
  const GZIP := Header("Transfer-Encoding", "gzip")
  const GZIP_CHUNKED := Header("Transfer-Encoding", "gzip, chunked")

  lemma LengthName()
    ensures SameWord("Content-Length", CONTENT_LENGTH) && IsTokens("Content-Length")
  {
  }

  lemma CodingName()
    ensures SameWord("Transfer-Encoding", TRANSFER_ENCODING)
  {
  }

  lemma CodingTokens()
    ensures IsTokens("Transfer-Encoding")
  {
  }

  lemma NotBoth(w: Bytes)
    requires SameWord(w, TRANSFER_ENCODING)
    ensures !SameWord(w, CONTENT_LENGTH)
  {
  }

  lemma LengthNamed()
    ensures IsNamed(LENGTH_FIVE, CONTENT_LENGTH) && IsTokens(LENGTH_FIVE.name) && Stem(LENGTH_FIVE)
    ensures !IsNamed(LENGTH_FIVE, TRANSFER_ENCODING)
  {
    hide SameWord, Lowered, IsTokens, TRANSFER_ENCODING, CONTENT_LENGTH;
    LengthName();
    KindNamed(LENGTH_FIVE);
    if SameWord(LENGTH_FIVE.name, TRANSFER_ENCODING) {
      NotBoth(LENGTH_FIVE.name);
    }
  }

  lemma CodingNamed(h: Header)
    requires h.name == "Transfer-Encoding"
    ensures IsNamed(h, TRANSFER_ENCODING) && !IsNamed(h, CONTENT_LENGTH) && IsTokens(h.name) && !Stem(h)
  {
    hide SameWord, Lowered, IsTokens, TRANSFER_ENCODING, CONTENT_LENGTH;
    CodingName();
    CodingTokens();
    NotBoth(h.name);
    NameSame(h.name, TRANSFER_ENCODING);
    NotStem();
  }

  lemma NotStem()
    ensures !(CONTENT_LENGTH <= TRANSFER_ENCODING)
  {
    assert CONTENT_LENGTH[0] != TRANSFER_ENCODING[0];
  }

  lemma Five()
    ensures IsLength("5") && DeclaredBy(["5"]) == Length(5) && Split("5") == ["5"] && IsValue("5")
  {
    SplitOne("5");
    assert "5"[..0] == "";
    assert Trim("5") == "5";
  }

  lemma CodingTexts()
    ensures IsValue("gzip") && IsValue("gzip, chunked")
  {
  }

  lemma CodingNames()
    ensures !IsChunked("gzip") && !IsChunked("gzip, chunked")
    ensures Split("gzip") == ["gzip"] && Split("gzip, chunked") == ["gzip", " chunked"]
  {
    hide Split, IsChunked;
    SplitOne("gzip");
    SplitMore("gzip", " chunked");
    assert "gzip" + "," + " chunked" == "gzip, chunked";
    NotChunked("gzip");
    NotChunked("gzip, chunked");
  }

  lemma NotChunked(v: Bytes)
    requires v != [] && v[0] == 'g'
    ensures !IsChunked(v)
  {
    hide LowerAll;
    if IsWord(v, CHUNKED) {
      var u := v[..|CHUNKED|];
      LowerAllAt(u, 0);
    }
  }

  lemma LastCodings()
    ensures !EndsChunked(["gzip"]) && EndsChunked(["gzip", " chunked"])
  {
    assert TrimLeft("gzip") == "gzip" && TrimRight("gzip") == "gzip";
    assert " chunked"[1..] == "chunked" && TrimLeft("chunked") == "chunked" && TrimRight("chunked") == "chunked";
    assert TrimLeft(" chunked") == "chunked";
  }

  // What the rules and the parser make of the three header lists.
  lemma OneLength()
    ensures var hs := [LENGTH_FIVE];
            && AreLines(hs) && !Refuses(hs) && SaysLength(hs) && !SaysChunked(hs)
            && Elements(hs, TRANSFER_ENCODING) == [] && Elements(hs, CONTENT_LENGTH) == ["5"]
  {
    hide IsNamed, Stem, CONTENT_LENGTH, TRANSFER_ENCODING, IsLength, Split, IsTokens, IsValue, IsChunked;
    LengthNamed();
    Five();
    assert [LENGTH_FIVE][1..] == [];
    NoHeaders();
    assert ["5"] + [] == ["5"];
  }

  lemma NoHeaders()
    ensures Stems([]) == 0 && !SaysLength([]) && !SaysChunked([]) && LengthsFit([])
    ensures Elements([], CONTENT_LENGTH) == [] && Elements([], TRANSFER_ENCODING) == []
  {
  }

  lemma CodingAndLength()
    ensures var hs := [GZIP, LENGTH_FIVE];
            && AreLines(hs) && !Refuses(hs) && SaysLength(hs) && !SaysChunked(hs)
            && Elements(hs, TRANSFER_ENCODING) == ["gzip"] && Elements(hs, CONTENT_LENGTH) == ["5"]
  {
    hide IsNamed, Stem, CONTENT_LENGTH, TRANSFER_ENCODING, IsLength, Split, IsTokens, IsValue, IsChunked;
    CodingNamed(GZIP);
    CodingNames();
    CodingTexts();
    OneLength();
    assert [GZIP, LENGTH_FIVE][1..] == [LENGTH_FIVE];
    assert ["gzip"] + [] == ["gzip"] && [] + ["5"] == ["5"];
  }

  lemma TwoCodings()
    ensures var hs := [GZIP_CHUNKED];
            && AreLines(hs) && !Refuses(hs) && !SaysLength(hs) && !SaysChunked(hs)
            && Elements(hs, TRANSFER_ENCODING) == ["gzip", " chunked"] && Elements(hs, CONTENT_LENGTH) == []
  {
    hide IsNamed, Stem, CONTENT_LENGTH, TRANSFER_ENCODING, IsLength, Split, IsTokens, IsValue, IsChunked;
    CodingNamed(GZIP_CHUNKED);
    CodingNames();
    CodingTexts();
    assert [GZIP_CHUNKED][1..] == [];
    NoHeaders();
    assert ["gzip", " chunked"] + [] == ["gzip", " chunked"];
  }

  // ---------------------------------------------------------------- the cases

  lemma LengthPrinted()
    ensures PrintHeaders([LENGTH_FIVE]) == "Content-Length: 5\r\n"
  {
    assert [LENGTH_FIVE][1..] == [];
    assert "Content-Length" + ": " + "5" + "\r\n" + [] == "Content-Length: 5\r\n";
  }

  const NO_CONTENT := Reply('1', '1', '2', '0', '4', [], [LENGTH_FIVE], Open([]))

  lemma StatusPrinted()
    ensures StatusLine(NO_CONTENT) == "HTTP/1.1 204 \r\n"
  {
    assert ['1', '.', '1', ' '] == "1.1 " && ['2', '0', '4'] == "204" && " " + ([] + "\r\n") == " \r\n";
    assert "HTTP/" + ("1.1 " + ("204" + " \r\n")) == "HTTP/1.1 204 \r\n";
  }

  // The parser goes by the length.
  lemma LengthUsed(c: Config, hs: seq<Header>, hc: Callback)
    requires Running(c) && c.p.state == AtField(HeaderFieldStart) && c.p == Cleared(c.p) && AreLines(hs)
    requires c.p.meth != CONNECT && forall p :: hc(p) == Proceed
    requires !Refuses(hs) && SaysLength(hs) && !SaysChunked(hs) && Elements(hs, CONTENT_LENGTH) == ["5"]
    ensures var q := Run(c, PrintHeaders(hs) + "\r\n", hc).p;
            Chosen(q) == ByLength(5) && !Told(q) && q.typ == c.p.typ && q.status == c.p.status
  {
    hide Run, PrintHeaders, Refuses, SaysLength, SaysChunked, Elements, Told, DeclaredBy, LengthsZero;
    Five();
    var n := RunOutcome(c, hs, hc);
  }

  lemma NoContentLine(lenient: bool, hc: Callback)
    ensures var d := Run(Start(Response, lenient), "HTTP/1.1 204 \r\n", hc);
            && Running(d) && d.p.state == AtField(HeaderFieldStart) && d.p == Cleared(d.p)
            && d.p.typ == Response && d.p.meth == DELETE && d.p.status == 204
  {
    hide Run, StatusLine;
    StatusLineRun(Start(Response, lenient), NO_CONTENT, hc);
    StatusPrinted();
  }

  // A response that cannot have a body is given one.
  lemma NoContentWithContent(lenient: bool, hc: Callback)
    requires forall p :: hc(p) == Proceed
    ensures var q := Run(Start(Response, lenient), "HTTP/1.1 204 \r\n" + "Content-Length: 5\r\n\r\n", hc).p;
            Chosen(q) == ByLength(5) && q.status == 204 && !Permits(q, Told(q), [LENGTH_FIVE], Chosen(q))
  {
    hide Run, PrintHeaders, Refuses, SaysLength, SaysChunked, Elements, Told, DeclaredBy, Chosen;
    hide LENGTH_FIVE, CONTENT_LENGTH, TRANSFER_ENCODING, AreLines, Start;
    var c, line, tail := Start(Response, lenient), "HTTP/1.1 204 \r\n", "Content-Length: 5\r\n\r\n";
    NoContentLine(lenient, hc);
    RunConcat(c, line, tail, hc);
    OneLength();
    LengthUsed(Run(c, line, hc), [LENGTH_FIVE], hc);
    LengthPrinted();
    assert PrintHeaders([LENGTH_FIVE]) + "\r\n" == tail;
  }

  const POST_LINE: Bytes := "POST / HTTP/1.1\r\n"

  lemma PostLine(lenient: bool, hc: Callback)
    ensures var d := Run(Start(Request, lenient), POST_LINE, hc);
            && Running(d) && d.p.state == AtField(HeaderFieldStart) && d.p == Cleared(d.p)
            && d.p.typ == Request && d.p.meth == POST
  {
    hide Run;
    var m := Message(POST, "/", '1', '1', [], Plain([]));
    assert IsRequestLine(m) by {
      hide NextUrlState;
      RootUrl();
    }
    LineRun(Start(Request, lenient), m, hc);
    PostPrinted(m);
  }

  lemma PostPrinted(m: Message)
    requires m == Message(POST, "/", '1', '1', [], Plain([]))
    ensures RequestLine(m) == POST_LINE
  {
    assert ['1', '.', '1', CR, LF] == "1.1\r\n";
    assert "HTTP/" + "1.1\r\n" == "HTTP/1.1\r\n";
    assert "POST " + ("/ " + "HTTP/1.1\r\n") == POST_LINE;
  }

  lemma CodingLengthPrinted()
    ensures PrintHeaders([GZIP, LENGTH_FIVE]) == "Transfer-Encoding: gzip\r\nContent-Length: 5\r\n"
  {
    LengthPrinted();
    assert [GZIP, LENGTH_FIVE][1..] == [LENGTH_FIVE];
    assert "Transfer-Encoding" + ": " + "gzip" + "\r\n" == "Transfer-Encoding: gzip\r\n";
  }

  // A request that must be refused, because its last coding is not "chunked", is read by its length.
  lemma CodingWithLength(lenient: bool, hc: Callback)
    requires forall p :: hc(p) == Proceed
    ensures var s := POST_LINE + "Transfer-Encoding: gzip\r\nContent-Length: 5\r\n\r\n";
            var q := Run(Start(Request, lenient), s, hc).p;
            Chosen(q) == ByLength(5) && !Permits(q, Told(q), [GZIP, LENGTH_FIVE], Chosen(q))
  {
    hide Run, PrintHeaders, Refuses, SaysLength, SaysChunked, Elements, Told, DeclaredBy, Chosen, EndsChunked;
    hide LENGTH_FIVE, GZIP, CONTENT_LENGTH, TRANSFER_ENCODING, AreLines, POST_LINE;
    var c, hs := Start(Request, lenient), [GZIP, LENGTH_FIVE];
    var tail := PrintHeaders(hs) + "\r\n";
    PostLine(lenient, hc);
    var d := Run(c, POST_LINE, hc);
    RunConcat(c, POST_LINE, tail, hc);
    CodingAndLength();
    LengthUsed(d, hs, hc);
    LastCodings();
    CodingLengthPrinted();
    assert POST_LINE + tail == POST_LINE + "Transfer-Encoding: gzip\r\nContent-Length: 5\r\n\r\n";
  }

  lemma CodingsPrinted()
    ensures PrintHeaders([GZIP_CHUNKED]) == "Transfer-Encoding: gzip, chunked\r\n"
  {
    assert [GZIP_CHUNKED][1..] == [];
    assert "Transfer-Encoding" + ": " + "gzip, chunked" + "\r\n" + [] == "Transfer-Encoding: gzip, chunked\r\n";
  }

  lemma NothingUsed(c: Config, hs: seq<Header>, hc: Callback)
    requires Running(c) && c.p.state == AtField(HeaderFieldStart) && c.p == Cleared(c.p) && AreLines(hs)
    requires c.p.typ == Request && forall p :: hc(p) == Proceed
    requires !Refuses(hs) && !SaysLength(hs) && !SaysChunked(hs)
    ensures var q := Run(c, PrintHeaders(hs) + "\r\n", hc).p; Chosen(q) == NoBody && !Told(q) && q.typ == Request
  {
    hide Run, PrintHeaders, Refuses, SaysLength, SaysChunked, Elements, Told, Reads;
    var n := RunOutcome(c, hs, hc);
  }

  // A chunked request is taken to have no body, because "chunked" is not the only coding of its line.
  lemma ChunksUnseen(lenient: bool, hc: Callback)
    requires forall p :: hc(p) == Proceed
    ensures var s := POST_LINE + "Transfer-Encoding: gzip, chunked\r\n\r\n";
            var q := Run(Start(Request, lenient), s, hc).p;
            Chosen(q) == NoBody && !Permits(q, Told(q), [GZIP_CHUNKED], Chosen(q))
  {
    hide Run, PrintHeaders, Refuses, SaysLength, SaysChunked, Elements, Told, DeclaredBy, Chosen, EndsChunked;
    hide GZIP_CHUNKED, CONTENT_LENGTH, TRANSFER_ENCODING, AreLines, POST_LINE;
    var c, hs := Start(Request, lenient), [GZIP_CHUNKED];
    var tail := PrintHeaders(hs) + "\r\n";
    PostLine(lenient, hc);
    var d := Run(c, POST_LINE, hc);
    RunConcat(c, POST_LINE, tail, hc);
    TwoCodings();
    NothingUsed(d, hs, hc);
    LastCodings();
    CodingsPrinted();
    assert POST_LINE + tail == POST_LINE + "Transfer-Encoding: gzip, chunked\r\n\r\n";
  }

  // ---------------------------------------------------------------- longer names

  const LENGTH_A := Header("Content-Length-A", "x")
  const LENGTH_B := Header("Content-Length-B", "x")
  const CHUNKED_ONLY := Header("Transfer-Encoding", "chunked")

  lemma LongerName(w: Bytes)
    requires w == "Content-Length-A" || w == "Content-Length-B"
    ensures IsTokens(w) && CONTENT_LENGTH <= Lowered(w)
  {
    hide Lowered;
    forall i | 0 <= i < |CONTENT_LENGTH| ensures Lowered(w)[i] == CONTENT_LENGTH[i] {
      LoweredAt(w, i);
    }
  }

  lemma LongerNamed(h: Header)
    requires h.name == "Content-Length-A" || h.name == "Content-Length-B"
    ensures IsTokens(h.name) && Stem(h) && !IsNamed(h, CONTENT_LENGTH) && !IsNamed(h, TRANSFER_ENCODING)
  {
    hide Lowered, IsToken;
    LongerName(h.name);
    assert |CONTENT_LENGTH| == 14 && |TRANSFER_ENCODING| == 17;
  }

  lemma PlainX()
    ensures IsValue("x")
  {
  }

  lemma ChunkedWord()
    ensures IsChunked("chunked")
  {
    hide LowerAll;
    var w := "chunked";
    assert CHUNKED == w && w[..7] == w && w[7..] == [];
    forall i | 0 <= i < 7 ensures LowerAll(w)[i] == w[i] {
      LowerAllAt(w, i);
    }
    assert LowerAll(w) == w;
  }

  lemma ChunkedText()
    ensures IsValue("chunked") && Split("chunked") == ["chunked"]
  {
    hide Split;
    SplitOne("chunked");
  }

  lemma ChunkedLast()
    ensures EndsChunked(["chunked"])
  {
    assert TrimLeft("chunked") == "chunked" && TrimRight("chunked") == "chunked";
  }

  // The lists are refused although no header is a Content-Length.
  lemma TwoLonger()
    ensures var hs := [LENGTH_A, LENGTH_B];
            && AreLines(hs) && Refuses(hs)
            && Elements(hs, TRANSFER_ENCODING) == [] && Elements(hs, CONTENT_LENGTH) == []
  {
    hide IsNamed, Stem, CONTENT_LENGTH, TRANSFER_ENCODING, Split, IsTokens, IsValue;
    LongerNamed(LENGTH_A);
    LongerNamed(LENGTH_B);
    PlainX();
    assert [LENGTH_A, LENGTH_B][1..] == [LENGTH_B] && [LENGTH_B][1..] == [];
    NoHeaders();
    assert Stems([LENGTH_B]) == 1;
  }

  lemma LongerAndChunked()
    ensures var hs := [LENGTH_A, CHUNKED_ONLY];
            && AreLines(hs) && Refuses(hs)
            && Elements(hs, TRANSFER_ENCODING) == ["chunked"] && Elements(hs, CONTENT_LENGTH) == []
  {
    hide IsNamed, Stem, CONTENT_LENGTH, TRANSFER_ENCODING, Split, IsTokens, IsValue, IsChunked, EndsChunked;
    LongerNamed(LENGTH_A);
    CodingNamed(CHUNKED_ONLY);
    PlainX();
    ChunkedWord();
    ChunkedText();
    assert [LENGTH_A, CHUNKED_ONLY][1..] == [CHUNKED_ONLY] && [CHUNKED_ONLY][1..] == [];
    NoHeaders();
    assert Stems([CHUNKED_ONLY]) == 0 && SaysChunked([CHUNKED_ONLY]);
    assert [] + (["chunked"] + []) == ["chunked"];
  }

  lemma LongerPrinted()
    ensures PrintHeaders([LENGTH_A, LENGTH_B]) == "Content-Length-A: x\r\n" + "Content-Length-B: x\r\n"
    ensures PrintHeaders([LENGTH_A, CHUNKED_ONLY]) == "Content-Length-A: x\r\n" + "Transfer-Encoding: chunked\r\n"
  {
    hide PrintHeaders;
    PrintTwo(LENGTH_A, LENGTH_B);
    PrintTwo(LENGTH_A, CHUNKED_ONLY);
    assert "Content-Length-A" + ": " + "x" + "\r\n" == "Content-Length-A: x\r\n";
    assert "Content-Length-B" + ": " + "x" + "\r\n" == "Content-Length-B: x\r\n";
    assert "Transfer-Encoding" + ": " + "chunked" + "\r\n" == "Transfer-Encoding: chunked\r\n";
  }

  lemma PrintTwo(g: Header, h: Header)
    ensures PrintHeaders([g, h]) == PrintHeader(g) + PrintHeader(h)
  {
    hide PrintHeader;
    assert [g, h][1..] == [h] && [h][1..] == [];
    assert PrintHeaders([h]) == PrintHeader(h) + PrintHeaders([]) == PrintHeader(h);
  }

  lemma Refused(c: Config, hs: seq<Header>, hc: Callback)
    requires Running(c) && c.p.state == AtField(HeaderFieldStart) && c.p == Cleared(c.p) && AreLines(hs) && Refuses(hs)
    ensures var q := Run(c, PrintHeaders(hs) + "\r\n", hc).p; Chosen(q) == Rejected && !Told(q)
  {
    hide Run, PrintHeaders, Refuses, Reads;
    var n := RunOutcome(c, hs, hc);
  }

  // Two headers that only begin with the name Content-Length: the request has no body, and is refused.
  lemma LongerNamesRefused(lenient: bool, hc: Callback)
    ensures var tail := "Content-Length-A: x\r\n" + "Content-Length-B: x\r\n" + "\r\n";
            var p := Run(Start(Request, lenient), POST_LINE, hc).p;
            var q := Run(Start(Request, lenient), POST_LINE + tail, hc).p;
            Chosen(q) == Rejected && !Permits(p, Told(q), [LENGTH_A, LENGTH_B], Chosen(q))
  {
    hide Run, PrintHeaders, Refuses, Elements, Told, Chosen, LENGTH_A, LENGTH_B, CONTENT_LENGTH, TRANSFER_ENCODING;
    hide AreLines, POST_LINE;
    var c, hs := Start(Request, lenient), [LENGTH_A, LENGTH_B];
    PostLine(lenient, hc);
    RunConcat(c, POST_LINE, PrintHeaders(hs) + "\r\n", hc);
    TwoLonger();
    Refused(Run(c, POST_LINE, hc), hs, hc);
    LongerPrinted();
  }

  // One of them beside a chunked coding: the request is chunked, and is refused.
  lemma LongerNameConflicts(lenient: bool, hc: Callback)
    ensures var tail := "Content-Length-A: x\r\n" + "Transfer-Encoding: chunked\r\n" + "\r\n";
            var p := Run(Start(Request, lenient), POST_LINE, hc).p;
            var q := Run(Start(Request, lenient), POST_LINE + tail, hc).p;
            Chosen(q) == Rejected && !Permits(p, Told(q), [LENGTH_A, CHUNKED_ONLY], Chosen(q))
  {
    hide Run, PrintHeaders, Refuses, Elements, Told, Chosen, LENGTH_A, CHUNKED_ONLY, CONTENT_LENGTH, TRANSFER_ENCODING;
    hide AreLines, POST_LINE, EndsChunked;
    var c, hs := Start(Request, lenient), [LENGTH_A, CHUNKED_ONLY];
    PostLine(lenient, hc);
    RunConcat(c, POST_LINE, PrintHeaders(hs) + "\r\n", hc);
    LongerAndChunked();
    ChunkedLast();
    Refused(Run(c, POST_LINE, hc), hs, hc);
    LongerPrinted();
  }

  // ---------------------------------------------------------------- cuts that show

  // The parser inside a header value, behind "ab".
  lemma InsideValue(lenient: bool, hc: Callback)
    ensures var f := Run(Start(Request, lenient), POST_LINE + "X: ab", hc);
            Running(f) && SkipsInValue(f) && f.skip && f.p.lenient == lenient
  {
    hide Run, POST_LINE, NameState, Push, NameFlags, Step, StepEvents;
    var c := Start(Request, lenient);
    PostLine(lenient, hc);
    var d := Run(c, POST_LINE, hc);
    ShortName();
    var q := NameRun(d, "X", hc);
    var d1 := Run(d, "X", hc);
    PushEnds(d.log, OnHeaderField, "X");
    ColonRun(d1, hc);
    var d2 := Run(d1, ": ", hc);
    PlainValue(d2, "a", hc);
    var e := Run(d2, "a", hc);
    ValueContinues(e, 'b', hc);
    var f := Run(e, "b", hc);
    RunOne(e, 'b', hc);
    AdvanceSkips(e, 'b', hc);
    RunConcat(d2, "a", "b", hc);
    RunConcat(d1, ": ", "a" + "b", hc);
    RunConcat(d, "X", ": " + ("a" + "b"), hc);
    assert "X" + (": " + ("a" + "b")) == "X: ab";
    RunConcat(c, POST_LINE, "X: ab", hc);
    RunLenient(c, POST_LINE + "X: ab", hc);
  }

  lemma ShortName()
    ensures IsTokens("X") && NameState(Lowered("X")) == General && !(CONTENT_LENGTH <= Lowered("X"))
  {
    assert "X"[..0] == "";
    NameFirst('X');
    assert Lowered("X") == "x" == [TokenOf('X')];
  }

  // A control byte in a header value is accepted in one buffer and refused behind a cut.
  lemma ControlCut(hc: Callback)
    ensures var c, a, b := Start(Request, false), POST_LINE + "X: ab", "\U{1}";
            Run(c, a + b, hc).p.errno == OK && FeedAll(c, [a, b], hc).p.errno == InvalidHeaderToken
  {
    hide Run, POST_LINE;
    var c, a, b := Start(Request, false), POST_LINE + "X: ab", "\U{1}";
    InsideValue(false, hc);
    var f := Run(c, a, hc);
    RunConcat(c, a, b, hc);
    SkipMatters(f, '\U{1}', hc);
    RunOne(f, '\U{1}', hc);
    RunOne(f.(skip := false), '\U{1}', hc);
    assert [a, b][1..] == [b] && [b][1..] == [];
    var d := Feed(f, b, hc);
    assert FeedAll(d, [], hc) == d && FeedAll(f, [b], hc) == d;
    assert c.(skip := false) == c && Feed(c, a, hc) == f;
  }

  lemma PathByte(c: Config, ch: Byte, hc: Callback)
    requires Running(c) && c.p.meth == GET && c.p.state.AtUrl?
    requires if c.p.state.url == ReqSpacesBeforeUrl then ch == '/' else c.p.state.url == ReqPath && ch in "abc"
    ensures var d := Run(c, [ch], hc); Running(d) && d.p.meth == GET && d.p.state == AtUrl(ReqPath)
  {
    hide Run, StepEvents;
    RunOne(c, ch, hc);
  }

  predicate OnPath(c: Config) { Running(c) && c.p.meth == GET && c.p.state == AtUrl(ReqPath) }

  lemma PathStates(c: Config, s: Bytes, hc: Callback)
    requires Running(c) && c.p.state == AtStart(StartReq) && s == "GET /abc\U{1}"
    ensures Run(c, s[..4], hc).p.state == AtUrl(ReqSpacesBeforeUrl) && OnPath(Run(c, s[..5], hc))
    ensures OnPath(Run(c, s[..6], hc)) && OnPath(Run(c, s[..7], hc)) && OnPath(Run(c, s[..8], hc))
  {
    hide Run, Began, MethodName;
    MethodRun(c, GET, hc);
    assert MethodName(GET) + " " == "GET " by { GetName(); }
    GetBegan(c.p);
    var c0 := Run(c, "GET ", hc);
    PathByte(c0, '/', hc);
    var c1 := Run(c0, "/", hc);
    PathByte(c1, 'a', hc);
    var c2 := Run(c1, "a", hc);
    PathByte(c2, 'b', hc);
    var c3 := Run(c2, "b", hc);
    PathByte(c3, 'c', hc);
    PathRuns(c, s, hc, c0, c1, c2, c3, Run(c3, "c", hc));
  }

  lemma MethodState(c: Config, s: Bytes, hc: Callback)
    requires Running(c) && c.p.state == AtStart(StartReq) && s == "GET /abc\U{1}"
    ensures Run(c, s[..3], hc).p.state == AtStart(ReqMethod)
  {
    hide Run, MethodName;
    GetName();
    MethodPart(c, GET, 3, hc);
    assert MethodName(GET)[..3] == "GET" && s[..3] == "GET";
  }

  // A failing byte behind "GET /abc", and the data that stay unreported in one buffer and in two.
  lemma ErrorCut(hc: Callback)
    ensures var c, s := Start(Request, false), "GET /abc\U{1}";
            && Run(c, s, hc).p.errno == InvalidUrl && Run(c, s, hc).pos == 8
            && Unreported(c, s, 8, hc) == [Data(OnUrl, "/abc")]
            && Unreported(Run(c, "GET /ab", hc), "c\U{1}", 1, hc) == [Data(OnUrl, "c")]
  {
    hide Run, Held;
    var c, s := Start(Request, false), "GET /abc\U{1}";
    PathStates(c, s, hc);
    MethodState(c, s, hc);
    ControlInUrl(c, Run(c, s[..8], hc), s, hc);
    PathHeld(c, s, hc);
    assert s[8 - 4..8] == "/abc";
    var d := Run(c, s[..7], hc);
    assert s[..7] == "GET /ab" && s[..8] == s[..7] + "c";
    RunConcat(c, s[..7], "c", hc);
    OneHeld(d, hc);
  }

  lemma GetName()
    ensures MethodName(GET) == "GET"
  {
  }

  lemma GetBegan(p: Parser)
    ensures Began(p, GET).meth == GET && Began(p, GET).state == AtUrl(ReqSpacesBeforeUrl)
  {
  }

  lemma PathRuns(c: Config, s: Bytes, hc: Callback, c0: Config, c1: Config, c2: Config, c3: Config, c4: Config)
    requires s == "GET /abc\U{1}" && c0 == Run(c, "GET ", hc) && c1 == Run(c0, "/", hc) && c2 == Run(c1, "a", hc)
    requires c3 == Run(c2, "b", hc) && c4 == Run(c3, "c", hc)
    ensures Run(c, s[..4], hc) == c0 && Run(c, s[..5], hc) == c1 && Run(c, s[..6], hc) == c2
    ensures Run(c, s[..7], hc) == c3 == Run(c, "GET /ab", hc) && Run(c, s[..8], hc) == c4
  {
    hide Run;
    assert s[..4] == "GET " && s[..5] == s[..4] + "/" && s[..6] == s[..5] + "a" && s[..7] == s[..6] + "b";
    assert s[..7] == "GET /ab" && s[..8] == s[..7] + "c";
    RunConcat(c, s[..4], "/", hc);
    RunConcat(c, s[..5], "a", hc);
    RunConcat(c, s[..6], "b", hc);
    RunConcat(c, s[..7], "c", hc);
  }

  lemma ControlInUrl(c: Config, d: Config, s: Bytes, hc: Callback)
    requires s == "GET /abc\U{1}" && d == Run(c, s[..8], hc) && Running(d) && d.p.state == AtUrl(ReqPath)
    ensures Run(c, s, hc).p.errno == InvalidUrl && Run(c, s, hc).pos == c.pos + 8
  {
    hide Run, StepEvents;
    assert s == s[..8] + "\U{1}";
    RunConcat(c, s[..8], "\U{1}", hc);
    RunOne(d, '\U{1}', hc);
    RunPos(c, s[..8], hc);
  }

  lemma PathHeld(c: Config, s: Bytes, hc: Callback)
    requires s == "GET /abc\U{1}" && Run(c, s[..4], hc).p.state == AtUrl(ReqSpacesBeforeUrl)
    requires Run(c, s[..5], hc).p.state == AtUrl(ReqPath) && Run(c, s[..6], hc).p.state == AtUrl(ReqPath)
    requires Run(c, s[..7], hc).p.state == AtUrl(ReqPath) && Run(c, s[..8], hc).p.state == AtUrl(ReqPath)
    requires Run(c, s[..3], hc).p.state == AtStart(ReqMethod)
    ensures Held(c, s[..8], hc) == 4
  {
    hide Run, Held;
    HeldNext(c, s, 3, hc);
    assert HoldsByte(c, s, 4, hc) && HoldsByte(c, s, 5, hc) && HoldsByte(c, s, 6, hc) && HoldsByte(c, s, 7, hc);
    HeldStretch(c, s, 4, 8, hc);
  }

  lemma OneHeld(c: Config, hc: Callback)
    requires c.p.state == AtUrl(ReqPath) && Run(c, "c", hc).p.state == AtUrl(ReqPath)
    ensures Unreported(c, "c\U{1}", 1, hc) == [Data(OnUrl, "c")]
  {
    hide Run;
    var s := "c\U{1}";
    assert s[..1] == "c" && s[..0] == [] && "c"[..0] == [];
    assert Run(c, [], hc) == c by { RunEmpty(c, hc); }
    assert Held(c, "c", hc) == 1;
    assert s[0..1] == "c";
  }

  lemma RunEmpty(c: Config, hc: Callback)
    ensures Run(c, [], hc) == c
  {
    hide Advance;
  }
}
