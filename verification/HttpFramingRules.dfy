/**
 Where a body ends: the rules of section 3.3.3 of RFC 7230 over a list of headers, and exactly which
 messages the parser frames by them.
 */
module HttpFramingRules {
  import opened HttpTypes
  import opened HttpStep
  import opened HttpRun
  import opened HttpReach
  import opened HttpLengths
  import opened HttpHeaders
  import opened HttpOptions
  import opened HttpLists
  import opened HttpValues
  import opened HttpConnection

  // ---------------------------------------------------------------- the rules

  datatype Framing = NoBody | ByChunks | ByLength(length: nat) | ByClose | Rejected

  // A status whose responses never have a body.
  predicate Bodiless(p: Parser) {
    p.typ != Request && (p.status / 100 == 1 || p.status == 204 || p.status == 304)
  }

  predicate IsNamed(h: Header, word: string) { SameWord(h.name, word) }

  // The list elements of all headers of one name, in order.
  function Elements(hs: seq<Header>, word: string): seq<Bytes>
    decreases |hs|
  {
    if hs == [] then []
    else (if IsNamed(hs[0], word) then Split(hs[0].value) else []) + Elements(hs[1..], word)
  }

  predicate HasHeader(hs: seq<Header>, word: string) { Elements(hs, word) != [] }

  // The last coding of the list is "chunked"; empty elements do not count.
  predicate EndsChunked(es: seq<Bytes>)
    decreases |es|
  {
    var n := |es| - 1;
    es != [] && if Trim(es[n]) == [] then EndsChunked(es[..n]) else Means(es[n], CHUNKED)
  }

  predicate IsDigits(u: Bytes) { u != [] && forall i :: 0 <= i < |u| ==> IsNum(u[i]) }

  // u is a Content-Length element of value n.
  predicate Declares(u: Bytes, n: nat) { var v := Trim(u); IsDigits(v) && Decimal(v) == n }

  // A Content-Length header, or several that agree.
  datatype Declared = Length(length: nat) | Invalid

  function DeclaredBy(es: seq<Bytes>): Declared
    requires es != []
  {
    var v := Trim(es[0]);
    if IsDigits(v) && forall i :: 0 <= i < |es| ==> Declares(es[i], Decimal(v)) then Length(Decimal(v)) else Invalid
  }

  function LengthFraming(n: nat): Framing { if n == 0 then NoBody else ByLength(n) }

  // The framings the rules permit for a message that starts at p and has headers hs.  `told` is the
  // embedder's word that the message has no body, as after HEAD and CONNECT.
  predicate Permits(p: Parser, told: bool, hs: seq<Header>, r: Framing) {
    var codings, lengths := Elements(hs, TRANSFER_ENCODING), Elements(hs, CONTENT_LENGTH);
    if told || Bodiless(p) then r == NoBody
    else if HasHeader(hs, TRANSFER_ENCODING) then
      // A length beside a coding may be refused.
      if r == Rejected then HasHeader(hs, CONTENT_LENGTH) || (p.typ == Request && !EndsChunked(codings))
      else if EndsChunked(codings) then r == ByChunks
      else p.typ != Request && r == ByClose
    else if lengths == [] then r == if p.typ == Request then NoBody else ByClose
    else match DeclaredBy(lengths)
      case Invalid => r == Rejected
      // So may several lengths that agree.
      case Length(n) => r == LengthFraming(n) || (|lengths| > 1 && r == Rejected)
  }

  // What the parser has settled on behind the empty line.
  function Chosen(p: Parser): Framing {
    if p.errno != OK then Rejected
    else match p.state
      case AtChunkSize(_) => ByChunks
      case AtBody(BodyIdentity) => ByLength(p.contentLength)
      case AtBody(_) => ByClose
      case _ => NoBody
  }

  // The embedder has said that there is no body.
  predicate Told(p: Parser) { p.errno == OK && p.flags.skipBody }

  // ---------------------------------------------------------------- what the parser goes by

  predicate IsLine(h: Header) { h.name != [] && IsTokens(h.name) && IsValue(h.value) }

  predicate AreLines(hs: seq<Header>) { forall i :: 0 <= i < |hs| ==> IsLine(hs[i]) }

  // A name that begins with content-length.
  predicate Stem(h: Header) { CONTENT_LENGTH <= Lowered(h.name) }

  function Stems(hs: seq<Header>): nat
    decreases |hs|
  {
    if hs == [] then 0 else (if Stem(hs[0]) then 1 else 0) + Stems(hs[1..])
  }

  predicate Sized(h: Header) { IsNamed(h, CONTENT_LENGTH) && h.value != [] }

  // A Transfer-Encoding of "chunked" and nothing else but spaces.
  predicate Exact(h: Header) { IsNamed(h, TRANSFER_ENCODING) && IsChunked(h.value) }

  predicate Offers(h: Header) { IsNamed(h, UPGRADE) && h.value != [] }

  predicate Wants(h: Header) {
    (IsNamed(h, CONNECTION) || IsNamed(h, PROXY_CONNECTION)) && Audible(Split(h.value), SwitchOver)
  }

  predicate SaysChunked(hs: seq<Header>)
    decreases |hs|
  {
    hs != [] && (Exact(hs[0]) || SaysChunked(hs[1..]))
  }

  predicate SaysLength(hs: seq<Header>)
    decreases |hs|
  {
    hs != [] && (Sized(hs[0]) || SaysLength(hs[1..]))
  }

  // Every length is one the parser accepts.
  predicate LengthsFit(hs: seq<Header>)
    decreases |hs|
  {
    hs != [] ==> (Sized(hs[0]) ==> IsLength(hs[0].value)) && LengthsFit(hs[1..])
  }

  predicate LengthsZero(hs: seq<Header>)
    decreases |hs|
  {
    hs != [] ==> (Sized(hs[0]) ==> IsDecimal(hs[0].value) && Decimal(hs[0].value) == 0) && LengthsZero(hs[1..])
  }

  predicate OffersSwitch(hs: seq<Header>)
    decreases |hs|
  {
    hs != [] && (Offers(hs[0]) || OffersSwitch(hs[1..]))
  }

  predicate WantsSwitch(hs: seq<Header>)
    decreases |hs|
  {
    hs != [] && (Wants(hs[0]) || WantsSwitch(hs[1..]))
  }

  // The message is the last of its protocol on the connection.
  predicate Switches(p: Parser, hs: seq<Header>) {
    p.meth == CONNECT || (OffersSwitch(hs) && WantsSwitch(hs))
  }

  // The headers the parser refuses.
  predicate Refuses(hs: seq<Header>) {
    !LengthsFit(hs) || Stems(hs) > 1 || (Stems(hs) == 1 && SaysChunked(hs))
  }

  // The messages the parser frames as the rules permit.
  predicate Complies(p: Parser, told: bool, hs: seq<Header>) {
    var codings, lengths := Elements(hs, TRANSFER_ENCODING), Elements(hs, CONTENT_LENGTH);
    if told then true
    else if Bodiless(p) then
      !Refuses(hs) && (p.meth == CONNECT || (!SaysChunked(hs) && LengthsZero(hs)))
    else if HasHeader(hs, TRANSFER_ENCODING) then
      if EndsChunked(codings) then
        if Refuses(hs) then HasHeader(hs, CONTENT_LENGTH) else SaysChunked(hs) && p.meth != CONNECT
      else if p.typ == Request then Refuses(hs)
      else if Refuses(hs) then HasHeader(hs, CONTENT_LENGTH)
      else !SaysChunked(hs) && !SaysLength(hs) && !Switches(p, hs)
    else if lengths == [] then !Refuses(hs) && (p.typ == Request || !Switches(p, hs))
    else match DeclaredBy(lengths)
      case Invalid => Refuses(hs)
      case Length(n) => if Refuses(hs) then |lengths| > 1 else p.meth == CONNECT ==> n == 0
  }

  // ---------------------------------------------------------------- names

  lemma TokenFolds(c: Byte)
    requires IsToken(c)
    ensures TokenOf(c) == Fold(c)
  {
  }

  lemma NameSame(w: Bytes, word: string)
    requires IsTokens(w)
    ensures Lowered(w) == word <==> SameWord(w, word)
  {
    hide TokenOf, Fold, Lowered, IsToken;
    if |w| == |word| {
      forall i | 0 <= i < |w| ensures Lowered(w)[i] == Fold(w[i]) {
        LoweredAt(w, i);
        TokenFolds(w[i]);
      }
      assert Lowered(w) == word <==> forall i :: 0 <= i < |w| ==> Lowered(w)[i] == word[i];
    }
  }

  lemma KindStates(u: Bytes)
    ensures NameState(u) == Connection <==> u == CONNECTION || u == PROXY_CONNECTION
    ensures NameState(u) == ContentLength <==> u == CONTENT_LENGTH
    ensures NameState(u) == TransferEncoding <==> u == TRANSFER_ENCODING
    ensures NameState(u) == Upgrade <==> u == UPGRADE
  {
    assert |CONNECTION| == 10 && |PROXY_CONNECTION| == 16 && |CONTENT_LENGTH| == 14 && |TRANSFER_ENCODING| == 17;
    assert |UPGRADE| == 7;
  }

  // The kind of a header is its name, whatever the case.
  lemma KindNamed(h: Header)
    requires IsTokens(h.name)
    ensures KindOf(h) == Connection <==> IsNamed(h, CONNECTION) || IsNamed(h, PROXY_CONNECTION)
    ensures KindOf(h) == ContentLength <==> IsNamed(h, CONTENT_LENGTH)
    ensures KindOf(h) == TransferEncoding <==> IsNamed(h, TRANSFER_ENCODING)
    ensures KindOf(h) == Upgrade <==> IsNamed(h, UPGRADE)
    ensures IsNamed(h, CONTENT_LENGTH) ==> Stem(h)
  {
    hide NameState, SameWord, Lowered, CONNECTION, PROXY_CONNECTION, CONTENT_LENGTH, TRANSFER_ENCODING, UPGRADE;
    KindStates(Lowered(h.name));
    NameSame(h.name, CONNECTION);
    NameSame(h.name, PROXY_CONNECTION);
    NameSame(h.name, CONTENT_LENGTH);
    NameSame(h.name, TRANSFER_ENCODING);
    NameSame(h.name, UPGRADE);
  }

  // ---------------------------------------------------------------- flags

  // Connection options leave the other flags alone.
  predicate Untouched(f: Flags, g: Flags) {
    g.chunked == f.chunked && g.contentLength == f.contentLength && g.upgrade == f.upgrade
  }

  lemma GrantTouches(f: Flags, y: Bytes)
    ensures Untouched(f, Grant(f, y))
  {
    hide IsWord, KEEP_ALIVE, CLOSE, UPGRADE;
  }

  lemma {:induction false} OptionsTouch(f: Flags, s: Bytes)
    ensures Untouched(f, ScanAll(f, s).flags) && Untouched(f, Heard(ScanAll(f, s)))
    decreases |s|
  {
    hide IsWord, ModeAfter, Strip, Grant;
    var t := ScanAll(f, s);
    GrantTouches(t.flags, Element(t));
    if s != [] {
      OptionsTouch(f, s[..|s| - 1]);
    }
  }

  lemma ValueFlagsOne(f: Flags, h: Header)
    requires IsLine(h) && h.value != []
    ensures var g := ValueFlags(f, KindOf(h), h.value);
            && g.contentLength == f.contentLength
            && (g.chunked <==> f.chunked || Exact(h))
            && (g.upgrade <==> f.upgrade || Offers(h))
            && (g.connectionUpgrade <==> f.connectionUpgrade || Wants(h))
  {
    hide KindOf, SameWord, CONNECTION, PROXY_CONNECTION, CONTENT_LENGTH, TRANSFER_ENCODING, UPGRADE;
    hide Heard, ScanAll, Audible, Split, IsTokens, IsValue, IsChunked;
    KindNamed(h);
    OptionsTouch(f, h.value);
    ListHeard(f, h.value, SwitchOver);
  }

  // What one header does to the flags.
  lemma FlagsAfterOne(f: Flags, h: Header)
    requires IsLine(h)
    ensures var g := FlagsAfter(f, h);
            && (g.contentLength <==> f.contentLength || Stem(h))
            && (g.chunked <==> f.chunked || Exact(h))
            && (g.upgrade <==> f.upgrade || Offers(h))
            && (g.connectionUpgrade <==> f.connectionUpgrade || Wants(h))
  {
    hide KindOf, Lowered, CONTENT_LENGTH, ValueFlags, SameWord, Audible, Split, IsTokens, IsValue, IsChunked;
    if h.value == [] {
      EmptyValue();
    } else {
      ValueFlagsOne(NameFlags(f, Lowered(h.name)), h);
    }
  }

  lemma EmptyValue()
    ensures !IsChunked([]) && !Audible(Split([]), SwitchOver)
  {
    hide IsWord;
    assert !IsWord([], CHUNKED) by { NoChunked(); }
    SplitOne([]);
    NothingHeard(NO_FLAGS);
    ListHeard(NO_FLAGS, [], SwitchOver);
  }

  lemma NoChunked()
    ensures !IsWord([], CHUNKED)
  {
  }

  // What a list of headers does to the flags.
  lemma {:induction false} AllFlagsMean(f: Flags, hs: seq<Header>)
    requires AreLines(hs)
    ensures var g := AllFlags(f, hs);
            && (g.contentLength <==> f.contentLength || Stems(hs) > 0)
            && (g.chunked <==> f.chunked || SaysChunked(hs))
            && (g.upgrade <==> f.upgrade || OffersSwitch(hs))
            && (g.connectionUpgrade <==> f.connectionUpgrade || WantsSwitch(hs))
    decreases |hs|
  {
    hide FlagsAfter, Stem, Exact, Offers, Wants, IsLine;
    if hs != [] {
      FlagsAfterOne(f, hs[0]);
      AllFlagsMean(FlagsAfter(f, hs[0]), hs[1..]);
    }
  }

  // The lists the parser reads to their end.
  lemma {:induction false} Accepted(f: Flags, hs: seq<Header>)
    requires AreLines(hs)
    ensures AreHeaders(f, hs) <==> LengthsFit(hs) && Stems(hs) <= if f.contentLength then 0 else 1
    decreases |hs|
  {
    hide FlagsAfter, Exact, Offers, Wants, KindOf, IsTokens, IsValue, IsLength, CONTENT_LENGTH, IsNamed;
    if hs != [] {
      FlagsAfterOne(f, hs[0]);
      KindNamed(hs[0]);
      Accepted(FlagsAfter(f, hs[0]), hs[1..]);
    }
  }

  // ---------------------------------------------------------------- lengths

  lemma {:induction false} NoStems(hs: seq<Header>)
    requires AreLines(hs) && Stems(hs) == 0
    ensures !SaysLength(hs) && Elements(hs, CONTENT_LENGTH) == []
    decreases |hs|
  {
    hide IsTokens, CONTENT_LENGTH, SameWord, Lowered, KindOf, IsValue;
    if hs != [] {
      KindNamed(hs[0]);
      NoStems(hs[1..]);
    }
  }

  // The one header whose name begins with content-length, if it has a value and the right name.
  lemma {:induction false} TheLength(f: Flags, n: nat, hs: seq<Header>) returns (v: Bytes)
    requires AreLines(hs) && AreHeaders(f, hs) && Stems(hs) <= 1
    ensures AllLength(f, n, hs) == if SaysLength(hs) then (if IsLength(v) then Decimal(v) else 0) else n
    ensures SaysLength(hs) ==> IsLength(v) && Elements(hs, CONTENT_LENGTH) == Split(v)
    ensures SaysLength(hs) ==> (LengthsZero(hs) <==> Decimal(v) == 0)
    ensures !SaysLength(hs) ==> LengthsZero(hs)
    ensures !SaysLength(hs) && Elements(hs, CONTENT_LENGTH) != [] ==> Elements(hs, CONTENT_LENGTH) == [[]]
    decreases |hs|
  {
    hide FlagsAfter, KindOf, IsTokens, IsValue, IsLength, CONTENT_LENGTH, SameWord, Lowered, Split, Decimal;
    v := [];
    if hs != [] {
      KindNamed(hs[0]);
      var g := FlagsAfter(f, hs[0]);
      if Stem(hs[0]) {
        NoStems(hs[1..]);
        v := hs[0].value;
        var w := TheLength(g, LengthAfter(n, hs[0]), hs[1..]);
        assert Split(v) + [] == Split(v);
        SplitOne([]);
        if Sized(hs[0]) {
          LengthIsDecimal(v);
        }
      } else {
        v := TheLength(g, n, hs[1..]);
        assert [] + Elements(hs[1..], CONTENT_LENGTH) == Elements(hs[1..], CONTENT_LENGTH);
      }
    }
  }

  lemma DigitsOnly(v: Bytes)
    requires IsLength(v)
    ensures ',' !in v && '\t' !in v && TrimLeft(v) == v
  {
  }

  lemma {:induction false} SpacesBehind(v: Bytes, n: nat)
    requires n <= |v| && IsDecimal(v) && forall i :: n <= i < |v| ==> v[i] == ' '
    ensures IsDecimal(v[..n]) && Decimal(v) == Decimal(v[..n])
    decreases |v|
  {
    if n < |v| {
      SpacesBehind(v[..|v| - 1], n);
      assert v[..|v| - 1][..n] == v[..n];
    } else {
      assert v[..n] == v;
    }
  }

  // A length the parser accepts is a length for the rules unless there is a space inside; then both
  // read the same number.
  lemma LengthAgrees(v: Bytes)
    requires IsLength(v)
    ensures Split(v) == [v] && (DeclaredBy([v]) == Invalid || DeclaredBy([v]) == Length(Decimal(v)))
  {
    hide Decimal, Split, TrimLeft;
    DigitsOnly(v);
    SplitOne(v);
    SpacesBehind(v, |TrimRight(v)|);
  }

  lemma EmptyLength()
    ensures DeclaredBy([[]]) == Invalid
  {
    hide Decimal;
  }

  // ---------------------------------------------------------------- the empty line

  lemma EmptyLine(c: Config, hc: Callback)
    requires Running(c) && c.p.state == AtField(HeaderFieldStart)
    ensures Run(c, "\r\n", hc).p == EndHeaders(c.p.(state := AtField(HeadersAlmostDone)), LF, hc).p
  {
    hide Run, StepEvents, Emit, EndHeaders;
    ReachQuiet(c, CR, hc);
    var d := Run(c, "\r", hc);
    RunConcat(c, "\r", "\n", hc);
    RunOne(d, LF, hc);
    assert "\r" + "\n" == "\r\n";
  }

  // What the parser settles on, by its flags and fields.
  lemma Settled(p: Parser, hc: Callback)
    requires p.errno == OK && !p.flags.trailing && !p.flags.skipBody
    ensures var q := EndHeaders(p, LF, hc).p;
            var told := Told(q);
            Chosen(q) == if p.flags.chunked && p.flags.contentLength then Rejected
                         else if told || p.meth == CONNECT then NoBody
                         else if p.flags.chunked then ByChunks
                         else if p.contentLength != ULLONG_MAX then LengthFraming(p.contentLength)
                         else if p.typ == Request || Bodiless(p) || (p.flags.upgrade && p.flags.connectionUpgrade)
                         then NoBody
                         else ByClose
    ensures var q := EndHeaders(p, LF, hc).p; q.typ == p.typ && q.status == p.status
    ensures (forall x :: hc(x) == Proceed) ==> !Told(EndHeaders(p, LF, hc).p)
  {
    hide KeepAlive;
  }

  // ---------------------------------------------------------------- headers refused

  lemma LineRefused(c: Config, h: Header, rest: Bytes, hc: Callback)
    requires Running(c) && c.p.state == AtField(HeaderFieldStart) && IsLine(h)
    requires !(IsHeader(h) && Admits(c.p.flags, h))
    ensures var d := Run(c, PrintHeader(h) + rest, hc); d.p.errno != OK
  {
    hide Run, NameState, Push, CONTENT_LENGTH, Lowered, IsLength, Decimal, EndsWith, IsValue;
    var q := NameRun(c, h.name, hc);
    var s := ": " + h.value + "\r\n" + rest;
    assert PrintHeader(h) + rest == h.name + s;
    RunConcat(c, h.name, s, hc);
    var d := Run(c, h.name, hc);
    if !Admits(c.p.flags, h) {
      RunStopped(d, s, hc);
    } else {
      PushEnds(c.log, OnHeaderField, h.name);
      assert s == ": " + (h.value + ("\r\n" + rest));
      LengthRefused(d, h.value, "\r\n" + rest, hc);
    }
  }

  // Behind the name Content-Length, a value that is no length.
  lemma LengthRefused(c: Config, value: Bytes, rest: Bytes, hc: Callback)
    requires Running(c) && c.p.state == AtField(HeaderField) && c.p.hstate == ContentLength
    requires EndsWith(c.log, OnHeaderField) && value != [] && IsValue(value) && !IsLength(value)
    ensures Run(c, ": " + (value + rest), hc).p.errno != OK
  {
    hide Run, Push, IsLength, Decimal;
    ColonRun(c, hc);
    var e := Run(c, ": ", hc);
    RunConcat(c, ": ", value + rest, hc);
    ContentLengthRead(e, value, hc);
    RunConcat(e, value, rest, hc);
    RunStopped(Run(e, value, hc), rest, hc);
  }

  // The parser stops at the first header it cannot accept.
  lemma {:induction false} BlockRefused(c: Config, hs: seq<Header>, rest: Bytes, hc: Callback)
    requires Running(c) && c.p.state == AtField(HeaderFieldStart) && AreLines(hs) && !AreHeaders(c.p.flags, hs)
    requires rest != [] && !IsBlank(rest[0])
    ensures Run(c, PrintHeaders(hs) + rest, hc).p.errno != OK
    decreases |hs|
  {
    hide Run, IsHeader, IsLine, FlagsAfter, LengthAfter, Admits, Reported, PrintHeader, Emit;
    var tail := PrintHeaders(hs[1..]) + rest;
    assert PrintHeaders(hs) + rest == PrintHeader(hs[0]) + tail;
    if IsHeader(hs[0]) && Admits(c.p.flags, hs[0]) {
      LinesStart(hs[1..], rest);
      var e := HeaderLine(c, hs[0], tail, hc);
      BlockRefused(e, hs[1..], rest, hc);
    } else {
      LineRefused(c, hs[0], tail, hc);
    }
  }

  lemma LinesStart(hs: seq<Header>, rest: Bytes)
    requires AreLines(hs) && rest != [] && !IsBlank(rest[0])
    ensures var s := PrintHeaders(hs) + rest; s != [] && !IsBlank(s[0])
  {
    hide IsToken, IsValue;
    if hs != [] {
      var ch := hs[0].name[0];
      assert (PrintHeaders(hs) + rest)[0] == ch;
      assert IsLine(hs[0]) && IsToken(ch);
      TokenNoBlank(ch);
    } else {
      assert PrintHeaders(hs) + rest == rest;
    }
  }

  // ---------------------------------------------------------------- the theorem

  // What the parser settles on, by the headers.
  function Outcome(p: Parser, told: bool, hs: seq<Header>, n: nat): Framing {
    if Refuses(hs) then Rejected
    else if told || p.meth == CONNECT then NoBody
    else if SaysChunked(hs) then ByChunks
    else if SaysLength(hs) then LengthFraming(n)
    else if p.typ == Request || Bodiless(p) || Switches(p, hs) then NoBody
    else ByClose
  }

  // n is the length the parser has read, if any.
  ghost predicate Reads(hs: seq<Header>, n: nat) {
    var es := Elements(hs, CONTENT_LENGTH);
    if SaysLength(hs) then
      && (LengthsZero(hs) <==> n == 0)
      && es != [] && |es| == 1 && (DeclaredBy(es) == Invalid || DeclaredBy(es) == Length(n))
    else LengthsZero(hs) && (es != [] ==> DeclaredBy(es) == Invalid)
  }

  lemma LengthRead(f: Flags, n: nat, hs: seq<Header>)
    requires AreLines(hs) && AreHeaders(f, hs) && Stems(hs) <= 1
    ensures Reads(hs, AllLength(f, n, hs)) && (!SaysLength(hs) ==> AllLength(f, n, hs) == n)
    ensures SaysLength(hs) ==> AllLength(f, n, hs) != ULLONG_MAX
  {
    hide AllLength, AreHeaders, Elements, LengthsZero, Decimal, DeclaredBy, SaysLength, CONTENT_LENGTH, Split;
    var v := TheLength(f, n, hs);
    if SaysLength(hs) {
      LengthAgrees(v);
    } else {
      EmptyLength();
    }
  }

  lemma RunOutcome(c: Config, hs: seq<Header>, hc: Callback) returns (n: nat)
    requires Running(c) && c.p.state == AtField(HeaderFieldStart) && c.p == Cleared(c.p) && AreLines(hs)
    ensures var q := Run(c, PrintHeaders(hs) + "\r\n", hc).p; Chosen(q) == Outcome(c.p, Told(q), hs, n)
    ensures !Refuses(hs) ==> Reads(hs, n)
    ensures var q := Run(c, PrintHeaders(hs) + "\r\n", hc).p;
            q.errno == OK ==> q.typ == c.p.typ && q.status == c.p.status
    ensures (forall x :: hc(x) == Proceed) ==> !Told(Run(c, PrintHeaders(hs) + "\r\n", hc).p)
  {
    hide Run, AllFlags, AllLength, Emit, PrintHeaders, EndHeaders, Reads, AllReported, Stems, LengthsFit, IsLine;
    hide SaysLength, SaysChunked, WantsSwitch, OffersSwitch, AreHeaders;
    n := 0;
    Accepted(NO_FLAGS, hs);
    if AreHeaders(NO_FLAGS, hs) {
      n := AllLength(NO_FLAGS, ULLONG_MAX, hs);
      var e := HeaderBlock(c, hs, "\r\n", hc);
      EmptyLine(e, hc);
      FlagsKept(NO_FLAGS, hs);
      AllFlagsMean(NO_FLAGS, hs);
      LengthRead(NO_FLAGS, ULLONG_MAX, hs);
      Settled(e.p.(state := AtField(HeadersAlmostDone)), hc);
    } else {
      BlockRefused(c, hs, "\r\n", hc);
    }
  }

  // The parser frames a message as section 3.3.3 permits if and only if the message complies.
  lemma FramingFollowsRules(c: Config, hs: seq<Header>, hc: Callback)
    requires Running(c) && c.p.state == AtField(HeaderFieldStart) && c.p == Cleared(c.p) && AreLines(hs)
    ensures var q := Run(c, PrintHeaders(hs) + "\r\n", hc).p;
            Permits(c.p, Told(q), hs, Chosen(q)) <==> Complies(c.p, Told(q), hs)
  {
    hide Run, PrintHeaders, Refuses, Reads, Switches, SaysLength, SaysChunked, Permits, Complies;
    var n := RunOutcome(c, hs, hc);
    Decided(c.p, Told(Run(c, PrintHeaders(hs) + "\r\n", hc).p), hs, n);
  }

  lemma {:induction false} ChunkedIsCoding(hs: seq<Header>)
    ensures SaysChunked(hs) ==> HasHeader(hs, TRANSFER_ENCODING)
    decreases |hs|
  {
    hide SameWord, Split, IsChunked, TRANSFER_ENCODING;
    if hs != [] {
      ChunkedIsCoding(hs[1..]);
    }
  }

  lemma Decided(p: Parser, told: bool, hs: seq<Header>, n: nat)
    requires !Refuses(hs) ==> Reads(hs, n)
    requires told ==> !Refuses(hs)
    ensures Permits(p, told, hs, Outcome(p, told, hs, n)) <==> Complies(p, told, hs)
  {
    hide Refuses, Elements, SaysLength, SaysChunked, OffersSwitch, WantsSwitch, LengthsZero, DeclaredBy, EndsChunked;
    ChunkedIsCoding(hs);
  }
}
