/**
 What http_parser_parse_url finds in a URL: the stretches of the URL in which the two automata
 are in the states of one field.
 */
module UrlFields {
  import opened HttpTypes
  import opened HttpStep
  import opened HttpLengths
  import opened UrlStates
  import opened Intervals

  datatype Field = SCHEMA | HOST | PORT | PATH | QUERY | FRAGMENT | USERINFO

  // ---------------------------------------------------------------- the host automaton

  datatype HostState =
    | HostDead | UserinfoStart | Userinfo | HostStart | HostV6Start | Host | HostV6 | HostV6End
    | HostV6ZoneStart | HostV6Zone | HostPortStart | HostPort

  predicate IsZoneChar(ch: Byte) {
    IsAlphaNum(ch) || ch == '%' || ch == '.' || ch == '-' || ch == '_' || ch == '~'
  }

  // http_parse_host_char.
  function NextHostState(s: HostState, ch: Byte): HostState {
    match s
    case UserinfoStart | Userinfo =>
      if ch == '@' then HostStart else if IsUserinfoChar(ch) then Userinfo else HostDead
    case HostStart => if ch == '[' then HostV6Start else if IsHostChar(ch) then Host else HostDead
    case Host => if IsHostChar(ch) then Host else if ch == ':' then HostPortStart else HostDead
    case HostV6End => if ch == ':' then HostPortStart else HostDead
    case HostV6 | HostV6Start =>
      if s == HostV6 && ch == ']' then HostV6End
      else if IsHex(ch) || ch == ':' || ch == '.' then HostV6
      else if s == HostV6 && ch == '%' then HostV6ZoneStart else HostDead
    case HostV6Zone | HostV6ZoneStart =>
      if s == HostV6Zone && ch == ']' then HostV6End else if IsZoneChar(ch) then HostV6Zone else HostDead
    case HostPort | HostPortStart => if IsNum(ch) then HostPort else HostDead
    case HostDead => HostDead
  }

  function HostAfter(s: HostState, h: Bytes): HostState
    decreases |h|
  {
    if h == [] then s else NextHostState(HostAfter(s, h[..|h| - 1]), h[|h| - 1])
  }

  // The states an authority may end in.
  predicate HostEnds(s: HostState) { s == Host || s == HostV6End || s == HostPort }

  function HostBegin(at: bool): HostState { if at then UserinfoStart else HostStart }

  predicate IsAuthority(h: Bytes) { HostEnds(HostAfter(HostBegin('@' in h), h)) }

  // ---------------------------------------------------------------- ranks

  // Neither automaton ever goes back to a lower rank.
  function UrlRank(s: UrlState): nat {
    match s
    case ReqSpacesBeforeUrl => 0
    case ReqSchema => 1
    case ReqSchemaSlash => 2
    case ReqSchemaSlashSlash => 3
    case ReqServerStart => 4
    case ReqServer | ReqServerWithAt => 5
    case ReqPath => 6
    case ReqQueryStringStart => 7
    case ReqQueryString => 8
    case ReqFragmentStart => 9
    case ReqFragment => 10
    case UrlDead => 11
  }

  function HostRank(s: HostState): nat {
    match s
    case UserinfoStart => 0
    case Userinfo => 1
    case HostStart => 2
    case HostV6Start => 3
    case Host | HostV6 => 4
    case HostV6ZoneStart | HostV6Zone => 5
    case HostV6End => 6
    case HostPortStart => 7
    case HostPort => 8
    case HostDead => 9
  }

  lemma UrlRankGrows(s: UrlState, ch: Byte)
    ensures UrlRank(s) <= UrlRank(NextUrlState(s, ch))
  {
  }

  lemma HostRankGrows(s: HostState, ch: Byte)
    ensures HostRank(s) <= HostRank(NextHostState(s, ch))
  {
  }

  // The rank of the state each byte leads to.
  function UrlRanks(s: UrlState, url: Bytes): (rs: seq<nat>)
    ensures |rs| == |url|
    decreases |url|
  {
    if url == [] then [] else UrlRanks(s, url[..|url| - 1]) + [UrlRank(UrlAfter(s, url))]
  }

  function HostRanks(s: HostState, h: Bytes): (rs: seq<nat>)
    ensures |rs| == |h|
    decreases |h|
  {
    if h == [] then [] else HostRanks(s, h[..|h| - 1]) + [HostRank(HostAfter(s, h))]
  }

  lemma {:induction false} UrlRanksSorted(s: UrlState, url: Bytes)
    ensures Sorted(UrlRanks(s, url))
    ensures forall i :: 0 <= i < |url| ==> UrlRanks(s, url)[i] <= UrlRank(UrlAfter(s, url))
    decreases |url|
  {
    hide NextUrlState, UrlRank;
    if url != [] {
      UrlRanksSorted(s, url[..|url| - 1]);
      UrlRankGrows(UrlAfter(s, url[..|url| - 1]), url[|url| - 1]);
    }
  }

  lemma {:induction false} HostRanksSorted(s: HostState, h: Bytes)
    ensures Sorted(HostRanks(s, h))
    ensures forall i :: 0 <= i < |h| ==> HostRanks(s, h)[i] <= HostRank(HostAfter(s, h))
    decreases |h|
  {
    hide NextHostState, HostRank;
    if h != [] {
      HostRanksSorted(s, h[..|h| - 1]);
      HostRankGrows(HostAfter(s, h[..|h| - 1]), h[|h| - 1]);
    }
  }

  // The rank at a position is that of the URL up to it.
  lemma {:induction false} UrlRankAt(s: UrlState, url: Bytes, i: nat)
    requires i < |url|
    ensures UrlRanks(s, url)[i] == UrlRank(UrlAfter(s, url[..i + 1]))
    decreases |url|
  {
    hide NextUrlState, UrlRank;
    var init := url[..|url| - 1];
    if i < |init| {
      UrlRankAt(s, init, i);
      assert init[..i + 1] == url[..i + 1];
    } else {
      assert url[..i + 1] == url;
    }
  }

  lemma {:induction false} HostRankAt(s: HostState, h: Bytes, i: nat)
    requires i < |h|
    ensures HostRanks(s, h)[i] == HostRank(HostAfter(s, h[..i + 1]))
    decreases |h|
  {
    hide NextHostState, HostRank;
    var init := h[..|h| - 1];
    if i < |init| {
      HostRankAt(s, init, i);
      assert init[..i + 1] == h[..i + 1];
    } else {
      assert h[..i + 1] == h;
    }
  }

  // ---------------------------------------------------------------- fields

  // The fields of the URL automaton; HOST stands for the whole authority.
  predicate IsUrlField(f: Field) { f.SCHEMA? || f.HOST? || f.PATH? || f.QUERY? || f.FRAGMENT? }

  // Their ranks.
  function Low(f: Field): nat
    requires IsUrlField(f)
  {
    match f
    case SCHEMA => 1
    case HOST => 5
    case PATH => 6
    case QUERY => 8
    case FRAGMENT => 10
  }

  function UrlPart(connect: bool, url: Bytes, f: Field): Span
    requires IsUrlField(f)
  {
    Stretch(UrlRanks(UrlStart(connect), url), Low(f), Low(f) + 1)
  }

  lemma UrlPartFits(connect: bool, url: Bytes, f: Field)
    requires IsUrlField(f)
    ensures var s := UrlPart(connect, url, f); s.off + s.len <= |url|
  {
    var rs := UrlRanks(UrlStart(connect), url);
    BelowMonotone(rs, Low(f), Low(f) + 1);
  }

  function Cut(url: Bytes, s: Span): Bytes
    requires s.off + s.len <= |url|
  {
    url[s.off..s.off + s.len]
  }

  function Authority(connect: bool, url: Bytes): Bytes {
    UrlPartFits(connect, url, HOST);
    Cut(url, UrlPart(connect, url, HOST))
  }

  // The fields inside an authority, relative to it.
  function HostPart(h: Bytes, f: Field): Span
    requires !IsUrlField(f) || f == HOST
  {
    var rs := HostRanks(HostBegin('@' in h), h);
    match f
    case HOST => Stretch(rs, 4, 6)
    case PORT => Stretch(rs, 8, 9)
    case USERINFO => Stretch(rs, 1, 2)
  }

  function Shift(s: Span, base: nat): Span { Span(s.off + base, s.len) }

  // Where each field of a URL is; a field that is absent has length zero.
  function SpanOf(connect: bool, url: Bytes, f: Field): Span {
    match f
    case SCHEMA => UrlPart(connect, url, SCHEMA)
    case PATH => UrlPart(connect, url, PATH)
    case QUERY => UrlPart(connect, url, QUERY)
    case FRAGMENT => UrlPart(connect, url, FRAGMENT)
    case HOST => Shift(HostPart(Authority(connect, url), HOST), UrlPart(connect, url, HOST).off)
    case PORT => Shift(HostPart(Authority(connect, url), PORT), UrlPart(connect, url, HOST).off)
    case USERINFO => Shift(HostPart(Authority(connect, url), USERINFO), UrlPart(connect, url, HOST).off)
  }

  predicate Has(connect: bool, url: Bytes, f: Field) { SpanOf(connect, url, f).len > 0 }

  lemma SpanFits(connect: bool, url: Bytes, f: Field)
    ensures var s := SpanOf(connect, url, f); s.off + s.len <= |url|
  {
    hide UrlRanks, HostRanks;
    if IsUrlField(f) {
      UrlPartFits(connect, url, f);
    }
    UrlPartFits(connect, url, HOST);
    var h := Authority(connect, url);
    BelowMonotone(HostRanks(HostBegin('@' in h), h), 4, 6);
  }

  // The text of a field.
  function Text(connect: bool, url: Bytes, f: Field): Bytes {
    SpanFits(connect, url, f);
    Cut(url, SpanOf(connect, url, f))
  }

  // ---------------------------------------------------------------- success

  lemma PortDigits(h: Bytes)
    requires HostAfter(HostBegin('@' in h), h) != HostDead
    ensures var s := HostPart(h, PORT);
            s.off + s.len <= |h| && forall i :: s.off <= i < s.off + s.len ==> IsNum(h[i])
  {
    hide HostRank, HostRanks, Stretch, HostAfter, Below;
    var b := HostBegin('@' in h);
    var rs := HostRanks(b, h);
    HostRanksSorted(b, h);
    StretchesApart(rs, 8, 8, 8, 9);
    var s := HostPart(h, PORT);
    forall i | s.off <= i < s.off + s.len ensures IsNum(h[i]) {
      StretchHolds(rs, 8, 9, i);
      HostByteAt(b, h, i);
    }
  }

  // The byte at i and the rank it leads to.
  lemma HostByteAt(b: HostState, h: Bytes, i: nat)
    requires i < |h|
    ensures var r, ch := HostRanks(b, h)[i], h[i];
            && r != 0 && (r == 8 ==> IsNum(ch))
            && (r == 2 ==> ch == '@') && (r == 3 ==> ch == '[') && (r == 6 ==> ch == ']') && (r == 7 ==> ch == ':')
  {
    hide NextHostState, HostRank, HostRanks;
    HostRankAt(b, h, i);
    assert h[..i + 1][..i] == h[..i];
    HostBytes(HostAfter(b, h[..i]), h[i]);
  }

  // Which bytes lead to which rank.
  lemma HostBytes(s: HostState, ch: Byte)
    ensures var r := HostRank(NextHostState(s, ch));
            && r != 0 && (r == 8 ==> IsNum(ch))
            && (r == 2 ==> ch == '@') && (r == 3 ==> ch == '[') && (r == 6 ==> ch == ']') && (r == 7 ==> ch == ':')
  {
  }

  lemma UrlBytes(s: UrlState, ch: Byte)
    ensures var r := UrlRank(NextUrlState(s, ch));
            && r != 0 && (r == 2 ==> ch == ':') && (r == 3 ==> ch == '/') && (r == 4 ==> ch == '/')
            && (r == 7 ==> ch == '?') && (r == 9 ==> ch == '#')
            && (r == 6 && s != ReqPath ==> ch == '/' || ch == '*')
  {
  }

  function PortText(connect: bool, url: Bytes): Bytes { Text(connect, url, PORT) }

  lemma PortTextDecimal(connect: bool, url: Bytes)
    requires IsAuthority(Authority(connect, url)) || Authority(connect, url) == []
    ensures IsDecimal(PortText(connect, url))
  {
    hide NextHostState, HostRank, HostRanks, UrlRanks;
    var h, base := Authority(connect, url), UrlPart(connect, url, HOST).off;
    if h == [] {
      assert HostRanks(HostBegin('@' in h), h) == [];
      assert HostPart(h, PORT).len == 0;
    } else {
      PortDigits(h);
      var s := HostPart(h, PORT);
      UrlPartFits(connect, url, HOST);
      SpanFits(connect, url, PORT);
      var t := PortText(connect, url);
      assert t == url[s.off + base..s.off + base + s.len];
      forall i | 0 <= i < |t| ensures IsNum(t[i]) {
        assert t[i] == url[s.off + base + i] == h[s.off + i];
      }
    }
  }

  // The checks behind the automaton: a schema comes with an authority, an authority is well
  // formed, CONNECT has a host and a port and nothing else, and a port is at most 65535.
  predicate Checks(connect: bool, url: Bytes) {
    var h := Authority(connect, url);
    && (Has(connect, url, SCHEMA) ==> h != [])
    && (connect ==> forall f :: Has(connect, url, f) <==> f == HOST || f == PORT)
    && (h == [] || IsAuthority(h))
    && (Has(connect, url, PORT) ==> (PortTextDecimal(connect, url); Decimal(PortText(connect, url)) <= 0xffff))
  }

  // The URLs http_parser_parse_url accepts.
  predicate Parses(connect: bool, url: Bytes) {
    UrlAfter(UrlStart(connect), url) != UrlDead && Checks(connect, url)
  }

  // ---------------------------------------------------------------- decomposition

  // The order of the fields in a URL.
  function Order(f: Field): nat {
    match f
    case SCHEMA => 0
    case USERINFO => 1
    case HOST => 2
    case PORT => 3
    case PATH => 4
    case QUERY => 5
    case FRAGMENT => 6
  }

  function End(s: Span): nat { s.off + s.len }

  // The parts of the URL automaton, in order.
  lemma UrlPartsApart(connect: bool, url: Bytes, f: Field, g: Field)
    requires IsUrlField(f) && IsUrlField(g) && Order(f) < Order(g)
    ensures End(UrlPart(connect, url, f)) <= UrlPart(connect, url, g).off
  {
    hide UrlRanks;
    StretchesApart(UrlRanks(UrlStart(connect), url), Low(f), Low(f) + 1, Low(g), Low(g) + 1);
  }

  lemma HostPartsApart(h: Bytes)
    ensures End(HostPart(h, USERINFO)) <= HostPart(h, HOST).off && End(HostPart(h, HOST)) <= HostPart(h, PORT).off
    ensures End(HostPart(h, PORT)) <= |h|
  {
    hide HostRanks;
    var rs := HostRanks(HostBegin('@' in h), h);
    StretchesApart(rs, 1, 2, 4, 6);
    StretchesApart(rs, 4, 6, 8, 9);
  }

  // Every field lies in the part of the URL automaton it belongs to.
  function PartOf(f: Field): Field { if f == PORT || f == USERINFO then HOST else f }

  lemma SpanInPart(connect: bool, url: Bytes, f: Field)
    ensures var s, t := SpanOf(connect, url, f), UrlPart(connect, url, PartOf(f)); t.off <= s.off && End(s) <= End(t)
  {
    hide UrlRanks, HostRanks;
    UrlPartFits(connect, url, HOST);
    HostPartsApart(Authority(connect, url));
  }

  // The fields are in URL order and do not overlap.
  lemma FieldsApart(connect: bool, url: Bytes, f: Field, g: Field)
    requires Order(f) < Order(g)
    ensures End(SpanOf(connect, url, f)) <= SpanOf(connect, url, g).off
  {
    hide UrlRanks, HostRanks, UrlPart, HostPart, Authority;
    SpanInPart(connect, url, f);
    SpanInPart(connect, url, g);
    if PartOf(f) == PartOf(g) {
      HostPartsApart(Authority(connect, url));
    } else {
      UrlPartsApart(connect, url, PartOf(f), PartOf(g));
    }
  }

  predicate IsDelimiter(ch: Byte) { ch in ":/@[]?#" }

  predicate InField(connect: bool, url: Bytes, f: Field, i: nat) {
    SpanOf(connect, url, f).off <= i < End(SpanOf(connect, url, f))
  }

  lemma HostDelimiters(h: Bytes, j: nat)
    requires IsAuthority(h) && j < |h|
    requires forall f :: f == HOST || f == PORT || f == USERINFO ==> !(HostPart(h, f).off <= j < End(HostPart(h, f)))
    ensures IsDelimiter(h[j])
  {
    hide HostRanks, Stretch, HostAfter;
    var b := HostBegin('@' in h);
    var rs := HostRanks(b, h);
    HostRanksSorted(b, h);
    HostByteAt(b, h, j);
    StretchHolds(rs, 4, 6, j);
    StretchHolds(rs, 8, 9, j);
    StretchHolds(rs, 1, 2, j);
    assert !(HostPart(h, HOST).off <= j < End(HostPart(h, HOST)));
    assert !(HostPart(h, PORT).off <= j < End(HostPart(h, PORT)));
    assert !(HostPart(h, USERINFO).off <= j < End(HostPart(h, USERINFO)));
  }

  // A byte outside the parts of the URL automaton.
  lemma UrlDelimiters(connect: bool, url: Bytes, i: nat)
    requires UrlAfter(UrlStart(connect), url) != UrlDead && i < |url|
    requires forall f :: IsUrlField(f) ==> !(UrlPart(connect, url, f).off <= i < End(UrlPart(connect, url, f)))
    ensures IsDelimiter(url[i])
  {
    hide UrlRanks, Stretch, UrlAfter;
    var b := UrlStart(connect);
    var rs := UrlRanks(b, url);
    UrlRanksSorted(b, url);
    UrlByteAt(b, url, i);
    NotInPart(connect, url, SCHEMA, i);
    NotInPart(connect, url, HOST, i);
    NotInPart(connect, url, PATH, i);
    NotInPart(connect, url, QUERY, i);
    NotInPart(connect, url, FRAGMENT, i);
  }

  lemma NotInPart(connect: bool, url: Bytes, f: Field, i: nat)
    requires i < |url| && IsUrlField(f) && !(UrlPart(connect, url, f).off <= i < End(UrlPart(connect, url, f)))
    ensures UrlRanks(UrlStart(connect), url)[i] != Low(f)
  {
    hide UrlRanks, Stretch;
    UrlRanksSorted(UrlStart(connect), url);
    StretchHolds(UrlRanks(UrlStart(connect), url), Low(f), Low(f) + 1, i);
  }

  lemma UrlByteAt(b: UrlState, url: Bytes, i: nat)
    requires i < |url|
    ensures var r, ch := UrlRanks(b, url)[i], url[i];
            && r != 0 && (r == 2 ==> ch == ':') && (r == 3 ==> ch == '/') && (r == 4 ==> ch == '/')
            && (r == 7 ==> ch == '?') && (r == 9 ==> ch == '#')
  {
    hide NextUrlState, UrlRanks, UrlRank;
    UrlRankAt(b, url, i);
    assert url[..i + 1][..i] == url[..i];
    UrlBytes(UrlAfter(b, url[..i]), url[i]);
  }

  lemma ByteAccounted(connect: bool, url: Bytes, i: nat)
    requires Parses(connect, url) && i < |url|
    ensures (exists f :: InField(connect, url, f, i)) || IsDelimiter(url[i])
  {
    hide NextUrlState, NextHostState, UrlRanks, HostRanks, HostPart, UrlPart, HostAfter;
    if !(exists f :: InField(connect, url, f, i)) {
      assert !InField(connect, url, SCHEMA, i) && !InField(connect, url, PATH, i) && !InField(connect, url, QUERY, i)
             && !InField(connect, url, FRAGMENT, i);
      var t, h := UrlPart(connect, url, HOST), Authority(connect, url);
      UrlPartFits(connect, url, HOST);
      if t.off <= i < End(t) {
        assert !InField(connect, url, HOST, i) && !InField(connect, url, PORT, i);
        assert !InField(connect, url, USERINFO, i);
        HostDelimiters(h, i - t.off);
      } else {
        UrlDelimiters(connect, url, i);
      }
    }
  }

  // The decomposition theorem: in a URL that parses, the fields lie inside it, in URL order and
  // apart from each other, and every byte outside them is a delimiter.
  lemma Decomposition(connect: bool, url: Bytes)
    requires Parses(connect, url)
    ensures forall f :: End(SpanOf(connect, url, f)) <= |url|
    ensures forall f, g :: Order(f) < Order(g) ==> End(SpanOf(connect, url, f)) <= SpanOf(connect, url, g).off
    ensures forall i :: 0 <= i < |url| ==> (exists f :: InField(connect, url, f, i)) || IsDelimiter(url[i])
    ensures Authority(connect, url) != [] ==> Has(connect, url, HOST)
  {
    hide SpanOf, IsDelimiter, InField, UrlAfter, HostAfter;
    forall f ensures End(SpanOf(connect, url, f)) <= |url| {
      SpanFits(connect, url, f);
    }
    forall f, g | Order(f) < Order(g) ensures End(SpanOf(connect, url, f)) <= SpanOf(connect, url, g).off {
      FieldsApart(connect, url, f, g);
    }
    forall i | 0 <= i < |url| ensures (exists f :: InField(connect, url, f, i)) || IsDelimiter(url[i]) {
      ByteAccounted(connect, url, i);
    }
    if Authority(connect, url) != [] {
      AuthorityHasHost(connect, url);
    }
  }

  // A host state is the last of a run that started with one.
  lemma {:induction false} HostSeen(s: HostState, h: Bytes)
    requires HostRank(s) < 4 && 4 <= HostRank(HostAfter(s, h)) < 9
    ensures exists i :: 0 <= i < |h| && 4 <= HostRanks(s, h)[i] < 6
    decreases |h|
  {
    hide HostRank;
    if h != [] {
      var init := h[..|h| - 1];
      var a, b := HostAfter(s, init), HostAfter(s, h);
      var rs := HostRanks(s, h);
      HostEnters(a, h[|h| - 1]);
      if 4 <= HostRank(a) {
        HostSeen(s, init);
        var i :| 0 <= i < |init| && 4 <= HostRanks(s, init)[i] < 6;
        assert rs[i] == HostRanks(s, init)[i];
      } else {
        assert rs[|h| - 1] == HostRank(b);
      }
    }
  }

  lemma HostEnters(s: HostState, ch: Byte)
    ensures HostRank(s) < 4 <= HostRank(NextHostState(s, ch)) < 9 ==> HostRank(NextHostState(s, ch)) == 4
    ensures HostRank(NextHostState(s, ch)) < 9 ==> HostRank(s) < 9
  {
  }

  lemma AuthorityHasHost(connect: bool, url: Bytes)
    requires Authority(connect, url) != [] && IsAuthority(Authority(connect, url))
    ensures Has(connect, url, HOST)
  {
    hide NextHostState, HostRanks, UrlRanks;
    var h := Authority(connect, url);
    var b := HostBegin('@' in h);
    HostSeen(b, h);
    var rs := HostRanks(b, h);
    var i :| 0 <= i < |h| && 4 <= rs[i] < 6;
    HostRanksSorted(b, h);
    StretchHolds(rs, 4, 6, i);
  }

  // ---------------------------------------------------------------- the two scanners

  // A URL the request line may not end in has a schema and no authority.
  lemma OpenHasNoHost(connect: bool, url: Bytes)
    requires url != [] && UrlOpen(UrlAfter(UrlStart(connect), url))
    ensures Has(connect, url, SCHEMA) && Authority(connect, url) == []
  {
    hide NextUrlState, UrlRanks;
    var b := UrlStart(connect);
    var rs := UrlRanks(b, url);
    UrlRanksSorted(b, url);
    UrlRankAt(b, url, 0);
    assert url[..1] == [url[0]] && url[..1][..0] == [];
    FirstRank(connect, url[0]);
    assert 1 <= rs[0] <= 4;
    StretchHolds(rs, 1, 2, 0);
    if UrlPart(connect, url, HOST).len > 0 {
      var i := UrlPart(connect, url, HOST).off;
      UrlPartFits(connect, url, HOST);
      StretchHolds(rs, 5, 6, i);
    }
  }

  lemma FirstRank(connect: bool, ch: Byte)
    ensures var r := UrlRank(NextUrlState(UrlStart(connect), ch)); r == 1 || r >= 5
  {
  }

  // The request line and http_parser_parse_url follow the same automaton: what the one accepts
  // as a URL the other refuses only by its checks, and the other way round.
  lemma ScannersAgree(connect: bool, url: Bytes)
    requires url != []
    ensures Parses(connect, url) <==> IsUrl(connect, url) && Checks(connect, url)
  {
    hide UrlAfter, Authority, SpanOf, IsAuthority;
    if UrlOpen(UrlAfter(UrlStart(connect), url)) {
      OpenHasNoHost(connect, url);
    }
  }
}
