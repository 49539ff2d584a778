/**
 http_parser_parse_url and http_parse_host: the loops that fill in struct http_parser_url.
 */
module UrlParser {
  import opened Basics
  import opened HttpTypes
  import opened HttpStep
  import opened HttpLengths
  import opened UrlStates
  import opened UrlFields
  import opened Intervals

  // Offsets and lengths are uint16_t.
  const U16: nat := 0x1_0000

  function Wrap(s: Span): Span { Span(s.off % U16, s.len % U16) }

  // The ranks of a host, or of an authority, up to i.
  function HostSoFar(at: bool, h: Bytes, i: nat): seq<nat>
    requires i <= |h|
  {
    HostRanks(HostBegin(at), h[..i])
  }

  // The ranks of the field an authority byte can belong to.
  function HostLow(f: Field): nat { if f == HOST then 4 else if f == PORT then 8 else 1 }

  function HostHigh(f: Field): nat { if f == HOST then 6 else if f == PORT then 9 else 2 }

  predicate IsHostField(f: Field) { f == HOST || f == PORT || f == USERINFO }

  function HostSpan(at: bool, h: Bytes, i: nat, f: Field): Span
    requires i <= |h| && IsHostField(f)
  {
    Stretch(HostSoFar(at, h, i), HostLow(f), HostHigh(f))
  }

  // The field a host state belongs to.
  function HostFieldOf(s: HostState): Option<Field> {
    match s
    case Host | HostV6 | HostV6ZoneStart | HostV6Zone => Some(HOST)
    case HostPort => Some(PORT)
    case Userinfo => Some(USERINFO)
    case _ => None
  }

  // Whether the byte from s to t is the first of its field, as the code tests it.
  predicate Enters(s: HostState, t: HostState) {
    match t
    case Host | HostV6 | HostPort | Userinfo => s != t
    case _ => false
  }

  lemma EntersMeans(s: HostState, ch: Byte)
    ensures var t := NextHostState(s, ch);
            HostFieldOf(t).Some? ==> (Enters(s, t) <==> HostRank(s) < HostLow(HostFieldOf(t).value))
    ensures var t := NextHostState(s, ch);
            forall f :: IsHostField(f) ==> (HostFieldOf(t) == Some(f) <==> HostLow(f) <= HostRank(t) < HostHigh(f))
  {
  }

  lemma LastRank(at: bool, h: Bytes, i: nat)
    requires i <= |h|
    ensures Sorted(HostSoFar(at, h, i))
    ensures i > 0 ==> HostSoFar(at, h, i)[i - 1] == HostRank(HostAfter(HostBegin(at), h[..i]))
    ensures |HostSoFar(at, h, i)| == i
  {
    HostRanksSorted(HostBegin(at), h[..i]);
  }

  // What one byte does to the span of a field.
  lemma HostSpanNext(at: bool, h: Bytes, i: nat, f: Field)
    requires i < |h| && IsHostField(f)
    ensures var s := HostAfter(HostBegin(at), h[..i]); var t := NextHostState(s, h[i]);
            && HostAfter(HostBegin(at), h[..i + 1]) == t
            && var x, y := HostSpan(at, h, i, f), HostSpan(at, h, i + 1, f);
               if HostFieldOf(t) != Some(f) then x.len == y.len && (x.len > 0 ==> x == y)
               else if Enters(s, t) then x.len == 0 && y == Span(i, 1)
               else x.len > 0 && y == Span(x.off, x.len + 1)
  {
    hide NextHostState, HostRank, Stretch, HostRanks, Sorted, Enters;
    var s := HostAfter(HostBegin(at), h[..i]);
    var t := NextHostState(s, h[i]);
    HostNext(at, h, i);
    var rs := HostSoFar(at, h, i);
    LastRank(at, h, i);
    LastRank(at, h, i + 1);
    EntersMeans(s, h[i]);
    BeginRank(at, h[i], f);
    StretchStep(rs, HostRank(s), HostRank(t), HostLow(f), HostHigh(f));
  }

  lemma HostNext(at: bool, h: Bytes, i: nat)
    requires i < |h|
    ensures var t := HostAfter(HostBegin(at), h[..i + 1]);
            && t == NextHostState(HostAfter(HostBegin(at), h[..i]), h[i])
            && HostSoFar(at, h, i + 1) == HostSoFar(at, h, i) + [HostRank(t)]
  {
    hide NextHostState, HostRank;
    assert h[..i + 1][..i] == h[..i];
  }

  // At the first byte every field is still to be entered.
  lemma BeginRank(at: bool, ch: Byte, f: Field)
    requires IsHostField(f)
    ensures HostRank(HostBegin(at)) < HostLow(f) || HostRank(NextHostState(HostBegin(at), ch)) >= HostHigh(f)
    ensures HostRank(HostBegin(at)) <= HostRank(NextHostState(HostBegin(at), ch))
  {
  }

  // ---------------------------------------------------------------- the URL automaton's fields

  // The field a state of the URL automaton belongs to.
  function UrlFieldOf(s: UrlState): Option<Field> {
    match s
    case ReqSchema => Some(SCHEMA)
    case ReqServer | ReqServerWithAt => Some(HOST)
    case ReqPath => Some(PATH)
    case ReqQueryString => Some(QUERY)
    case ReqFragment => Some(FRAGMENT)
    case _ => None
  }

  lemma UrlFieldRank(s: UrlState)
    ensures forall f :: IsUrlField(f) ==> (UrlFieldOf(s) == Some(f) <==> Low(f) <= UrlRank(s) < Low(f) + 1)
    ensures UrlFieldOf(s).Some? ==> IsUrlField(UrlFieldOf(s).value)
  {
  }

  lemma UrlNextByte(connect: bool, url: Bytes, i: nat)
    requires i < |url|
    ensures var t := UrlAfter(UrlStart(connect), url[..i + 1]);
            && t == NextUrlState(UrlAfter(UrlStart(connect), url[..i]), url[i])
            && UrlRanks(UrlStart(connect), url[..i + 1]) == UrlRanks(UrlStart(connect), url[..i]) + [UrlRank(t)]
  {
    hide NextUrlState, UrlRank;
    assert url[..i + 1][..i] == url[..i];
  }

  lemma LastUrlRank(connect: bool, url: Bytes)
    ensures Sorted(UrlRanks(UrlStart(connect), url)) && |UrlRanks(UrlStart(connect), url)| == |url|
    ensures url != [] ==>
              UrlRanks(UrlStart(connect), url)[|url| - 1] == UrlRank(UrlAfter(UrlStart(connect), url))
  {
    UrlRanksSorted(UrlStart(connect), url);
  }

  // Whether a byte that leads from s starts field f.
  predicate UrlEnters(s: UrlState, f: Field)
    requires IsUrlField(f)
  {
    UrlRank(s) < Low(f)
  }

  lemma UrlPartNext(connect: bool, url: Bytes, i: nat, f: Field)
    requires i < |url| && IsUrlField(f)
    ensures var s, t := UrlAfter(UrlStart(connect), url[..i]), UrlAfter(UrlStart(connect), url[..i + 1]);
            var x, y := UrlPart(connect, url[..i], f), UrlPart(connect, url[..i + 1], f);
            if UrlFieldOf(t) != Some(f) then x.len == y.len && (x.len > 0 ==> x == y)
            else if UrlEnters(s, f) then x.len == 0 && y == Span(i, 1)
            else x.len > 0 && y == Span(x.off, x.len + 1)
  {
    hide NextUrlState, UrlRank, Stretch, UrlRanks, Sorted;
    var s, t := UrlAfter(UrlStart(connect), url[..i]), UrlAfter(UrlStart(connect), url[..i + 1]);
    UrlNextByte(connect, url, i);
    LastUrlRank(connect, url[..i]);
    LastUrlRank(connect, url[..i + 1]);
    UrlFieldRank(t);
    UrlBeginRank(connect, f);
    StretchStep(UrlRanks(UrlStart(connect), url[..i]), UrlRank(s), UrlRank(t), Low(f), Low(f) + 1);
  }

  lemma UrlBeginRank(connect: bool, f: Field)
    requires IsUrlField(f)
    ensures UrlRank(UrlStart(connect)) < Low(f) || (connect && f == SCHEMA)
    ensures connect ==> UrlRank(UrlStart(connect)) == 4
    ensures forall ch :: UrlRank(UrlStart(connect)) <= UrlRank(NextUrlState(UrlStart(connect), ch))
  {
    forall ch ensures UrlRank(UrlStart(connect)) <= UrlRank(NextUrlState(UrlStart(connect), ch)) {
      UrlRankGrows(UrlStart(connect), ch);
    }
  }

  // A field that has been entered is no higher than the state.
  lemma PartReached(connect: bool, url: Bytes, f: Field)
    requires IsUrlField(f) && UrlPart(connect, url, f).len > 0
    ensures url != [] && Low(f) <= UrlRank(UrlAfter(UrlStart(connect), url))
  {
    hide NextUrlState, UrlRank, Stretch, UrlRanks, Sorted;
    LastUrlRank(connect, url);
    StretchEntered(UrlRanks(UrlStart(connect), url), Low(f), Low(f) + 1);
  }

  lemma NoPartsYet(connect: bool, url: Bytes, f: Field)
    requires url == [] && IsUrlField(f)
    ensures UrlPart(connect, url, f).len == 0
  {
  }

  // The authority grows by the bytes of its states.
  lemma AuthorityNext(connect: bool, url: Bytes, i: nat)
    requires i < |url|
    ensures var t := UrlAfter(UrlStart(connect), url[..i + 1]);
            && Authority(connect, url[..i + 1]) ==
               Authority(connect, url[..i]) + (if UrlFieldOf(t) == Some(HOST) then [url[i]] else [])
            && (UrlFieldOf(t) == Some(HOST) ==> (t == ReqServerWithAt <==> url[i] == '@'))
  {
    hide NextUrlState, UrlPart, UrlEnters;
    UrlNextByte(connect, url, i);
    UrlPartNext(connect, url, i, HOST);
    UrlPartFits(connect, url[..i], HOST);
    UrlPartFits(connect, url[..i + 1], HOST);
    AtState(UrlAfter(UrlStart(connect), url[..i]), url[i]);
    PartAtEnd(connect, url, i);
    var x, y := UrlPart(connect, url[..i], HOST), UrlPart(connect, url[..i + 1], HOST);
    CutPrefix(url, i, x);
    CutPrefix(url, i + 1, y);
    if UrlFieldOf(UrlAfter(UrlStart(connect), url[..i + 1])) == Some(HOST) {
      CutGrows(url, x, y, i);
    } else {
      assert Cut(url, x) == Cut(url, y) + [];
    }
  }

  lemma CutGrows(url: Bytes, x: Span, y: Span, i: nat)
    requires i < |url| && End(y) == i + 1 && End(x) <= i
    requires if x.len == 0 then y == Span(i, 1) else y == Span(x.off, x.len + 1)
    ensures Cut(url, y) == Cut(url, x) + [url[i]]
  {
  }

  lemma CutPrefix(url: Bytes, i: nat, s: Span)
    requires End(s) <= i <= |url|
    ensures Cut(url[..i], s) == Cut(url, s)
  {
  }

  lemma AtState(s: UrlState, ch: Byte)
    ensures var t := NextUrlState(s, ch);
            UrlFieldOf(t) == Some(HOST) ==> (t == ReqServerWithAt <==> ch == '@')
  {
  }

  // While the automaton is in the authority, the authority reaches up to the current byte.
  lemma PartAtEnd(connect: bool, url: Bytes, i: nat)
    requires i < |url|
    ensures UrlFieldOf(UrlAfter(UrlStart(connect), url[..i + 1])) == Some(HOST) ==>
              End(UrlPart(connect, url[..i + 1], HOST)) == i + 1
  {
    hide NextUrlState, UrlRanks;
    var rs := UrlRanks(UrlStart(connect), url[..i + 1]);
    LastUrlRank(connect, url[..i + 1]);
    UrlFieldRank(UrlAfter(UrlStart(connect), url[..i + 1]));
    BelowFirst(rs, 6, i);
  }

  lemma WrapNext(s: Span)
    ensures Wrap(Span(s.off, s.len + 1)) == Span(Wrap(s).off, (Wrap(s).len + 1) % U16)
  {
  }

  lemma WrapSmall(s: Span)
    requires s.off < U16 && s.len < U16
    ensures Wrap(s) == s
  {
  }

  // ---------------------------------------------------------------- the fields of an authority

  // What fields fs and data d hold of the host field f, when i bytes of the authority h, which
  // starts at offset `base`, have been read.
  predicate FieldRead(fs: set<Field>, d: map<Field, Span>, at: bool, h: Bytes, i: nat, base: nat, f: Field)
    requires i <= |h| && IsHostField(f)
  {
    var x := HostSpan(at, h, i, f);
    && f in d
    && (x.len > 0 ==> d[f] == Wrap(Shift(x, base)))
    && (f == HOST && x.len == 0 ==> d[f].len == 0)
    && (f != HOST ==> (f in fs <==> x.len > 0))
  }

  predicate AllRead(fs: set<Field>, d: map<Field, Span>, at: bool, h: Bytes, i: nat, base: nat)
    requires i <= |h|
  {
    && FieldRead(fs, d, at, h, i, base, HOST) && FieldRead(fs, d, at, h, i, base, PORT)
    && FieldRead(fs, d, at, h, i, base, USERINFO)
  }

  // The fields outside the authority are as before.
  predicate Untouched(fs: set<Field>, d: map<Field, Span>, fs0: set<Field>, d0: map<Field, Span>) {
    && d.Keys == d0.Keys && fs - {PORT, USERINFO} == fs0 - {PORT, USERINFO}
    && forall f :: f in d && !IsHostField(f) ==> d[f] == d0[f]
  }

  // What the switch of http_parse_host does to field f.
  predicate Counted(fs: set<Field>, d: map<Field, Span>, fs': set<Field>, d': map<Field, Span>,
                    s: HostState, t: HostState, off: nat, f: Field)
    requires f in d
  {
    && f in d'
    && if HostFieldOf(t) != Some(f) then d'[f] == d[f] && (f in fs' <==> f in fs)
       else if Enters(s, t) then d'[f] == Span(off % U16, if f == HOST then (d[f].len + 1) % U16 else 1) && f in fs'
       else d'[f] == Span(d[f].off, (d[f].len + 1) % U16) && (f in fs' <==> f in fs)
  }

  lemma FieldReadNext(fs: set<Field>, d: map<Field, Span>, fs': set<Field>, d': map<Field, Span>,
                      at: bool, h: Bytes, i: nat, base: nat, f: Field)
    requires i < |h| && IsHostField(f) && FieldRead(fs, d, at, h, i, base, f)
    requires var s := HostAfter(HostBegin(at), h[..i]);
             Counted(fs, d, fs', d', s, NextHostState(s, h[i]), base + i, f)
    ensures FieldRead(fs', d', at, h, i + 1, base, f)
  {
    hide NextHostState, HostAfter, HostSpan, HostFieldOf, Enters;
    HostSpanNext(at, h, i, f);
    var x := HostSpan(at, h, i, f);
    WrapNext(Shift(x, base));
  }

  lemma AllReadNext(fs: set<Field>, d: map<Field, Span>, fs': set<Field>, d': map<Field, Span>,
                    at: bool, h: Bytes, i: nat, base: nat)
    requires i < |h| && AllRead(fs, d, at, h, i, base) && HOST in d && PORT in d && USERINFO in d
    requires var s := HostAfter(HostBegin(at), h[..i]); var t := NextHostState(s, h[i]);
             && Counted(fs, d, fs', d', s, t, base + i, HOST)
             && Counted(fs, d, fs', d', s, t, base + i, PORT)
             && Counted(fs, d, fs', d', s, t, base + i, USERINFO)
    ensures AllRead(fs', d', at, h, i + 1, base)
  {
    hide FieldRead, Counted, NextHostState, HostAfter;
    FieldReadNext(fs, d, fs', d', at, h, i, base, HOST);
    FieldReadNext(fs, d, fs', d', at, h, i, base, PORT);
    FieldReadNext(fs, d, fs', d', at, h, i, base, USERINFO);
  }

  lemma StillUntouched(fs0: set<Field>, d0: map<Field, Span>, fs: set<Field>, d: map<Field, Span>,
                       fs': set<Field>, d': map<Field, Span>)
    requires Untouched(fs, d, fs0, d0) && Untouched(fs', d', fs, d)
    ensures Untouched(fs', d', fs0, d0)
  {
  }

  // ---------------------------------------------------------------- the fields of a URL

  predicate PartRead(fs: set<Field>, d: map<Field, Span>, connect: bool, url: Bytes, f: Field) {
    if IsUrlField(f) then
      var x := UrlPart(connect, url, f); (f in fs <==> x.len > 0) && f in d && (x.len > 0 ==> d[f] == Wrap(x))
    else f !in fs
  }

  predicate UrlRead(fs: set<Field>, d: map<Field, Span>, connect: bool, url: Bytes) {
    forall f :: PartRead(fs, d, connect, url, f)
  }

  // `last` is the field entered last.
  predicate IsLast(fs: set<Field>, last: Option<Field>) {
    match last
    case None => fs == {}
    case Some(g) => IsUrlField(g) && g in fs && forall f :: f in fs ==> IsUrlField(f) && Low(f) <= Low(g)
  }

  // The byte at i belongs to the field entered last exactly if it does not enter its field.
  lemma SameField(fs: set<Field>, d: map<Field, Span>, connect: bool, url: Bytes, i: nat, last: Option<Field>)
    requires i < |url| && UrlRead(fs, d, connect, url[..i]) && IsLast(fs, last)
    ensures var s, t := UrlAfter(UrlStart(connect), url[..i]), UrlAfter(UrlStart(connect), url[..i + 1]);
            UrlFieldOf(t).Some? ==>
              var f := UrlFieldOf(t).value;
              && IsUrlField(f) && (last == Some(f) <==> !UrlEnters(s, f))
              && forall g :: g in fs ==> IsUrlField(g) && Low(g) <= Low(f)
  {
    hide NextUrlState, UrlPart;
    var s, t := UrlAfter(UrlStart(connect), url[..i]), UrlAfter(UrlStart(connect), url[..i + 1]);
    UrlFieldRank(t);
    UrlNextByte(connect, url, i);
    UrlRankGrows(s, url[i]);
    if UrlFieldOf(t).Some? {
      var f := UrlFieldOf(t).value;
      UrlPartNext(connect, url, i, f);
      assert PartRead(fs, d, connect, url[..i], f);
      forall g | g in fs ensures IsUrlField(g) && Low(g) <= UrlRank(s) {
        assert PartRead(fs, d, connect, url[..i], g);
        PartReached(connect, url[..i], g);
      }
    }
  }

  lemma UrlReadNext(fs: set<Field>, d: map<Field, Span>, fs': set<Field>, d': map<Field, Span>,
                    connect: bool, url: Bytes, i: nat)
    requires i < |url| && UrlRead(fs, d, connect, url[..i])
    requires var s, t := UrlAfter(UrlStart(connect), url[..i]), UrlAfter(UrlStart(connect), url[..i + 1]);
             match UrlFieldOf(t)
             case None => fs' == fs && d' == d
             case Some(f) =>
               && IsUrlField(f)
               && if UrlEnters(s, f) then fs' == fs + {f} && d' == d[f := Wrap(Span(i, 1))]
                  else fs' == fs && f in d && d' == d[f := Span(d[f].off, (d[f].len + 1) % U16)]
    ensures UrlRead(fs', d', connect, url[..i + 1])
  {
    hide NextUrlState, UrlPart, UrlAfter, UrlEnters, UrlFieldOf;
    var u, v := url[..i], url[..i + 1];
    forall f ensures PartRead(fs', d', connect, v, f) {
      assert PartRead(fs, d, connect, u, f);
      if IsUrlField(f) {
        UrlPartNext(connect, url, i, f);
        WrapNext(UrlPart(connect, url[..i], f));
      }
    }
  }

  lemma NothingScanned(fs: set<Field>, d: map<Field, Span>, connect: bool, url: Bytes)
    requires fs == {} && (forall f :: IsUrlField(f) ==> f in d) && url == []
    ensures UrlRead(fs, d, connect, url) && Authority(connect, url) == []
  {
    forall f ensures PartRead(fs, d, connect, url, f) {
      if IsUrlField(f) {
        NoPartsYet(connect, url, f);
      }
    }
    UrlPartFits(connect, url, HOST);
  }

  // ---------------------------------------------------------------- struct http_parser_url

  class ParsedUrl {
    var fieldSet: set<Field>
    var port: nat
    var data: map<Field, Span>

    ghost predicate Valid()
      reads this
    {
      forall f: Field :: f in data
    }

    // http_parser_url_init.
    constructor ()
      ensures Valid() && fieldSet == {} && port == 0
    {
      fieldSet, port := {}, 0;
      var z := Span(0, 0);
      data := map[SCHEMA := z, HOST := z, PORT := z, PATH := z, QUERY := z, FRAGMENT := z, USERINFO := z];
      new;
      forall f: Field ensures f in data {
        match f
        case SCHEMA => case HOST => case PORT => case PATH => case QUERY => case FRAGMENT => case USERINFO =>
      }
    }

    // A field begins at offset i.
    method Begin(f: Field, i: nat)
      requires Valid()
      modifies this`fieldSet, this`data
      ensures Valid() && fieldSet == old(fieldSet) + {f} && data == old(data)[f := Wrap(Span(i, 1))]
    {
      data := data[f := Span(i % U16, 1)];
      fieldSet := fieldSet + {f};
    }

    // A field has one more byte.
    method Extend(f: Field)
      requires Valid()
      modifies this`data
      ensures Valid() && data == old(data)[f := Span(old(data)[f].off, (old(data)[f].len + 1) % U16)]
    {
      data := data[f := Span(data[f].off, (data[f].len + 1) % U16)];
    }

    // The loop of http_parser_parse_url: refuses exactly what the automaton refuses, and otherwise
    // finds the parts of the URL, the authority as the host, and whether it holds an '@'.
    method ScanUrl(buf: Bytes, connect: bool) returns (ok: bool, foundAt: bool)
      requires Valid()
      modifies this`fieldSet, this`data
      ensures Valid() && (ok <==> UrlAfter(UrlStart(connect), buf) != UrlDead)
      ensures ok ==> UrlRead(fieldSet, data, connect, buf) && (foundAt <==> '@' in Authority(connect, buf))
    {
      hide NextUrlState, UrlPart, UrlRead, Authority, IsLast, UrlEnters;
      fieldSet, foundAt := {}, false;
      var s, last := UrlStart(connect), None;
      var p := 0;
      assert buf[..0] == [];
      NothingScanned(fieldSet, data, connect, buf[..0]);
      NoneLast();
      while p < |buf|
        invariant p <= |buf| && Valid() && s == UrlAfter(UrlStart(connect), buf[..p]) && s != UrlDead
        invariant UrlRead(fieldSet, data, connect, buf[..p]) && IsLast(fieldSet, last)
        invariant foundAt <==> '@' in Authority(connect, buf[..p])
      {
        var t := NextUrlState(s, buf[p]);
        UrlNextByte(connect, buf, p);
        if t == UrlDead {
          DeadUrl(buf, p + 1, UrlStart(connect));
          return false, foundAt;
        }
        ghost var fs, d := fieldSet, data;
        SameField(fs, d, connect, buf, p, last);
        AuthorityNext(connect, buf, p);
        NeverBack(s, buf[p]);
        var uf := None;
        match t {
          case ReqSchemaSlash | ReqSchemaSlashSlash | ReqServerStart | ReqQueryStringStart | ReqFragmentStart =>
          case ReqSchema => uf := Some(SCHEMA);
          case ReqServerWithAt => foundAt, uf := true, Some(HOST);
          case ReqServer => uf := Some(HOST);
          case ReqPath => uf := Some(PATH);
          case ReqQueryString => uf := Some(QUERY);
          case ReqFragment => uf := Some(FRAGMENT);
          case _ => assert false;
        }
        if uf != None {
          if uf == last {
            Extend(uf.value);
          } else {
            Begin(uf.value, p);
            last := uf;
            NowLast(fs, fieldSet, uf.value);
          }
        }
        UrlReadNext(fs, d, fieldSet, data, connect, buf, p);
        s := t;
        p := p + 1;
      }
      assert buf[..p] == buf;
      ok := true;
    }

    // What a successful parse leaves behind.
    ghost predicate Holds(connect: bool, url: Bytes)
      requires Parses(connect, url)
      reads this
    {
      && (forall f :: Found(fieldSet, data, connect, url, f))
      && (if Has(connect, url, PORT) then
            PortTextDecimal(connect, url);
            port == Decimal(PortText(connect, url))
          else port == 0)
    }

    // The part of http_parser_parse_url up to the connect check.
    method FindFields(buf: Bytes, connect: bool) returns (ok: bool)
      requires Valid()
      modifies this`fieldSet, this`data
      ensures Valid()
      ensures ok && PORT in fieldSet ==> data[PORT].off <= |buf|
      ensures |buf| < U16 ==>
                (ok <==> && UrlAfter(UrlStart(connect), buf) != UrlDead
                         && (Has(connect, buf, SCHEMA) ==> Authority(connect, buf) != [])
                         && (Authority(connect, buf) == [] || IsAuthority(Authority(connect, buf))))
      ensures |buf| < U16 && ok ==> forall f :: Found(fieldSet, data, connect, buf, f)
    {
      hide UrlRead, Authority, UrlPart, HostPart, HostAfter, UrlAfter, AllRead, Untouched, Found, SpanOf, Has;
      var foundAt;
      ok, foundAt := ScanUrl(buf, connect);
      if !ok {
        return;
      }
      ghost var fs, d := fieldSet, data;
      PartBounds(fs, d, connect, buf);
      if SCHEMA in fieldSet && HOST !in fieldSet {
        return false;
      }
      if HOST in fieldSet {
        ok := ParseHost(buf, foundAt);
        if ok && PORT in fieldSet {
          HostOffsets(fieldSet, data, foundAt, Cut(buf, d[HOST]), d[HOST].off);
        }
        if ok && |buf| < U16 {
          CutAuthority(connect, buf);
          forall f ensures Found(fieldSet, data, connect, buf, f) {
            if IsHostField(f) {
              OneRead(fieldSet, data, foundAt, Authority(connect, buf), d[HOST].off, f);
              HostFound(fieldSet, data, connect, buf, f);
            } else {
              PartFound(fs, d, fieldSet, data, connect, buf, f);
            }
          }
        } else if |buf| < U16 {
          CutAuthority(connect, buf);
        }
      } else {
        SameUntouched(fs, d);
        forall f | |buf| < U16 ensures Found(fieldSet, data, connect, buf, f) {
          if IsHostField(f) {
            NoHostFound(fs, d, connect, buf, f);
          } else {
            PartFound(fs, d, fs, d, connect, buf, f);
          }
        }
      }
    }

    // http_parser_parse_url: zero exactly for the URLs that parse, and then every field is found.
    method ParseUrl(buf: Bytes, connect: bool) returns (rc: nat)
      requires Valid()
      modifies this`fieldSet, this`data, this`port
      ensures Valid()
      ensures |buf| < U16 ==> (rc == 0 <==> Parses(connect, buf))
      ensures |buf| < U16 && rc == 0 ==> Holds(connect, buf)
    {
      hide Authority, SpanOf, UrlAfter, IsAuthority, PortText, Decimal;
      port := 0;
      var ok := FindFields(buf, connect);
      if !ok {
        return 1;
      }
      if |buf| < U16 {
        assert forall f :: f in fieldSet <==> Has(connect, buf, f) by {
          forall f ensures f in fieldSet <==> Has(connect, buf, f) {
            assert Found(fieldSet, data, connect, buf, f);
          }
        }
      }
      if connect && fieldSet != {HOST, PORT} {
        return 1;
      }
      if PORT in fieldSet {
        var v, end := StrToUl(buf, data[PORT].off);
        if |buf| < U16 {
          assert Found(fieldSet, data, connect, buf, PORT);
          PortNeedsHost(connect, buf);
          PortRun(connect, buf, end);
          PortTextDecimal(connect, buf);
        }
        if v > 0xffff {
          return 1;
        }
        port := v;
      }
      rc := 0;
    }

    // The switch of http_parse_host, on the byte at offset `off` that leads from s to t.
    method CountHostByte(s: HostState, t: HostState, off: nat)
      requires Valid() && HOST in fieldSet
      modifies this`fieldSet, this`data
      ensures Valid() && HOST in fieldSet && Untouched(fieldSet, data, old(fieldSet), old(data))
      ensures Counted(old(fieldSet), old(data), fieldSet, data, s, t, off, HOST)
      ensures Counted(old(fieldSet), old(data), fieldSet, data, s, t, off, PORT)
      ensures Counted(old(fieldSet), old(data), fieldSet, data, s, t, off, USERINFO)
    {
      hide Untouched;
      match t {
        case Host | HostV6 | HostV6ZoneStart | HostV6Zone => CountHost(s, t, off);
        case HostPort =>
          if s != HostPort { Begin(PORT, off); } else { Extend(PORT); }
          OneChanged(old(fieldSet), old(data), PORT, data[PORT]);
        case Userinfo =>
          if s != Userinfo { Begin(USERINFO, off); } else { Extend(USERINFO); }
          OneChanged(old(fieldSet), old(data), USERINFO, data[USERINFO]);
        case _ => OneChanged(fieldSet, data, HOST, data[HOST]);
      }
    }

    // A byte of the host itself; only the states after '[' and at the first byte set its offset.
    method CountHost(s: HostState, t: HostState, off: nat)
      requires Valid() && HOST in fieldSet && HostFieldOf(t) == Some(HOST)
      modifies this`data
      ensures Valid() && Untouched(fieldSet, data, fieldSet, old(data))
      ensures data == old(data)[HOST := Span(if Enters(s, t) then off % U16 else old(data)[HOST].off,
                                             (old(data)[HOST].len + 1) % U16)]
    {
      if (t == Host || t == HostV6) && s != t {
        data := data[HOST := Span(off % U16, data[HOST].len)];
      }
      Extend(HOST);
    }

    // http_parse_host: refuses exactly what is no authority, and otherwise finds the user
    // information, the host and the port in it.
    method ParseHost(buf: Bytes, foundAt: bool) returns (ok: bool)
      requires Valid() && HOST in fieldSet && PORT !in fieldSet && USERINFO !in fieldSet
      requires End(data[HOST]) <= |buf|
      modifies this`fieldSet, this`data
      ensures Valid() && Untouched(fieldSet, data, old(fieldSet), old(data)) && HOST in fieldSet
      ensures var h := Cut(buf, old(data[HOST]));
              && (ok <==> HostEnds(HostAfter(HostBegin(foundAt), h)))
              && (ok ==> AllRead(fieldSet, data, foundAt, h, |h|, old(data[HOST]).off))
    {
      hide NextHostState, HostAfter, AllRead, Untouched, Counted, HostRanks;
      var base, end := data[HOST].off, data[HOST].off + data[HOST].len;
      ghost var h := Cut(buf, data[HOST]);
      data := data[HOST := Span(base, 0)];
      var s := HostBegin(foundAt);
      var p := base;
      NothingRead(fieldSet, data, foundAt, h, base);
      OneChanged(old(fieldSet), old(data), HOST, Span(base, 0));
      NothingAfter(HostBegin(foundAt), h);
      while p < end
        invariant base <= p <= end && Valid() && HOST in fieldSet
        invariant s == HostAfter(HostBegin(foundAt), h[..p - base])
        invariant Untouched(fieldSet, data, old(fieldSet), old(data))
        invariant AllRead(fieldSet, data, foundAt, h, p - base, base)
      {
        ghost var i := p - base;
        assert h[i] == buf[p];
        var t := NextHostState(s, buf[p]);
        ghost var fs, d := fieldSet, data;
        HostNext(foundAt, h, i);
        if t == HostDead {
          HostStaysDead(HostBegin(foundAt), h, i + 1);
          return false;
        }
        CountHostByte(s, t, p);
        AllReadNext(fs, d, fieldSet, data, foundAt, h, i, base);
        StillUntouched(old(fieldSet), old(data), fs, d, fieldSet, data);
        s := t;
        p := p + 1;
      }
      assert h[..|h|] == h;
      ok := s == Host || s == HostV6End || s == HostPort;
    }
  }

  // ---------------------------------------------------------------- the port

  function Saturated(n: nat): nat { if n > ULLONG_MAX then ULLONG_MAX else n }

  // strtoul in base 10, on the part of the memory that is the buffer.
  method StrToUl(buf: Bytes, from: nat) returns (v: nat, end: nat)
    requires from <= |buf|
    ensures from <= end <= |buf| && IsDecimal(buf[from..end]) && (end < |buf| ==> !IsNum(buf[end]))
    ensures ' ' !in buf[from..end] && v == Saturated(Decimal(buf[from..end]))
  {
    var p := from;
    v := 0;
    assert buf[from..from] == [];
    while p < |buf| && IsNum(buf[p])
      invariant from <= p <= |buf| && IsDecimal(buf[from..p]) && ' ' !in buf[from..p] && v == Decimal(buf[from..p])
    {
      assert buf[from..p + 1][..p - from] == buf[from..p];
      v := v * 10 + DigitOf(buf[p]);
      p := p + 1;
    }
    v, end := Saturated(v), p;
  }

  // Behind an authority comes the path, the query or nothing.
  lemma AfterAuthority(connect: bool, url: Bytes)
    requires UrlAfter(UrlStart(connect), url) != UrlDead && UrlPart(connect, url, HOST).len > 0
    ensures var e := End(UrlPart(connect, url, HOST)); e < |url| ==> url[e] == '/' || url[e] == '?'
  {
    hide NextUrlState, UrlRank, UrlRanks, Sorted, Stretch, UrlAfter;
    var b := UrlStart(connect);
    var e := End(UrlPart(connect, url, HOST));
    UrlRanksSorted(b, url);
    StretchEnds(UrlRanks(b, url), 5, 6);
    if e < |url| {
      UrlRankAt(b, url, e - 1);
      UrlRankAt(b, url, e);
      RankOfDead(UrlAfter(b, url), UrlAfter(b, url[..e + 1]));
      AfterOne(b, url, e);
      LeavesAuthority(UrlAfter(b, url[..e]), url[e]);
    }
  }

  lemma AfterOne(s: UrlState, url: Bytes, i: nat)
    requires i < |url|
    ensures UrlAfter(s, url[..i + 1]) == NextUrlState(UrlAfter(s, url[..i]), url[i])
  {
    hide NextUrlState;
    assert url[..i + 1][..i] == url[..i];
  }

  lemma RankOfDead(s: UrlState, t: UrlState)
    ensures s != UrlDead && UrlRank(t) <= UrlRank(s) ==> t != UrlDead
  {
  }

  lemma LeavesAuthority(s: UrlState, ch: Byte)
    requires UrlRank(s) == 5 && UrlRank(NextUrlState(s, ch)) > 5 && NextUrlState(s, ch) != UrlDead
    ensures ch == '/' || ch == '?'
  {
  }

  // The port reaches up to the end of the authority.
  lemma PortAtEnd(h: Bytes)
    requires HostAfter(HostBegin('@' in h), h) != HostDead
    ensures End(HostPart(h, PORT)) == |h|
  {
    hide NextHostState, HostRanks;
    var b := HostBegin('@' in h);
    var rs := HostRanks(b, h);
    HostRanksSorted(b, h);
    if h != [] {
      BelowFirst(rs, 9, |h| - 1);
    }
    BelowMonotone(rs, 8, 9);
  }

  // The digits from the port's offset on are the port.
  lemma PortRun(connect: bool, url: Bytes, end: nat)
    requires UrlAfter(UrlStart(connect), url) != UrlDead && IsAuthority(Authority(connect, url))
    requires Has(connect, url, PORT)
    requires var o := SpanOf(connect, url, PORT).off;
             o <= end <= |url| && IsDecimal(url[o..end]) && ' ' !in url[o..end] && (end < |url| ==> !IsNum(url[end]))
    ensures url[SpanOf(connect, url, PORT).off..end] == PortText(connect, url)
  {
    hide UrlPart, HostPart, HostAfter, UrlAfter;
    var h, t, x := Authority(connect, url), UrlPart(connect, url, HOST), SpanOf(connect, url, PORT);
    UrlPartFits(connect, url, HOST);
    AuthorityEnds(h);
    PortDigits(h);
    PortAtEnd(h);
    SpanFits(connect, url, PORT);
    assert End(x) == End(t);
    AfterAuthority(connect, url);
    assert forall k :: x.off <= k < End(x) ==> url[k] == h[k - t.off];
    assert forall k :: x.off <= k < end ==> url[k] == url[x.off..end][k - x.off];
  }

  lemma AuthorityEnds(h: Bytes)
    requires IsAuthority(h)
    ensures HostAfter(HostBegin('@' in h), h) != HostDead
  {
  }

  lemma NoneLast()
    ensures IsLast({}, None)
  {
  }

  lemma NowLast(fs: set<Field>, fs': set<Field>, f: Field)
    requires IsUrlField(f) && fs' == fs + {f} && forall g :: g in fs ==> IsUrlField(g) && Low(g) <= Low(f)
    ensures IsLast(fs', Some(f))
  {
  }

  lemma OneChanged(fs: set<Field>, d: map<Field, Span>, f: Field, x: Span)
    requires IsHostField(f) && f in d && HOST in fs
    ensures Untouched(fs, d[f := x], fs, d) && Untouched(fs + {f}, d[f := x], fs, d)
    ensures d[f := d[f]] == d
  {
  }

  // ---------------------------------------------------------------- the whole URL

  lemma PortNeedsHost(connect: bool, url: Bytes)
    requires Has(connect, url, PORT) && (Authority(connect, url) == [] || IsAuthority(Authority(connect, url)))
    ensures IsAuthority(Authority(connect, url))
  {
    EmptyAuthority(PORT);
  }

  lemma EmptyAuthority(f: Field)
    requires IsHostField(f)
    ensures HostPart([], f).len == 0
  {
  }

  lemma SameUntouched(fs: set<Field>, d: map<Field, Span>)
    ensures Untouched(fs, d, fs, d)
  {
  }

  lemma CutAuthority(connect: bool, url: Bytes)
    ensures UrlPart(connect, url, HOST).off + UrlPart(connect, url, HOST).len <= |url|
    ensures Cut(url, UrlPart(connect, url, HOST)) == Authority(connect, url)
  {
    UrlPartFits(connect, url, HOST);
  }

  lemma OneRead(fs: set<Field>, d: map<Field, Span>, at: bool, h: Bytes, base: nat, f: Field)
    requires IsHostField(f) && AllRead(fs, d, at, h, |h|, base)
    ensures FieldRead(fs, d, at, h, |h|, base, f)
  {
  }

  lemma HostOffsets(fs: set<Field>, d: map<Field, Span>, at: bool, h: Bytes, base: nat)
    requires AllRead(fs, d, at, h, |h|, base) && PORT in fs
    ensures PORT in d && d[PORT].off <= base + |h|
  {
    hide HostRanks, HostBegin;
    var rs := HostSoFar(at, h, |h|);
    assert |rs| == |h|;
    BelowMonotone(rs, 8, 9);
  }

  lemma PartBounds(fs: set<Field>, d: map<Field, Span>, connect: bool, url: Bytes)
    requires UrlRead(fs, d, connect, url)
    ensures PORT !in fs && USERINFO !in fs
    ensures HOST in fs ==> HOST in d && End(d[HOST]) <= |url|
    ensures HOST in fs <==> Authority(connect, url) != []
    ensures SCHEMA in fs <==> Has(connect, url, SCHEMA)
    ensures |url| < U16 && HOST in fs ==> d[HOST] == UrlPart(connect, url, HOST)
  {
    hide UrlPart;
    assert PartRead(fs, d, connect, url, PORT) && PartRead(fs, d, connect, url, USERINFO);
    assert PartRead(fs, d, connect, url, HOST) && PartRead(fs, d, connect, url, SCHEMA);
    UrlPartFits(connect, url, HOST);
    if |url| < U16 {
      WrapSmall(UrlPart(connect, url, HOST));
    }
  }

  predicate Found(fs: set<Field>, d: map<Field, Span>, connect: bool, url: Bytes, f: Field) {
    (f in fs <==> Has(connect, url, f)) && f in d && (Has(connect, url, f) ==> d[f] == SpanOf(connect, url, f))
  }

  lemma HostWhole(h: Bytes, f: Field)
    requires IsHostField(f)
    ensures HostSpan('@' in h, h, |h|, f) == HostPart(h, f)
  {
    hide HostRanks;
    assert h[..|h|] == h;
  }

  // The fields of the authority are found.
  lemma HostFound(fs: set<Field>, d: map<Field, Span>, connect: bool, url: Bytes, f: Field)
    requires |url| < U16 && IsHostField(f) && IsAuthority(Authority(connect, url))
    requires var h := Authority(connect, url);
             h != [] && FieldRead(fs, d, '@' in h, h, |h|, UrlPart(connect, url, HOST).off, f)
    requires UrlAfter(UrlStart(connect), url) != UrlDead && HOST in fs
    ensures Found(fs, d, connect, url, f)
  {
    hide UrlPart, HostPart, HostSpan, IsAuthority;
    var h := Authority(connect, url);
    HostWhole(h, f);
    SpanFits(connect, url, f);
    var x := SpanOf(connect, url, f);
    if x.len > 0 {
      WrapSmall(x);
    }
    if f == HOST {
      AuthorityHasHost(connect, url);
    }
  }

  // The fields outside the authority are found.
  lemma PartFound(fs: set<Field>, d: map<Field, Span>, fs': set<Field>, d': map<Field, Span>,
                  connect: bool, url: Bytes, f: Field)
    requires |url| < U16 && !IsHostField(f) && UrlRead(fs, d, connect, url) && Untouched(fs', d', fs, d)
    ensures Found(fs', d', connect, url, f)
  {
    hide UrlPart;
    assert PartRead(fs, d, connect, url, f);
    UrlPartFits(connect, url, f);
    WrapSmall(UrlPart(connect, url, f));
    assert f in fs' <==> f in fs' - {PORT, USERINFO};
    assert f in fs <==> f in fs - {PORT, USERINFO};
  }

  // A URL without an authority has none of its fields.
  lemma NoHostFound(fs: set<Field>, d: map<Field, Span>, connect: bool, url: Bytes, f: Field)
    requires IsHostField(f) && UrlRead(fs, d, connect, url) && HOST !in fs && f in d
    ensures Found(fs, d, connect, url, f) && !Has(connect, url, f)
  {
    hide UrlPart;
    PartBounds(fs, d, connect, url);
    EmptyAuthority(f);
  }

  lemma NothingRead(fs: set<Field>, d: map<Field, Span>, at: bool, h: Bytes, base: nat)
    requires PORT !in fs && USERINFO !in fs && HOST in d && PORT in d && USERINFO in d && d[HOST].len == 0
    ensures AllRead(fs, d, at, h, 0, base)
  {
    assert h[..0] == [];
  }

  lemma NothingAfter(b: HostState, h: Bytes)
    ensures HostAfter(b, h[..0]) == b
  {
    assert h[..0] == [];
  }

  lemma {:induction false} HostStaysDead(b: HostState, h: Bytes, i: nat)
    requires i <= |h| && HostAfter(b, h[..i]) == HostDead
    ensures HostAfter(b, h) == HostDead
    decreases |h|
  {
    if i == |h| {
      assert h[..i] == h;
    } else {
      assert h[..|h| - 1][..i] == h[..i];
      HostStaysDead(b, h[..|h| - 1], i);
    }
  }
}
