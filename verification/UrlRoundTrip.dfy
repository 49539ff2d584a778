/**
 Printing a URL from its components and parsing it again.
 */
module UrlRoundTrip {
  import opened HttpTypes
  import opened HttpStep
  import opened HttpLengths
  import opened UrlStates
  import opened UrlFields
  import opened Intervals

  // ---------------------------------------------------------------- components

  // Absent components are empty.
  datatype HostName = Name(name: Bytes) | V6(addr: Bytes, zone: Bytes)

  datatype Auth = Auth(userinfo: Bytes, host: HostName, port: Bytes)

  datatype Tail = Tail(path: Bytes, query: Bytes, fragment: Bytes)

  // The absolute form, the origin form and, for CONNECT, the authority form of a request target.
  datatype Target = Absolute(schema: Bytes, auth: Auth, tail: Tail) | Origin(tail: Tail) | Connect(auth: Auth)

  function Prefixed(mark: Byte, s: Bytes): Bytes { if s == [] then [] else [mark] + s }

  // The host as it is reported: brackets are dropped, a zone is kept.
  function HostText(h: HostName): Bytes {
    match h
    case Name(name) => name
    case V6(addr, zone) => addr + Prefixed('%', zone)
  }

  function PrintHost(h: HostName): Bytes { if h.Name? then h.name else "[" + (HostText(h) + "]") }

  function PrintAuth(a: Auth): Bytes {
    (if a.userinfo == [] then [] else a.userinfo + "@") + (PrintHost(a.host) + Prefixed(':', a.port))
  }

  function PrintTail(t: Tail): Bytes { t.path + (Prefixed('?', t.query) + Prefixed('#', t.fragment)) }

  function Print(u: Target): Bytes {
    match u
    case Absolute(schema, auth, tail) => schema + ("://" + (PrintAuth(auth) + PrintTail(tail)))
    case Origin(tail) => PrintTail(tail)
    case Connect(auth) => PrintAuth(auth)
  }

  predicate IsSchema(s: Bytes) { s != [] && forall i :: 0 <= i < |s| ==> IsAlpha(s[i]) }

  predicate IsHost(h: HostName) {
    match h
    case Name(name) => name != [] && forall i :: 0 <= i < |name| ==> IsHostChar(name[i])
    case V6(addr, zone) =>
      && addr != [] && (forall i :: 0 <= i < |addr| ==> IsHex(addr[i]) || addr[i] == ':' || addr[i] == '.')
      && forall i :: 0 <= i < |zone| ==> IsZoneChar(zone[i])
  }

  predicate IsPort(p: Bytes) {
    (forall i :: 0 <= i < |p| ==> IsNum(p[i])) && IsDecimal(p) && Decimal(p) <= 0xffff
  }

  predicate IsAuth(a: Auth) {
    (forall i :: 0 <= i < |a.userinfo| ==> IsUserinfoChar(a.userinfo[i])) && IsHost(a.host) && IsPort(a.port)
  }

  predicate IsTail(t: Tail) {
    && (forall i :: 0 <= i < |t.path| ==> IsUrlChar(t.path[i]))
    && (forall i :: 0 <= i < |t.query| ==> IsUrlChar(t.query[i]) || t.query[i] == '?')
    && (forall i :: 0 <= i < |t.fragment| ==> IsUrlChar(t.fragment[i]) || t.fragment[i] == '?' || t.fragment[i] == '#')
    && (t.fragment != [] ==> t.fragment[0] != '#' && (t.path != [] || t.query != []))
  }

  predicate IsTarget(u: Target) {
    match u
    case Absolute(schema, auth, tail) =>
      IsSchema(schema) && IsAuth(auth) && IsTail(tail) && (tail.path != [] ==> tail.path[0] == '/')
    case Origin(tail) => IsTail(tail) && tail.path != [] && (tail.path[0] == '/' || tail.path[0] == '*')
    case Connect(auth) => IsAuth(auth) && auth.userinfo == [] && auth.port != []
  }

  // ---------------------------------------------------------------- runs of the URL automaton

  lemma {:induction false} UrlConcat(s: UrlState, a: Bytes, b: Bytes)
    ensures UrlAfter(s, a + b) == UrlAfter(UrlAfter(s, a), b)
    ensures UrlRanks(s, a + b) == UrlRanks(s, a) + UrlRanks(UrlAfter(s, a), b)
    decreases |b|
  {
    hide NextUrlState, UrlRank;
    if b == [] {
      assert a + b == a;
    } else {
      assert (a + b)[..|a + b| - 1] == a + b[..|b| - 1];
      UrlConcat(s, a, b[..|b| - 1]);
    }
  }

  // w takes s to t, by bytes that all have t's rank.
  predicate Leads(s: UrlState, w: Bytes, t: UrlState, ranks: seq<nat>) {
    UrlAfter(s, w) == t && UrlRanks(s, w) == ranks
  }

  lemma LeadsOn(s: UrlState, a: Bytes, t: UrlState, ra: seq<nat>, b: Bytes, u: UrlState, rb: seq<nat>)
    requires Leads(s, a, t, ra) && Leads(t, b, u, rb)
    ensures Leads(s, a + b, u, ra + rb)
  {
    hide UrlAfter, UrlRanks;
    UrlConcat(s, a, b);
  }

  lemma LeadsNowhere(s: UrlState)
    ensures Leads(s, [], s, [])
  {
  }

  lemma LeadsByte(s: UrlState, ch: Byte)
    ensures Leads(s, [ch], NextUrlState(s, ch), [UrlRank(NextUrlState(s, ch))])
  {
    hide NextUrlState, UrlRank;
    assert [ch][..|[ch]| - 1] == [];
    assert UrlRanks(s, []) == [] && UrlAfter(s, []) == s;
  }

  // Bytes that keep the automaton in t, once it is there.
  lemma {:induction false} LeadsAlong(s: UrlState, w: Bytes, t: UrlState)
    requires w != [] && NextUrlState(s, w[0]) == t && forall i :: 0 < i < |w| ==> NextUrlState(t, w[i]) == t
    ensures Leads(s, w, t, Repeat(UrlRank(t), |w|))
    decreases |w|
  {
    hide NextUrlState, UrlRank;
    var v, ch := w[..|w| - 1], w[|w| - 1];
    assert w == v + [ch];
    if v == [] {
      assert w == [ch];
      LeadsByte(s, ch);
      assert Repeat(UrlRank(t), 1) == [UrlRank(t)];
    } else {
      LeadsAlong(s, v, t);
      LeadsByte(t, ch);
      LeadsOn(s, v, t, Repeat(UrlRank(t), |v|), [ch], t, [UrlRank(t)]);
    }
  }

  lemma {:induction false} RepeatConcat(k: nat, m: nat, n: nat)
    ensures Repeat(k, m) + Repeat(k, n) == Repeat(k, m + n)
  {
  }

  lemma SchemaLeads(schema: Bytes)
    requires IsSchema(schema)
    ensures Leads(ReqSpacesBeforeUrl, schema + "://", ReqServerStart, Repeat(1, |schema|) + [2, 3, 4])
  {
    hide Leads, Repeat;
    forall i | 0 <= i < |schema|
      ensures NextUrlState(ReqSpacesBeforeUrl, schema[i]) == ReqSchema == NextUrlState(ReqSchema, schema[i])
    {
      LetterLeads(schema[i]);
    }
    LeadsAlong(ReqSpacesBeforeUrl, schema, ReqSchema);
    LeadsByte(ReqSchema, ':');
    LeadsByte(ReqSchemaSlash, '/');
    LeadsByte(ReqSchemaSlashSlash, '/');
    LeadsOn(ReqSchema, ":", ReqSchemaSlash, [2], "/", ReqSchemaSlashSlash, [3]);
    LeadsOn(ReqSchema, ":" + "/", ReqSchemaSlashSlash, [2] + [3], "/", ReqServerStart, [4]);
    assert ":" + "/" + "/" == "://" && [2] + [3] + [4] == [2, 3, 4];
    LeadsOn(ReqSpacesBeforeUrl, schema, ReqSchema, Repeat(1, |schema|), "://", ReqServerStart, [2, 3, 4]);
  }

  lemma LetterLeads(ch: Byte)
    requires IsAlpha(ch)
    ensures NextUrlState(ReqSpacesBeforeUrl, ch) == ReqSchema == NextUrlState(ReqSchema, ch)
  {
  }

  // The bytes of an authority other than '@'.
  predicate IsServerChar(ch: Byte) { IsUserinfoChar(ch) || ch == '[' || ch == ']' }

  lemma ServerLeads(s: UrlState, ch: Byte)
    requires (s == ReqServerStart || s == ReqServer || s == ReqServerWithAt) && IsServerChar(ch)
    ensures NextUrlState(s, ch) == ReqServer && ch != '@'
  {
  }

  lemma ServerRun(s: UrlState, w: Bytes)
    requires s == ReqServerStart || s == ReqServer || s == ReqServerWithAt
    requires w != [] && forall i :: 0 <= i < |w| ==> IsServerChar(w[i])
    ensures Leads(s, w, ReqServer, Repeat(5, |w|))
  {
    hide IsServerChar, NextUrlState, Leads;
    forall i | 0 <= i < |w| ensures NextUrlState(s, w[i]) == ReqServer == NextUrlState(ReqServer, w[i]) {
      ServerLeads(s, w[i]);
      ServerLeads(ReqServer, w[i]);
    }
    LeadsAlong(s, w, ReqServer);
  }

  // The part of an authority behind the user information.
  function HostAndPort(a: Auth): Bytes { PrintHost(a.host) + Prefixed(':', a.port) }

  lemma HostFits(a: Auth)
    requires IsAuth(a)
    ensures PrintHost(a.host) != [] && forall i :: 0 <= i < |PrintHost(a.host)| ==> IsServerChar(PrintHost(a.host)[i])
  {
    var h := PrintHost(a.host);
    forall i | 0 <= i < |h| ensures IsServerChar(h[i]) {
    }
  }

  lemma PortFits(a: Auth)
    requires IsAuth(a)
    ensures forall i :: 0 <= i < |Prefixed(':', a.port)| ==> IsServerChar(Prefixed(':', a.port)[i])
  {
  }

  lemma HostBytesFit(a: Auth)
    requires IsAuth(a)
    ensures HostAndPort(a) != [] && forall i :: 0 <= i < |HostAndPort(a)| ==> IsServerChar(HostAndPort(a)[i])
  {
    hide IsServerChar, PrintHost, Prefixed;
    HostFits(a);
    PortFits(a);
  }

  lemma AuthLeads(a: Auth)
    requires IsAuth(a)
    ensures Leads(ReqServerStart, PrintAuth(a), ReqServer, Repeat(5, |PrintAuth(a)|))
  {
    hide IsServerChar, Leads, HostAndPort, NextUrlState;
    HostBytesFit(a);
    var u, hp := a.userinfo, HostAndPort(a);
    assert PrintAuth(a) == (if u == [] then [] else u + "@") + hp by { AuthParts(a); }
    if u == [] {
      assert PrintAuth(a) == hp;
      ServerRun(ReqServerStart, hp);
    } else {
      forall i | 0 <= i < |u| ensures IsServerChar(u[i]) {
        UserinfoFits(u[i]);
      }
      ServerRun(ReqServerStart, u);
      AtLeads();
      LeadsByte(ReqServer, '@');
      LeadsOn(ReqServerStart, u, ReqServer, Repeat(5, |u|), "@", ReqServerWithAt, [5]);
      ServerRun(ReqServerWithAt, hp);
      LeadsOn(ReqServerStart, u + "@", ReqServerWithAt, Repeat(5, |u|) + [5], hp, ReqServer, Repeat(5, |hp|));
      assert Repeat(5, |u|) + [5] == Repeat(5, |u| + 1);
      RepeatConcat(5, |u| + 1, |hp|);
    }
  }

  lemma AuthParts(a: Auth)
    ensures PrintAuth(a) == (if a.userinfo == [] then [] else a.userinfo + "@") + HostAndPort(a)
  {
  }

  lemma UserinfoFits(ch: Byte)
    requires IsUserinfoChar(ch)
    ensures IsServerChar(ch)
  {
  }

  lemma AtLeads()
    ensures NextUrlState(ReqServer, '@') == ReqServerWithAt
  {
  }

  // ---------------------------------------------------------------- path, query and fragment

  function MarkedRanks(mark: nat, s: Bytes): seq<nat> {
    if s == [] then [] else [mark] + Repeat(mark + 1, |s|)
  }

  function TailRanks(t: Tail): seq<nat> {
    Repeat(6, |t.path|) + (MarkedRanks(7, t.query) + MarkedRanks(9, t.fragment))
  }

  lemma PathLeads(s: UrlState, path: Bytes)
    requires path != [] && (path[0] == '/' || (path[0] == '*' && s == ReqSpacesBeforeUrl))
    requires s == ReqServer || s == ReqSpacesBeforeUrl
    requires forall i :: 0 <= i < |path| ==> IsUrlChar(path[i])
    ensures Leads(s, path, ReqPath, Repeat(6, |path|))
  {
    hide Leads;
    forall i | 0 < i < |path| ensures NextUrlState(ReqPath, path[i]) == ReqPath {
      PathStays(path[i]);
    }
    LeadsAlong(s, path, ReqPath);
  }

  lemma PathStays(ch: Byte)
    requires IsUrlChar(ch)
    ensures NextUrlState(ReqPath, ch) == ReqPath
  {
  }

  lemma QueryLeads(s: UrlState, query: Bytes)
    requires query != [] && (s == ReqServer || s == ReqPath)
    requires forall i :: 0 <= i < |query| ==> IsUrlChar(query[i]) || query[i] == '?'
    ensures Leads(s, Prefixed('?', query), ReqQueryString, MarkedRanks(7, query))
  {
    hide Leads;
    forall i | 0 <= i < |query|
      ensures NextUrlState(ReqQueryStringStart, query[i]) == ReqQueryString == NextUrlState(ReqQueryString, query[i]) {
      QueryStays(query[i]);
    }
    LeadsByte(s, '?');
    LeadsAlong(ReqQueryStringStart, query, ReqQueryString);
    LeadsOn(s, "?", ReqQueryStringStart, [7], query, ReqQueryString, Repeat(8, |query|));
  }

  lemma QueryStays(ch: Byte)
    requires IsUrlChar(ch) || ch == '?'
    ensures NextUrlState(ReqQueryStringStart, ch) == ReqQueryString == NextUrlState(ReqQueryString, ch)
  {
  }

  lemma FragmentLeads(s: UrlState, fragment: Bytes)
    requires fragment != [] && fragment[0] != '#' && (s == ReqPath || s == ReqQueryString)
    requires forall i :: 0 <= i < |fragment| ==> IsUrlChar(fragment[i]) || fragment[i] == '?' || fragment[i] == '#'
    ensures Leads(s, Prefixed('#', fragment), ReqFragment, MarkedRanks(9, fragment))
  {
    hide Leads;
    FragmentStays(fragment[0]);
    forall i | 0 <= i < |fragment| ensures NextUrlState(ReqFragment, fragment[i]) == ReqFragment {
      FragmentStays(fragment[i]);
    }
    LeadsByte(s, '#');
    LeadsAlong(ReqFragmentStart, fragment, ReqFragment);
    LeadsOn(s, "#", ReqFragmentStart, [9], fragment, ReqFragment, Repeat(10, |fragment|));
  }

  lemma FragmentStays(ch: Byte)
    requires IsUrlChar(ch) || ch == '?' || ch == '#'
    ensures NextUrlState(ReqFragment, ch) == ReqFragment
    ensures ch != '#' ==> NextUrlState(ReqFragmentStart, ch) == ReqFragment
  {
  }

  lemma TailLeads(s: UrlState, t: Tail) returns (u: UrlState)
    requires IsTail(t)
    requires s == ReqServer || (s == ReqSpacesBeforeUrl && t.path != [])
    requires t.path != [] ==> t.path[0] == '/' || (t.path[0] == '*' && s == ReqSpacesBeforeUrl)
    ensures u != UrlDead && Leads(s, PrintTail(t), u, TailRanks(t))
  {
    hide Leads, NextUrlState, Prefixed, MarkedRanks;
    NoMarks();
    u := s;
    LeadsNowhere(s);
    if t.path != [] {
      PathLeads(s, t.path);
      u := ReqPath;
    } else {
      assert Repeat(6, 0) == [];
    }
    var v := u;
    LeadsNowhere(u);
    if t.query != [] {
      QueryLeads(u, t.query);
      v := ReqQueryString;
    }
    var w := v;
    LeadsNowhere(v);
    if t.fragment != [] {
      FragmentLeads(v, t.fragment);
      w := ReqFragment;
    }
    LeadsOn(u, Prefixed('?', t.query), v, MarkedRanks(7, t.query),
            Prefixed('#', t.fragment), w, MarkedRanks(9, t.fragment));
    LeadsOn(s, t.path, u, Repeat(6, |t.path|), Prefixed('?', t.query) + Prefixed('#', t.fragment), w,
            MarkedRanks(7, t.query) + MarkedRanks(9, t.fragment));
    u := w;
  }

  lemma NoMarks()
    ensures Prefixed('?', []) == [] && Prefixed('#', []) == [] && MarkedRanks(7, []) == [] && MarkedRanks(9, []) == []
  {
  }

  // ---------------------------------------------------------------- where the parts are

  lemma BelowOne(k: nat, r: nat)
    ensures Below([k], r) == if k < r then 1 else 0
  {
    BelowNext([], k, r);
    assert [] + [k] == [k];
  }

  lemma BelowMarked(mark: nat, s: Bytes, r: nat)
    ensures Below(MarkedRanks(mark, s), r) ==
            if s == [] then 0 else (if mark < r then 1 else 0) + (if mark + 1 < r then |s| else 0)
  {
    if s != [] {
      BelowConcat([mark], Repeat(mark + 1, |s|), r);
      BelowOne(mark, r);
      BelowRepeat(mark + 1, |s|, r);
    }
  }

  function MarkedLength(s: Bytes): nat { if s == [] then 0 else |s| + 1 }

  lemma BelowTail(base: seq<nat>, t: Tail, r: nat)
    requires forall i :: 0 <= i < |base| ==> base[i] < 6
    ensures var n := Below(base + TailRanks(t), r);
            && (r <= 6 ==> n == Below(base, r))
            && (r == 7 ==> n == |base| + |t.path|)
            && (r == 8 ==> n == |base| + |t.path| + if t.query == [] then 0 else 1)
            && (r == 9 ==> n == |base| + |t.path| + MarkedLength(t.query))
            && (r == 10 ==> n == |base| + |t.path| + MarkedLength(t.query) + if t.fragment == [] then 0 else 1)
            && (r == 11 ==> n == |base| + |t.path| + MarkedLength(t.query) + MarkedLength(t.fragment))
  {
    hide MarkedRanks, Repeat;
    BelowConcat(base, TailRanks(t), r);
    BelowConcat(Repeat(6, |t.path|), MarkedRanks(7, t.query) + MarkedRanks(9, t.fragment), r);
    BelowConcat(MarkedRanks(7, t.query), MarkedRanks(9, t.fragment), r);
    BelowRepeat(6, |t.path|, r);
    BelowMarked(7, t.query, r);
    BelowMarked(9, t.fragment, r);
    if r >= 6 {
      AllBelow(base, r);
    }
  }

  lemma {:induction false} AllBelow(rs: seq<nat>, r: nat)
    requires forall i :: 0 <= i < |rs| ==> rs[i] < r
    ensures Below(rs, r) == |rs|
    decreases |rs|
  {
    if rs != [] {
      AllBelow(rs[..|rs| - 1], r);
    }
  }

  function TailOf(u: Target): Tail { if u.Connect? then Tail([], [], []) else u.tail }

  function SchemaOf(u: Target): Bytes { if u.Absolute? then u.schema else [] }

  function AuthOf(u: Target): Bytes { if u.Origin? then [] else PrintAuth(u.auth) }

  // What stands before the authority.
  function Front(u: Target): Bytes { if u.Absolute? then u.schema + "://" else [] }

  function FrontRanks(u: Target): seq<nat> { if u.Absolute? then Repeat(1, |u.schema|) + [2, 3, 4] else [] }

  function BaseRanks(u: Target): seq<nat> { FrontRanks(u) + Repeat(5, |AuthOf(u)|) }

  lemma PrintParts(u: Target)
    ensures Print(u) == Front(u) + (AuthOf(u) + PrintTail(TailOf(u)))
    ensures |FrontRanks(u)| == |Front(u)| && |BaseRanks(u)| == |Front(u)| + |AuthOf(u)|
  {
    hide PrintAuth, PrintTail;
    match u
    case Absolute(schema, auth, tail) =>
      Regroup(schema, "://", AuthOf(u) + PrintTail(tail));
    case Origin(tail) =>
      assert [] + ([] + PrintTail(tail)) == PrintTail(tail);
    case Connect(auth) =>
      NoTail();
      assert [] + (PrintAuth(auth) + []) == PrintAuth(auth);
  }

  lemma Regroup(a: Bytes, b: Bytes, c: Bytes)
    ensures a + (b + c) == (a + b) + c
  {
  }

  lemma AbsoluteLeads(u: Target) returns (t: UrlState)
    requires IsTarget(u) && u.Absolute?
    ensures t != UrlDead && Leads(UrlStart(u.Connect?), Print(u), t, BaseRanks(u) + TailRanks(TailOf(u)))
  {
    hide Leads, NextUrlState, PrintAuth, PrintTail, TailRanks, IsAuth, IsTail, Repeat;
    PrintParts(u);
    var tail, tl := TailRanks(TailOf(u)), TailOf(u);
    SchemaLeads(u.schema);
    AuthLeads(u.auth);
    t := TailLeads(ReqServer, tl);
    LeadsOn(ReqServerStart, AuthOf(u), ReqServer, Repeat(5, |AuthOf(u)|), PrintTail(tl), t, tail);
    LeadsOn(ReqSpacesBeforeUrl, Front(u), ReqServerStart, FrontRanks(u),
            AuthOf(u) + PrintTail(tl), t, Repeat(5, |AuthOf(u)|) + tail);
    assert BaseRanks(u) + tail == FrontRanks(u) + (Repeat(5, |AuthOf(u)|) + tail);
  }

  lemma WholeLeads(u: Target) returns (t: UrlState)
    requires IsTarget(u)
    ensures t != UrlDead && Leads(UrlStart(u.Connect?), Print(u), t, BaseRanks(u) + TailRanks(TailOf(u)))
  {
    hide Leads, NextUrlState, PrintAuth, PrintTail, TailRanks, IsAuth, IsTail, Repeat;
    PrintParts(u);
    var tail := TailRanks(TailOf(u));
    match u
    case Absolute(schema, auth, tl) =>
      t := AbsoluteLeads(u);
    case Origin(tl) =>
      t := TailLeads(ReqSpacesBeforeUrl, tl);
      assert Print(u) == PrintTail(tl);
      NoRepeat();
      assert BaseRanks(u) == [];
      assert BaseRanks(u) + tail == tail;
    case Connect(auth) =>
      AuthLeads(auth);
      t := ReqServer;
      NoTail();
      assert Print(u) == PrintAuth(auth);
      assert BaseRanks(u) + tail == Repeat(5, |AuthOf(u)|);
  }

  lemma NoRepeat()
    ensures Repeat(5, 0) == []
  {
  }

  lemma NoTail()
    ensures TailRanks(Tail([], [], [])) == [] && PrintTail(Tail([], [], [])) == []
  {
  }

  lemma BelowFront(u: Target, r: nat)
    ensures r == 1 ==> Below(FrontRanks(u), r) == 0
    ensures r == 2 ==> Below(FrontRanks(u), r) == |SchemaOf(u)|
    ensures r == 5 || r == 6 ==> Below(FrontRanks(u), r) == |Front(u)|
  {
    hide Repeat, Below;
    BelowNothing(r);
    if u.Absolute? {
      BelowConcat(Repeat(1, |u.schema|), [2, 3, 4], r);
      BelowRepeat(1, |u.schema|, r);
      assert [2, 3, 4] == [2] + ([3] + [4]);
      BelowConcat([2], [3] + [4], r);
      BelowConcat([3], [4], r);
      BelowOne(2, r);
      BelowOne(3, r);
      BelowOne(4, r);
    }
  }

  lemma BelowNothing(r: nat)
    ensures Below([], r) == 0
  {
  }

  lemma BelowBase(u: Target, r: nat)
    ensures r == 1 ==> Below(BaseRanks(u), r) == 0
    ensures r == 2 ==> Below(BaseRanks(u), r) == |SchemaOf(u)|
    ensures r == 5 ==> Below(BaseRanks(u), r) == |Front(u)|
    ensures r == 6 ==> Below(BaseRanks(u), r) == |Front(u)| + |AuthOf(u)|
    ensures forall i :: 0 <= i < |BaseRanks(u)| ==> BaseRanks(u)[i] < 6
  {
    hide AuthOf, Repeat, Below, SchemaOf, Front;
    BelowConcat(FrontRanks(u), Repeat(5, |AuthOf(u)|), r);
    BelowRepeat(5, |AuthOf(u)|, r);
    BelowFront(u, r);
  }

  // Where the URL automaton puts the parts of a printed URL.
  lemma FrontParts(u: Target)
    requires IsTarget(u)
    ensures var url, c := Print(u), u.Connect?;
            && UrlAfter(UrlStart(c), url) != UrlDead
            && UrlPart(c, url, SCHEMA) == Span(0, |SchemaOf(u)|)
            && UrlPart(c, url, HOST) == Span(|Front(u)|, |AuthOf(u)|)
  {
    hide UrlAfter, UrlRanks, IsTarget, BaseRanks, TailRanks, Print, PrintTail, Front, AuthOf, Below;
    var s := WholeLeads(u);
    PrintParts(u);
    var b, t := BaseRanks(u), TailOf(u);
    BelowBase(u, 1);
    BelowBase(u, 2);
    BelowBase(u, 5);
    BelowBase(u, 6);
    BelowTail(b, t, 1);
    BelowTail(b, t, 2);
    BelowTail(b, t, 5);
    BelowTail(b, t, 6);
  }

  lemma TailParts(u: Target)
    requires IsTarget(u)
    ensures var url, c, t := Print(u), u.Connect?, TailOf(u); var base := |Front(u)| + |AuthOf(u)|;
            && UrlPart(c, url, PATH) == Span(base, |t.path|)
            && UrlPart(c, url, QUERY) == Span(base + |t.path| + (if t.query == [] then 0 else 1), |t.query|)
            && UrlPart(c, url, FRAGMENT) ==
               Span(base + |t.path| + MarkedLength(t.query) + (if t.fragment == [] then 0 else 1), |t.fragment|)
  {
    hide UrlAfter, UrlRanks, IsTarget, BaseRanks, TailRanks, Print, PrintTail, Front, AuthOf, Below;
    var s := WholeLeads(u);
    PrintParts(u);
    var b, t := BaseRanks(u), TailOf(u);
    BelowBase(u, 6);
    BelowTail(b, t, 6);
    BelowTail(b, t, 7);
    BelowTail(b, t, 8);
    BelowTail(b, t, 9);
    BelowTail(b, t, 10);
    BelowTail(b, t, 11);
  }

  lemma CutMiddle(a: Bytes, b: Bytes, c: Bytes)
    ensures Cut(a + (b + c), Span(|a|, |b|)) == b
  {
  }

  // ---------------------------------------------------------------- runs of the host automaton

  lemma {:induction false} HostConcat(s: HostState, a: Bytes, b: Bytes)
    ensures HostAfter(s, a + b) == HostAfter(HostAfter(s, a), b)
    ensures HostRanks(s, a + b) == HostRanks(s, a) + HostRanks(HostAfter(s, a), b)
    decreases |b|
  {
    hide NextHostState, HostRank;
    if b == [] {
      assert a + b == a;
    } else {
      assert (a + b)[..|a + b| - 1] == a + b[..|b| - 1];
      HostConcat(s, a, b[..|b| - 1]);
    }
  }

  predicate HostLeads(s: HostState, w: Bytes, t: HostState, ranks: seq<nat>) {
    HostAfter(s, w) == t && HostRanks(s, w) == ranks
  }

  lemma HostOn(s: HostState, a: Bytes, t: HostState, ra: seq<nat>, b: Bytes, u: HostState, rb: seq<nat>)
    requires HostLeads(s, a, t, ra) && HostLeads(t, b, u, rb)
    ensures HostLeads(s, a + b, u, ra + rb)
  {
    hide HostAfter, HostRanks;
    HostConcat(s, a, b);
  }

  lemma HostNowhere(s: HostState)
    ensures HostLeads(s, [], s, [])
  {
  }

  lemma HostByte(s: HostState, ch: Byte)
    ensures HostLeads(s, [ch], NextHostState(s, ch), [HostRank(NextHostState(s, ch))])
  {
    hide NextHostState, HostRank;
    assert [ch][..|[ch]| - 1] == [];
    assert HostRanks(s, []) == [] && HostAfter(s, []) == s;
  }

  lemma {:induction false} HostAlong(s: HostState, w: Bytes, t: HostState)
    requires w != [] && NextHostState(s, w[0]) == t && forall i :: 0 < i < |w| ==> NextHostState(t, w[i]) == t
    ensures HostLeads(s, w, t, Repeat(HostRank(t), |w|))
    decreases |w|
  {
    hide NextHostState, HostRank, HostLeads;
    var v, ch := w[..|w| - 1], w[|w| - 1];
    assert w == v + [ch];
    if v == [] {
      assert w == [ch];
      HostByte(s, ch);
      assert Repeat(HostRank(t), 1) == [HostRank(t)];
    } else {
      HostAlong(s, v, t);
      HostByte(t, ch);
      HostOn(s, v, t, Repeat(HostRank(t), |v|), [ch], t, [HostRank(t)]);
    }
  }

  // ---------------------------------------------------------------- authorities

  function UserRanks(userinfo: Bytes): seq<nat> { if userinfo == [] then [] else Repeat(1, |userinfo|) + [2] }

  function HostNameRanks(h: HostName): seq<nat> {
    match h
    case Name(name) => Repeat(4, |name|)
    case V6(addr, zone) => [3] + (Repeat(4, |addr|) + (Repeat(5, MarkedLength(zone)) + [6]))
  }

  function AuthRanks(a: Auth): seq<nat> {
    UserRanks(a.userinfo) + (HostNameRanks(a.host) + MarkedRanks(7, a.port))
  }

  lemma UserLeads(u: Bytes)
    requires u != [] && forall i :: 0 <= i < |u| ==> IsUserinfoChar(u[i])
    ensures HostLeads(UserinfoStart, u + "@", HostStart, UserRanks(u))
  {
    hide HostLeads;
    forall i | 0 <= i < |u| ensures NextHostState(UserinfoStart, u[i]) == Userinfo == NextHostState(Userinfo, u[i]) {
      assert IsUserinfoChar(u[i]);
    }
    HostAlong(UserinfoStart, u, Userinfo);
    HostByte(Userinfo, '@');
    HostOn(UserinfoStart, u, Userinfo, Repeat(1, |u|), "@", HostStart, [2]);
  }

  lemma NameLeads(name: Bytes)
    requires IsHost(Name(name))
    ensures HostLeads(HostStart, name, Host, Repeat(4, |name|))
  {
    hide HostLeads;
    forall i | 0 <= i < |name| ensures NextHostState(HostStart, name[i]) == Host == NextHostState(Host, name[i]) {
      assert IsHostChar(name[i]);
    }
    HostAlong(HostStart, name, Host);
  }

  lemma AddrLeads(addr: Bytes)
    requires addr != [] && forall i :: 0 <= i < |addr| ==> IsHex(addr[i]) || addr[i] == ':' || addr[i] == '.'
    ensures HostLeads(HostStart, "[" + addr, HostV6, [3] + Repeat(4, |addr|))
  {
    hide HostLeads;
    forall i | 0 <= i < |addr| ensures NextHostState(HostV6Start, addr[i]) == HostV6 == NextHostState(HostV6, addr[i]) {
      assert IsHex(addr[i]) || addr[i] == ':' || addr[i] == '.';
    }
    HostByte(HostStart, '[');
    HostAlong(HostV6Start, addr, HostV6);
    HostOn(HostStart, "[", HostV6Start, [3], addr, HostV6, Repeat(4, |addr|));
  }

  lemma ZoneLeads(zone: Bytes)
    requires forall i :: 0 <= i < |zone| ==> IsZoneChar(zone[i])
    ensures HostLeads(HostV6, Prefixed('%', zone) + "]", HostV6End, Repeat(5, MarkedLength(zone)) + [6])
  {
    hide HostLeads;
    if zone == [] {
      HostByte(HostV6, ']');
      assert Prefixed('%', zone) + "]" == "]" && Repeat(5, 0) + [6] == [6];
    } else {
      forall i | 0 <= i < |zone|
        ensures NextHostState(HostV6ZoneStart, zone[i]) == HostV6Zone == NextHostState(HostV6Zone, zone[i])
      {
        assert IsZoneChar(zone[i]);
      }
      HostByte(HostV6, '%');
      HostAlong(HostV6ZoneStart, zone, HostV6Zone);
      HostOn(HostV6, "%", HostV6ZoneStart, [5], zone, HostV6Zone, Repeat(5, |zone|));
      HostByte(HostV6Zone, ']');
      HostOn(HostV6, "%" + zone, HostV6Zone, [5] + Repeat(5, |zone|), "]", HostV6End, [6]);
      assert [5] + Repeat(5, |zone|) == Repeat(5, |zone| + 1);
    }
  }

  lemma HostNameLeads(h: HostName) returns (t: HostState)
    requires IsHost(h)
    ensures (t == Host || t == HostV6End) && HostLeads(HostStart, PrintHost(h), t, HostNameRanks(h))
  {
    hide HostLeads, Repeat;
    match h
    case Name(name) =>
      NameLeads(name);
      t := Host;
    case V6(addr, zone) =>
      AddrLeads(addr);
      ZoneLeads(zone);
      t := HostV6End;
      var z, zr := Prefixed('%', zone), Repeat(5, MarkedLength(zone)) + [6];
      HostOn(HostStart, "[" + addr, HostV6, [3] + Repeat(4, |addr|), z + "]", t, zr);
      assert ("[" + addr) + (z + "]") == "[" + ((addr + z) + "]");
      assert ([3] + Repeat(4, |addr|)) + zr == HostNameRanks(h);
  }

  lemma PortLeads(s: HostState, port: Bytes) returns (t: HostState)
    requires (s == Host || s == HostV6End) && forall i :: 0 <= i < |port| ==> IsNum(port[i])
    ensures HostEnds(t) && HostLeads(s, Prefixed(':', port), t, MarkedRanks(7, port))
  {
    hide HostLeads;
    if port == [] {
      t := s;
      HostNowhere(s);
    } else {
      t := HostPort;
      HostByte(s, ':');
      forall i | 0 <= i < |port|
        ensures NextHostState(HostPortStart, port[i]) == HostPort == NextHostState(HostPort, port[i])
      {
        assert IsNum(port[i]);
      }
      HostAlong(HostPortStart, port, HostPort);
      HostOn(s, ":", HostPortStart, [7], port, HostPort, Repeat(8, |port|));
    }
  }

  lemma AtIffUser(a: Auth)
    requires IsAuth(a)
    ensures '@' in PrintAuth(a) <==> a.userinfo != []
  {
    hide HostAndPort, IsServerChar;
    AuthParts(a);
    HostBytesFit(a);
    var hp := HostAndPort(a);
    forall i | 0 <= i < |hp| ensures hp[i] != '@' {
      ServerLeads(ReqServer, hp[i]);
    }
    if a.userinfo != [] {
      assert PrintAuth(a)[|a.userinfo|] == '@';
    }
  }

  lemma AuthorityLeads(a: Auth) returns (t: HostState)
    requires IsAuth(a)
    ensures HostEnds(t) && HostLeads(HostBegin('@' in PrintAuth(a)), PrintAuth(a), t, AuthRanks(a))
  {
    hide HostLeads, HostNameRanks, MarkedRanks, IsHost, PrintHost, Prefixed;
    AtIffUser(a);
    var s := HostNameLeads(a.host);
    t := PortLeads(s, a.port);
    HostOn(HostStart, PrintHost(a.host), s, HostNameRanks(a.host), Prefixed(':', a.port), t, MarkedRanks(7, a.port));
    var hp, hr := PrintHost(a.host) + Prefixed(':', a.port), HostNameRanks(a.host) + MarkedRanks(7, a.port);
    if a.userinfo == [] {
      assert PrintAuth(a) == hp && AuthRanks(a) == hr;
    } else {
      UserLeads(a.userinfo);
      HostOn(UserinfoStart, a.userinfo + "@", HostStart, UserRanks(a.userinfo), hp, t, hr);
    }
  }

  // What stands before the host in an authority, and before the port's colon.
  function UserPart(a: Auth): Bytes { if a.userinfo == [] then [] else a.userinfo + "@" }

  function Bracket(a: Auth): nat { if a.host.V6? then 1 else 0 }

  lemma BelowHostName(h: HostName, r: nat)
    ensures r <= 2 ==> Below(HostNameRanks(h), r) == 0
    ensures r == 4 ==> Below(HostNameRanks(h), r) == if h.V6? then 1 else 0
    ensures r == 6 ==> Below(HostNameRanks(h), r) == (if h.V6? then 1 else 0) + |HostText(h)|
    ensures r >= 8 ==> Below(HostNameRanks(h), r) == |PrintHost(h)|
  {
    hide Repeat;
    match h
    case Name(name) => BelowRepeat(4, |name|, r);
    case V6(addr, zone) =>
      var z := Repeat(5, MarkedLength(zone));
      BelowConcat([3], Repeat(4, |addr|) + (z + [6]), r);
      BelowConcat(Repeat(4, |addr|), z + [6], r);
      BelowConcat(z, [6], r);
      BelowOne(3, r);
      BelowOne(6, r);
      BelowRepeat(4, |addr|, r);
      BelowRepeat(5, MarkedLength(zone), r);
  }

  lemma BelowUser(u: Bytes, r: nat)
    ensures r <= 1 ==> Below(UserRanks(u), r) == 0
    ensures r == 2 ==> Below(UserRanks(u), r) == |u|
    ensures r >= 4 ==> Below(UserRanks(u), r) == if u == [] then 0 else |u| + 1
  {
    hide Repeat;
    if u != [] {
      BelowConcat(Repeat(1, |u|), [2], r);
      BelowRepeat(1, |u|, r);
      BelowOne(2, r);
    }
  }

  lemma BelowAuth(a: Auth, r: nat)
    ensures Below(AuthRanks(a), r) ==
            Below(UserRanks(a.userinfo), r) + Below(HostNameRanks(a.host), r) + Below(MarkedRanks(7, a.port), r)
  {
    hide UserRanks, HostNameRanks, MarkedRanks;
    BelowConcat(UserRanks(a.userinfo), HostNameRanks(a.host) + MarkedRanks(7, a.port), r);
    BelowConcat(HostNameRanks(a.host), MarkedRanks(7, a.port), r);
  }

  // The three parts of Below(AuthRanks(a), r).
  lemma BelowAuthParts(a: Auth, r: nat)
    ensures r <= 1 ==> Below(AuthRanks(a), r) == 0
    ensures r == 2 ==> Below(AuthRanks(a), r) == |a.userinfo|
    ensures r == 4 ==> Below(AuthRanks(a), r) == |UserPart(a)| + Bracket(a)
    ensures r == 6 ==> Below(AuthRanks(a), r) == |UserPart(a)| + Bracket(a) + |HostText(a.host)|
    ensures r == 8 ==> Below(AuthRanks(a), r) == |UserPart(a)| + |PrintHost(a.host)| + if a.port == [] then 0 else 1
    ensures r == 9 ==> Below(AuthRanks(a), r) == |UserPart(a)| + |PrintHost(a.host)| + MarkedLength(a.port)
  {
    hide UserRanks, HostNameRanks, MarkedRanks, AuthRanks, HostText, PrintHost, Below;
    BelowAuth(a, r);
    BelowUser(a.userinfo, r);
    BelowHostName(a.host, r);
    BelowMarked(7, a.port, r);
  }

  // Where the host automaton puts the parts of a printed authority.
  lemma HostParts(a: Auth)
    requires IsAuth(a)
    ensures var h := PrintAuth(a);
            && IsAuthority(h)
            && HostPart(h, USERINFO) == Span(0, |a.userinfo|)
            && HostPart(h, HOST) == Span(|UserPart(a)| + Bracket(a), |HostText(a.host)|)
            && HostPart(h, PORT) ==
               Span(|UserPart(a)| + |PrintHost(a.host)| + (if a.port == [] then 0 else 1), |a.port|)
  {
    hide HostAfter, HostRanks, IsAuth, AuthRanks, PrintAuth, HostText, PrintHost, Below, UserPart;
    var t := AuthorityLeads(a);
    BelowAuthParts(a, 1);
    BelowAuthParts(a, 2);
    BelowAuthParts(a, 4);
    BelowAuthParts(a, 6);
    BelowAuthParts(a, 8);
    BelowAuthParts(a, 9);
  }

  lemma Inside(a: Bytes, b: Bytes, c: Bytes, i: nat, n: nat)
    requires i + n <= |b|
    ensures (a + (b + c))[|a| + i..|a| + i + n] == b[i..i + n]
  {
  }

  lemma UserTextAt(a: Auth)
    ensures |a.userinfo| <= |PrintAuth(a)| && PrintAuth(a)[0..0 + |a.userinfo|] == a.userinfo
  {
    hide PrintHost, Prefixed;
    var u, rest := UserPart(a), PrintHost(a.host) + Prefixed(':', a.port);
    UserText(a);
    Inside([], u, rest, 0, |a.userinfo|);
    assert [] + (u + rest) == PrintAuth(a);
  }

  lemma HostTextAt(a: Auth)
    ensures var h, p := PrintAuth(a), |UserPart(a)| + Bracket(a);
            p + |HostText(a.host)| <= |h| && h[p..p + |HostText(a.host)|] == HostText(a.host)
  {
    hide PrintHost, HostText, Prefixed;
    HostNameText(a.host);
    Inside(UserPart(a), PrintHost(a.host), Prefixed(':', a.port), Bracket(a), |HostText(a.host)|);
  }

  lemma PortTextAt(a: Auth)
    ensures var h, q := PrintAuth(a), |UserPart(a)| + |PrintHost(a.host)| + (if a.port == [] then 0 else 1);
            q + |a.port| == |h| && h[q..q + |a.port|] == a.port
  {
    hide PrintHost, Prefixed;
    var u, ph, pp := UserPart(a), PrintHost(a.host), Prefixed(':', a.port);
    PortTextOf(a.port);
    Inside(u + ph, pp, [], if a.port == [] then 0 else 1, |a.port|);
    assert (u + ph) + (pp + []) == PrintAuth(a);
  }

  lemma UserText(a: Auth)
    ensures |a.userinfo| <= |UserPart(a)| && UserPart(a)[0..|a.userinfo|] == a.userinfo
  {
  }

  lemma HostNameText(h: HostName)
    ensures var b := if h.V6? then 1 else 0;
            b + |HostText(h)| <= |PrintHost(h)| && PrintHost(h)[b..b + |HostText(h)|] == HostText(h)
  {
    if h.V6? {
      Inside("[", HostText(h), "]", 0, |HostText(h)|);
      assert HostText(h)[0..|HostText(h)|] == HostText(h);
    }
  }

  lemma PortTextOf(p: Bytes)
    ensures var b := if p == [] then 0 else 1; |Prefixed(':', p)| == b + |p| && Prefixed(':', p)[b..b + |p|] == p
  {
  }

  // ---------------------------------------------------------------- the round trip

  function Component(u: Target, f: Field): Bytes {
    match f
    case SCHEMA => SchemaOf(u)
    case USERINFO => if u.Origin? then [] else u.auth.userinfo
    case HOST => if u.Origin? then [] else HostText(u.auth.host)
    case PORT => if u.Origin? then [] else u.auth.port
    case PATH => TailOf(u).path
    case QUERY => TailOf(u).query
    case FRAGMENT => TailOf(u).fragment
  }

  lemma AuthorityOf(u: Target)
    requires IsTarget(u)
    ensures Authority(u.Connect?, Print(u)) == AuthOf(u)
  {
    hide UrlPart, IsTarget, Print, Front, AuthOf, PrintTail;
    FrontParts(u);
    PrintParts(u);
    UrlPartFits(u.Connect?, Print(u), HOST);
    CutMiddle(Front(u), AuthOf(u), PrintTail(TailOf(u)));
  }

  lemma SpanText(connect: bool, url: Bytes, f: Field, a: Bytes, b: Bytes, c: Bytes)
    requires url == a + (b + c) && SpanOf(connect, url, f) == Span(|a|, |b|)
    ensures Text(connect, url, f) == b
  {
    hide SpanOf;
    SpanFits(connect, url, f);
    CutMiddle(a, b, c);
  }

  lemma EmptyText(connect: bool, url: Bytes, f: Field)
    requires SpanOf(connect, url, f).len == 0
    ensures Text(connect, url, f) == []
  {
    hide SpanOf;
    SpanFits(connect, url, f);
  }

  lemma PartSpan(connect: bool, url: Bytes, f: Field)
    requires IsUrlField(f) && f != HOST
    ensures SpanOf(connect, url, f) == UrlPart(connect, url, f)
  {
  }

  lemma FrontText(u: Target)
    requires IsTarget(u)
    ensures Text(u.Connect?, Print(u), SCHEMA) == SchemaOf(u)
  {
    hide UrlPart, IsTarget, SpanOf, Text, Print, AuthOf, PrintTail;
    FrontParts(u);
    PartSpan(u.Connect?, Print(u), SCHEMA);
    if u.Absolute? {
      PrintParts(u);
      var rest := "://" + (AuthOf(u) + PrintTail(TailOf(u)));
      assert Print(u) == [] + (u.schema + rest);
      SpanText(false, Print(u), SCHEMA, [], u.schema, rest);
    } else {
      EmptyText(u.Connect?, Print(u), SCHEMA);
    }
  }

  lemma TailText(u: Target, f: Field)
    requires IsTarget(u) && (f == PATH || f == QUERY || f == FRAGMENT)
    ensures Text(u.Connect?, Print(u), f) == Component(u, f)
  {
    hide UrlPart, IsTarget, AuthOf, Front, Print, SpanOf, Text, MarkedLength;
    TailParts(u);
    PartSpan(u.Connect?, Print(u), f);
    PrintParts(u);
    var t, a, url := TailOf(u), Front(u) + AuthOf(u), Print(u);
    MarkedText('?', t.query);
    MarkedText('#', t.fragment);
    if Component(u, f) == [] {
      EmptyText(u.Connect?, url, f);
    } else {
      TailPieces(url, a, t);
      match f
      case PATH => SpanText(u.Connect?, url, f, a, t.path, Prefixed('?', t.query) + Prefixed('#', t.fragment));
      case QUERY => SpanText(u.Connect?, url, f, a + t.path + "?", t.query, Prefixed('#', t.fragment));
      case _ => SpanText(u.Connect?, url, f, a + t.path + Prefixed('?', t.query) + "#", t.fragment, []);
    }
  }

  lemma MarkedText(mark: Byte, s: Bytes)
    ensures |Prefixed(mark, s)| == MarkedLength(s)
  {
  }

  lemma TailPieces(url: Bytes, a: Bytes, t: Tail)
    requires url == a + PrintTail(t)
    ensures var q, g := Prefixed('?', t.query), Prefixed('#', t.fragment);
            && url == a + (t.path + (q + g))
            && (t.query != [] ==> url == (a + t.path + "?") + (t.query + g))
            && (t.fragment != [] ==> url == (a + t.path + q + "#") + (t.fragment + []))
  {
  }

  lemma ShiftText(connect: bool, url: Bytes, f: Field, a: Bytes, b: Bytes, c: Bytes, x: Span)
    requires url == a + (b + c) && SpanOf(connect, url, f) == Shift(x, |a|) && x.off + x.len <= |b|
    ensures Text(connect, url, f) == b[x.off..x.off + x.len]
  {
    hide SpanOf;
    SpanFits(connect, url, f);
    Inside(a, b, c, x.off, x.len);
    var lo, hi := |a| + x.off, |a| + x.off + x.len;
    assert Text(connect, url, f) == url[lo..hi];
  }

  lemma HostFieldText(u: Target, f: Field)
    requires IsTarget(u) && !u.Origin? && (f == HOST || f == PORT || f == USERINFO)
    ensures Text(u.Connect?, Print(u), f) == Component(u, f)
  {
    hide IsTarget, Front, Print, PrintTail, HostPart, PrintAuth, HostText, SpanOf, Text;
    TargetAuth(u);
    PrintParts(u);
    HostComponent(u.auth, f);
    HostSpanOf(u, f);
    ShiftText(u.Connect?, Print(u), f, Front(u), PrintAuth(u.auth), PrintTail(TailOf(u)),
              HostPart(PrintAuth(u.auth), f));
  }

  lemma HostComponent(a: Auth, f: Field)
    requires IsAuth(a) && (f == HOST || f == PORT || f == USERINFO)
    ensures var h, x := PrintAuth(a), HostPart(PrintAuth(a), f);
            x.off + x.len <= |h| && h[x.off..x.off + x.len] ==
            match f
            case USERINFO => a.userinfo
            case HOST => HostText(a.host)
            case _ => a.port
  {
    hide HostPart, PrintAuth, PrintHost, HostText, UserPart, IsAuthority, IsAuth, Prefixed;
    HostParts(a);
    UserTextAt(a);
    HostTextAt(a);
    PortTextAt(a);
  }

  lemma HostSpanOf(u: Target, f: Field)
    requires IsTarget(u) && !u.Origin? && (f == HOST || f == PORT || f == USERINFO)
    ensures SpanOf(u.Connect?, Print(u), f) == Shift(HostPart(PrintAuth(u.auth), f), |Front(u)|)
  {
    hide UrlPart, IsTarget, Front, Print, HostPart, PrintAuth, Authority;
    AuthorityOf(u);
    FrontParts(u);
  }

  lemma TargetAuth(u: Target)
    requires IsTarget(u) && !u.Origin?
    ensures IsAuth(u.auth)
  {
  }

  // Every field of a printed URL is the component it was printed from.
  lemma FieldText(u: Target, f: Field)
    requires IsTarget(u)
    ensures Text(u.Connect?, Print(u), f) == Component(u, f) && |Component(u, f)| == SpanOf(u.Connect?, Print(u), f).len
  {
    hide UrlPart, IsTarget, Front, Print, HostPart, Authority, Component;
    SpanFits(u.Connect?, Print(u), f);
    match f
    case SCHEMA => FrontText(u); SchemaComponent(u);
    case PATH => TailText(u, f);
    case QUERY => TailText(u, f);
    case FRAGMENT => TailText(u, f);
    case _ =>
      if u.Origin? {
        NoAuthority(u, f);
      } else {
        HostFieldText(u, f);
      }
  }

  lemma SchemaComponent(u: Target)
    ensures Component(u, SCHEMA) == SchemaOf(u)
  {
  }

  lemma NoAuthority(u: Target, f: Field)
    requires IsTarget(u) && u.Origin? && (f == HOST || f == PORT || f == USERINFO)
    ensures SpanOf(u.Connect?, Print(u), f).len == 0 && Component(u, f) == []
  {
    hide UrlPart, IsTarget;
    AuthorityOf(u);
    assert HostPart([], f).len == 0;
  }

  // The round trip: a printed URL parses, and every field is the component it was printed from.
  lemma RoundTrip(u: Target)
    requires IsTarget(u)
    ensures Parses(u.Connect?, Print(u))
    ensures forall f :: Text(u.Connect?, Print(u), f) == Component(u, f)
  {
    hide UrlPart, Front, Print, HostPart, Authority, SpanOf, Text, UrlAfter, IsAuthority, AuthOf, Decimal;
    var c, url := u.Connect?, Print(u);
    forall f ensures Text(c, url, f) == Component(u, f) && (Has(c, url, f) <==> Component(u, f) != []) {
      FieldText(u, f);
    }
    FrontParts(u);
    AuthorityOf(u);
    if !u.Origin? {
      HostParts(u.auth);
      AuthNotEmpty(u);
    } else {
      assert AuthOf(u) == [] by { OriginHasNone(u); }
    }
  }

  lemma OriginHasNone(u: Target)
    requires u.Origin?
    ensures AuthOf(u) == []
  {
  }

  lemma AuthNotEmpty(u: Target)
    requires IsTarget(u) && !u.Origin?
    ensures AuthOf(u) == PrintAuth(u.auth) && AuthOf(u) != []
    ensures HostText(u.auth.host) != []
  {
    HostBytesFit(u.auth);
  }
}
