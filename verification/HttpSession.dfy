/**
 Connections: a parser object fed one buffer after the other, and what it has reported when the
 input is consumed, fails or ends.
 */
module HttpSession {
  import opened Basics
  import opened HttpTypes
  import opened HttpStep
  import opened HttpRun
  import opened HttpCuts
  import opened HttpBudget
  import opened HttpGrammar
  import opened HttpLost
  import opened HttpExecute

  // ---------------------------------------------------------------- sessions and feeding

  lemma {:induction false} SessionNext(c: Config, bs: seq<Bytes>, b: Bytes, hc: Callback)
    ensures Session(c, bs + [b], hc) == Run(Resume(Session(c, bs, hc)), b, hc)
    decreases |bs|
  {
    hide Run;
    if bs == [] {
      assert bs + [b] == [b] && [b][1..] == [];
      var d := Run(Resume(c), b, hc);
      assert Session(d, [], hc) == d;
    } else {
      assert (bs + [b])[0] == bs[0] && (bs + [b])[1..] == bs[1..] + [b];
      SessionNext(Run(Resume(c), bs[0], hc), bs[1..], b, hc);
    }
  }

  lemma {:induction false} ExitStays(c: Config, bs: seq<Bytes>, hc: Callback)
    requires c.exited
    ensures FeedAll(c, bs, hc).exited
    decreases |bs|
  {
    hide Advance;
    if bs != [] {
      ExitStays(Feed(c, bs[0], hc), bs[1..], hc);
    }
  }

  // As long as no message asks for another protocol, a session is one feed.
  lemma {:induction false} SessionFeeds(c: Config, bs: seq<Bytes>, hc: Callback)
    requires !FeedAll(c, bs, hc).exited
    ensures Session(c, bs, hc) == FeedAll(c, bs, hc)
    decreases |bs|
  {
    hide Run;
    if bs != [] {
      if c.exited {
        ExitStays(c, bs, hc);
      }
      assert c.(skip := false) == Resume(c);
      SessionFeeds(Feed(c, bs[0], hc), bs[1..], hc);
    }
  }

  lemma {:induction false} FeedConcat(c: Config, a: seq<Bytes>, b: seq<Bytes>, hc: Callback)
    ensures FeedAll(c, a + b, hc) == FeedAll(FeedAll(c, a, hc), b, hc)
    decreases |a|
  {
    hide Feed;
    if a == [] {
      assert a + b == b;
    } else {
      assert (a + b)[0] == a[0] && (a + b)[1..] == a[1..] + b;
      FeedConcat(Feed(c, a[0], hc), a[1..], b, hc);
    }
  }

  lemma {:induction false} FeedSkips(c: Config, bs: seq<Bytes>, hc: Callback)
    requires SkipsInValue(c)
    ensures SkipsInValue(FeedAll(c, bs, hc))
    decreases |bs|
  {
    hide Run;
    if bs != [] {
      RunSkips(c.(skip := false), bs[0], hc);
      FeedSkips(Feed(c, bs[0], hc), bs[1..], hc);
    }
  }

  // The whole input may be cut anywhere and stays with HTTP.
  predicate Uniform(c: Config, s: Bytes, hc: Callback) {
    var whole := Run(c, s, hc);
    !whole.exited && (c.p.lenient || !ShowsControl(whole.log))
  }

  // A session that was fed all buffers, or those up to an error, is where the whole input leads.
  lemma SessionWhole(c: Config, buffers: seq<Bytes>, fed: nat, hc: Callback)
    requires SkipsInValue(c) && NonEmpty(buffers) && fed <= |buffers| && Uniform(c, Flatten(buffers), hc)
    requires fed < |buffers| ==> !Running(Session(c, buffers[..fed], hc))
    ensures Session(c, buffers[..fed], hc) == Run(c, Flatten(buffers), hc)
  {
    hide Run, FeedAll, Session, Flatten, ShowsControl;
    PlainCuts(c, buffers, hc);
    var a, b := buffers[..fed], buffers[fed..];
    assert buffers == a + b;
    FeedConcat(c, a, b, hc);
    var h := FeedAll(c, a, hc);
    if h.exited {
      ExitStays(h, b, hc);
    }
    SessionFeeds(c, a, hc);
    FeedSkips(c, a, hc);
    if fed < |buffers| {
      FeedAllStopped(h, b, hc);
    } else {
      FeedNothing(h, hc);
      assert b == [];
    }
  }

  lemma FeedNothing(c: Config, hc: Callback)
    ensures FeedAll(c, [], hc) == c
  {
  }

  // ---------------------------------------------------------------- prefixes

  lemma PrefixUniform(c: Config, a: Bytes, b: Bytes, hc: Callback)
    requires Uniform(c, a + b, hc)
    ensures Uniform(c, a, hc)
  {
    hide Run, ShowsControl;
    RunConcat(c, a, b, hc);
    var d := Run(c, a, hc);
    if d.exited {
      RunStopped(d, b, hc);
    }
    if ShowsControl(d.log) {
      RunShows(d, b, hc);
    }
  }

  lemma {:induction false} FlattenConcat(a: seq<Bytes>, b: seq<Bytes>)
    ensures Flatten(a + b) == Flatten(a) + Flatten(b)
    decreases |a|
  {
    if a == [] {
      assert a + b == b;
    } else {
      assert (a + b)[0] == a[0] && (a + b)[1..] == a[1..] + b;
      FlattenConcat(a[1..], b);
    }
  }

  // Where a session stands that was fed some buffers and k bytes of the next.
  lemma SessionPart(c: Config, buffers: seq<Bytes>, fed: nat, k: nat, hc: Callback)
    requires SkipsInValue(c) && NonEmpty(buffers) && fed < |buffers| && k <= |buffers[fed]|
    requires Uniform(c, Flatten(buffers), hc)
    ensures Run(Resume(Session(c, buffers[..fed], hc)), buffers[fed][..k], hc).nread <=
            HighWater(c, Flatten(buffers), hc)
  {
    hide Run, Session, Flatten, Uniform, HighWater;
    var a, data := buffers[..fed], buffers[fed];
    var part := if k == 0 then a else a + [data[..k]];
    var rest := data[k..] + Flatten(buffers[fed + 1..]);
    PartFlattens(buffers, fed, k);
    PrefixUniform(c, Flatten(part), rest, hc);
    assert part[..|part|] == part;
    SessionWhole(c, part, |part|, hc);
    HighWaterAt(c, Flatten(buffers), |Flatten(part)|, hc);
    assert Flatten(buffers)[..|Flatten(part)|] == Flatten(part);
    if k == 0 {
      assert data[..0] == [];
      RunOnNothing(Resume(Session(c, a, hc)), hc);
    } else {
      SessionNext(c, a, data[..k], hc);
    }
  }

  lemma PartFlattens(buffers: seq<Bytes>, fed: nat, k: nat)
    requires fed < |buffers| && k <= |buffers[fed]|
    ensures var part := if k == 0 then buffers[..fed] else buffers[..fed] + [buffers[fed][..k]];
            Flatten(buffers) == Flatten(part) + (buffers[fed][k..] + Flatten(buffers[fed + 1..]))
  {
    hide Flatten;
    var a, data, z := buffers[..fed], buffers[fed], buffers[fed + 1..];
    assert buffers == a + ([data] + z);
    FlattenConcat(a, [data] + z);
    FlattenConcat([data], z);
    FlattenOne(data);
    FlattenConcat(a, [data[..k]]);
    FlattenOne(data[..k]);
    assert data == data[..k] + data[k..];
    if k == 0 {
      assert data[k..] == data;
    }
  }

  lemma FlattenOne(b: Bytes)
    ensures Flatten([b]) == b
  {
    assert [b][1..] == [];
  }

  lemma RunOnNothing(c: Config, hc: Callback)
    ensures Run(c, [], hc) == c
  {
    hide Advance;
  }

  // ---------------------------------------------------------------- the object

  // The automaton's view of a parser that has been fed some buffers, the last up to byte n.
  ghost function Before(c: Config, buffers: seq<Bytes>, fed: nat, hc: Callback): Config
    requires 0 < fed <= |buffers|
  {
    Resume(Session(c, buffers[..fed - 1], hc))
  }

  /** An embedder that feeds buffers until a call does not consume its buffer.  However the input is
      cut, the parser consumes and reports what one call on the whole input would, except that an
      error leaves the data behind the open mark of the failing buffer unreported. */
  method ExecuteAll(p: HttpParser, buffers: seq<Bytes>) returns (fed: nat, total: nat, n: nat)
    requires p.Valid() && p.st.errno == OK && !p.hist.exited && NonEmpty(buffers)
    requires forall i :: 0 <= i < |buffers| ==> |buffers[i]| + HTTP_MAX_HEADER_SIZE < 0xffff_ffff
    modifies p
    ensures p.Valid() && fed <= |buffers|
    ensures p.st.errno != HeaderOverflow && Uniform(old(p.hist), Flatten(buffers), p.hc) ==>
              var whole := Run(old(p.hist), Flatten(buffers), p.hc);
              && Emit([], p.log + p.lost) == whole.log && p.st.errno == whole.p.errno
              && total == whole.pos - old(p.hist).pos
              && (p.st.errno == OK ==> p.lost == [] && p.st == whole.p)
              && whole.peak <= HTTP_MAX_HEADER_SIZE
    ensures Uniform(old(p.hist), Flatten(buffers), p.hc) &&
            HighWater(old(p.hist), Flatten(buffers), p.hc) + old(p.calls) + |buffers| < HTTP_MAX_HEADER_SIZE ==>
              p.st.errno != HeaderOverflow
    ensures IsSyntaxError(p.st.errno) ==>
              && 0 < fed && n < |buffers[fed - 1]|
              && p.lost == Unreported(Before(old(p.hist), buffers, fed, p.hc), buffers[fed - 1], n, p.hc)
    ensures forall t :: OnTrack(t, old(p.hist)) ==> InGrammar(t, p.log)
    ensures old(p.st).state == AtStart(Dead) ==> Emit([], p.log + p.lost) == Emit([], old(p.log))
  {
    hide Run, Session, Emit, Unreported, Flatten, Uniform, Follows, InGrammar, HighWater;
    fed, total, n := 0, 0, 0;
    ghost var c := p.hist;
    assert buffers[..0] == [];
    SessionNothing(c, p.hc);
    FollowsItself(c);
    while fed < |buffers|
      invariant fed <= |buffers| && p.Valid() && p.st.errno == OK && Follows(c, p.hist)
      invariant p.hist == Session(c, buffers[..fed], p.hc) && total == p.hist.pos - c.pos
      invariant p.calls <= old(p.calls) + fed
    {
      ghost var h := p.hist;
      var data := buffers[fed];
      ghost var k;
      n, k := p.Execute(data);
      total := total + n;
      FollowsRun(c, h, data[..k], p.hc);
      if Uniform(c, Flatten(buffers), p.hc) {
        SessionPart(c, buffers, fed, k, p.hc);
      }
      SessionNext(c, buffers[..fed], data, p.hc);
      assert buffers[..fed + 1] == buffers[..fed] + [data];
      fed := fed + 1;
      if n != |data| || p.st.errno != OK {
        RunPos(Resume(h), data, p.hc);
        break;
      }
    }
    FollowsMeans(c, p.hist, p.log, p.lost);
    if p.st.errno != HeaderOverflow && Uniform(c, Flatten(buffers), p.hc) {
      SessionWhole(c, buffers, fed, p.hc);
    }
    assert old(p.log) + [] == old(p.log);
  }

  // Wherever c stands in the grammar, d stands behind it; and nothing follows the last message.
  ghost predicate Follows(c: Config, d: Config) {
    && (forall t :: OnTrack(t, c) ==> OnTrack(t, d))
    && (c.p.state == AtStart(Dead) ==> d.log == c.log && (d.p.errno == OK ==> d.p.state == AtStart(Dead)))
  }

  lemma FollowsItself(c: Config)
    ensures Follows(c, c)
  {
    hide OnTrack;
  }

  lemma FollowsRun(c: Config, d: Config, s: Bytes, hc: Callback)
    requires Follows(c, d) && d.p.errno == OK
    ensures Follows(c, Run(Resume(d), s, hc))
  {
    hide Run, PlaceOf, Fits;
    forall t | OnTrack(t, c) ensures OnTrack(t, Run(Resume(d), s, hc)) {
      RunOnTrack(t, Resume(d), s, hc);
    }
    if c.p.state == AtStart(Dead) {
      DeadStays(Resume(d), s, hc);
      DeadSilent(Resume(d), s, hc);
    }
  }

  lemma FollowsMeans(c: Config, d: Config, log: seq<Event>, lost: seq<Event>)
    requires Follows(c, d) && Emit([], log + lost) == d.log
    ensures forall t :: OnTrack(t, c) ==> InGrammar(t, log)
    ensures c.p.state == AtStart(Dead) ==> Emit([], log + lost) == c.log
  {
    hide OnTrack, InGrammar, Emit;
    forall t | OnTrack(t, c) ensures InGrammar(t, log) {
      LogInGrammar(t, d, log, lost);
    }
  }

  lemma SessionNothing(c: Config, hc: Callback)
    ensures Session(c, [], hc) == c
  {
    hide Run;
  }

  // ---------------------------------------------------------------- the end of the input

  // The place of the log in the grammar of the parser's type.
  function Standing(p: Parser, log: seq<Event>): Place { PlaceOf(p.typ != Response, Idle, log) }

  // The input may end exactly between two messages, or inside a body that the end of the connection
  // delimits, or behind the line ends for which a response parser reports a message too early.  Then
  // every message that was begun is complete, but for that one.
  lemma EofMeans(t: ParserType, c: Config)
    requires OnTrack(t, c) && c.p.errno == OK
    ensures var (e, events, n) := HttpParser.AtEof(c.p);
            var g, h := Standing(c.p, c.log), Standing(c.p, Emit(c.log, events));
            var early := g == Begun && c.p.state == AtStart(StartRes);
            && (e == OK <==> g == Idle || c.p.state == AtBody(BodyIdentityEof) || early)
            && (e == OK ==> h == if early then Begun else Idle) && (e != OK ==> h == g != Idle)
            && (n == 0 <==> e == OK)
  {
    hide PlaceOf;
    EmitNone(c.log);
    EmitOne(c.log, Notify(MessageComplete));
    PlacePush(c.p.typ != Response, Idle, c.log, Notify(MessageComplete));
  }
}
