/**
 The Connection header: which of its options the parser acts on, compared with section 6.1 of
 RFC 7230, which gives every element of the list its meaning.
 */
module HttpConnection {
  import opened HttpTypes
  import opened HttpStep
  import opened HttpRun
  import opened HttpHeaders
  import opened HttpOptions
  import opened HttpLists
  import opened HttpValues

  // The options the parser knows.
  datatype Wish = StayOpen | CloseIt | SwitchOver

  function WordOf(o: Wish): string {
    match o
    case StayOpen => KEEP_ALIVE
    case CloseIt => CLOSE
    case SwitchOver => UPGRADE
  }

  predicate Has(f: Flags, o: Wish) {
    match o
    case StayOpen => f.keepAlive
    case CloseIt => f.close
    case SwitchOver => f.connectionUpgrade
  }

  // ---------------------------------------------------------------- the elements the parser reaches

  // The beginning of an option the parser knows, but not the whole.
  predicate Stub(u: Bytes) { Cut(Strip(u)) }

  // Nothing but spaces, or something that is no token.
  predicate Stops(u: Bytes) { GivesUp(Strip(u)) }

  // An element behind a stub is taken for a part of it.
  predicate Skipped(es: seq<Bytes>, i: nat)
    requires i <= |es|
  {
    i > 0 && !Skipped(es, i - 1) && Stub(es[i - 1])
  }

  // The parser has given up on the list before element i.
  predicate Quit(es: seq<Bytes>, i: nat)
    requires i <= |es|
  {
    exists j :: 0 < j < i && !Skipped(es, j) && Stops(es[j])
  }

  predicate Reached(es: seq<Bytes>, i: nat)
    requires i <= |es|
  {
    !Skipped(es, i) && !Quit(es, i)
  }

  // Some element is the option.
  predicate Named(es: seq<Bytes>, o: Wish) {
    exists i :: 0 <= i < |es| && Means(es[i], WordOf(o))
  }

  // Some element is the option, and the parser reaches it and finds no tab at its side.
  predicate Audible(es: seq<Bytes>, o: Wish) {
    exists i :: 0 <= i < |es| && Means(es[i], WordOf(o)) && Reached(es, i) && '\t' !in es[i]
  }

  // ---------------------------------------------------------------- the scan follows the elements

  function ModeBehind(es: seq<Bytes>): Mode
    decreases |es|
  {
    var n := |es| - 1;
    if es == [] then First else ModeAfter(Scan(ModeBehind(es[..n]), es[n], NO_FLAGS))
  }

  function FlagsBehind(f: Flags, es: seq<Bytes>): Flags
    decreases |es|
  {
    var n := |es| - 1;
    if es == [] then f else Heard(Scan(ModeBehind(es[..n]), es[n], FlagsBehind(f, es[..n])))
  }

  // The scan is in the last element, behind the others.
  lemma {:induction false} ScanSplits(f: Flags, s: Bytes)
    ensures var es := Split(s);
            var n := |es| - 1;
            ScanAll(f, s) == Scan(ModeBehind(es[..n]), es[n], FlagsBehind(f, es[..n]))
    decreases |s|
  {
    hide ModeAfter, Heard;
    var es := Split(s);
    if s == [] {
      assert es[..0] == [];
    } else {
      var t, ch := s[..|s| - 1], s[|s| - 1];
      ScanSplits(f, t);
      var ds := Split(t);
      var m := |ds| - 1;
      if ch == ',' {
        assert es[..m + 1] == ds;
        ModeIgnoresFlags(ScanAll(f, t));
      } else {
        assert es[..m] == ds[..m];
      }
    }
  }

  lemma ModeIgnoresFlags(t: Scan)
    ensures ModeAfter(t) == ModeAfter(t.(flags := NO_FLAGS))
  {
    hide Cut, GivesUp;
  }

  lemma HeardSplits(f: Flags, s: Bytes)
    ensures Heard(ScanAll(f, s)) == FlagsBehind(f, Split(s))
  {
    hide Heard, ScanAll, Split, ModeBehind;
    ScanSplits(f, s);
  }

  // ---------------------------------------------------------------- modes and flags, by elements

  // White space in front of a value is not part of it.
  predicate StartsAtOnce(es: seq<Bytes>) { es != [] && (es[0] != [] ==> es[0][0] != ' ') }

  lemma {:induction false} ModeMeans(es: seq<Bytes>, i: nat)
    requires i <= |es| && StartsAtOnce(es)
    ensures ModeBehind(es[..i]) ==
            if Quit(es, i) then Off else if Skipped(es, i) then Passing else if i == 0 then First else Fresh
    decreases i
  {
    hide Cut, GivesUp;
    if i > 0 {
      ModeMeans(es, i - 1);
      assert es[..i][..i - 1] == es[..i - 1];
      assert Quit(es, i) <==> Quit(es, i - 1) || (i > 1 && !Skipped(es, i - 1) && Stops(es[i - 1]));
    }
  }

  lemma GrantMeans(f: Flags, y: Bytes, o: Wish)
    ensures Has(Grant(f, y), o) <==> Has(f, o) || IsWord(y, WordOf(o))
  {
    hide IsWord, KEEP_ALIVE, CLOSE, UPGRADE;
    if y == [] {
      NoWord();
    } else {
      OptionsDiffer(y);
    }
  }

  predicate Sounds(es: seq<Bytes>, i: nat, o: Wish)
    requires i < |es|
  {
    Reached(es, i) && IsWord(Strip(es[i]), WordOf(o))
  }

  lemma FlagsNext(f: Flags, es: seq<Bytes>, k: nat, o: Wish)
    requires 0 < k <= |es| && StartsAtOnce(es)
    ensures Has(FlagsBehind(f, es[..k]), o) <==> Has(FlagsBehind(f, es[..k - 1]), o) || Sounds(es, k - 1, o)
  {
    hide Grant, IsWord, Skipped, Quit, Has, ModeBehind;
    ModeMeans(es, k - 1);
    assert es[..k][..k - 1] == es[..k - 1];
    GrantMeans(FlagsBehind(f, es[..k - 1]), Strip(es[k - 1]), o);
    assert k == 1 ==> Strip(es[0]) == es[0];
  }

  lemma FlagsFirst(f: Flags)
    ensures FlagsBehind(f, []) == f
  {
  }

  lemma {:induction false} FlagsMean(f: Flags, es: seq<Bytes>, k: nat, o: Wish)
    requires k <= |es| && StartsAtOnce(es)
    ensures Has(FlagsBehind(f, es[..k]), o) <==> Has(f, o) || exists i :: 0 <= i < k && Sounds(es, i, o)
    decreases k
  {
    hide Sounds, Has, FlagsBehind;
    if k > 0 {
      FlagsMean(f, es, k - 1, o);
      FlagsNext(f, es, k, o);
    } else {
      assert es[..0] == [];
      FlagsFirst(f);
    }
  }

  // ---------------------------------------------------------------- what the parser hears

  lemma {:induction false} SplitKeeps(s: Bytes, b: Byte)
    requires b !in s
    ensures forall i :: 0 <= i < |Split(s)| ==> b !in Split(s)[i]
    decreases |s|
  {
    if s != [] {
      SplitKeeps(s[..|s| - 1], b);
    }
  }

  lemma {:induction false} SplitStarts(s: Bytes)
    requires s != [] ==> s[0] != ' '
    ensures StartsAtOnce(Split(s))
    ensures Split(s)[0] != [] ==> s != [] && Split(s)[0][0] == s[0]
    decreases |s|
  {
    if s != [] {
      SplitStarts(s[..|s| - 1]);
      if |s| == 1 {
        assert s[..0] == [];
      }
    }
  }

  lemma TextNoCr(s: Bytes)
    requires IsText(s)
    ensures CR !in s
  {
  }

  // A flag is set by exactly the audible elements.
  lemma ListHeard(f: Flags, s: Bytes, o: Wish)
    requires IsValue(s)
    ensures Has(Heard(ScanAll(f, s)), o) <==> Has(f, o) || Audible(Split(s), o)
  {
    hide Has, Heard, ScanAll, Split, FlagsBehind, Reached, IsWord, Means;
    var es := Split(s);
    TextNoCr(s);
    SplitKeeps(s, CR);
    SplitStarts(s);
    HeardSplits(f, s);
    assert es[..|es|] == es;
    FlagsMean(f, es, |es|, o);
    Keywords();
    forall i | 0 <= i < |es|
      ensures Sounds(es, i, o) <==> Means(es[i], WordOf(o)) && Reached(es, i) && '\t' !in es[i]
    {
      WordMeans(es[i], WordOf(o));
    }
  }

  // A Connection header sets the flag of an option exactly if it is set already or audible.  That is
  // what section 6.1 asks exactly if an option that is named is set already or audible.
  lemma ConnectionHeard(c: Config, h: Header, rest: Bytes, hc: Callback, o: Wish) returns (e: Config)
    requires Running(c) && c.p.state == AtField(HeaderFieldStart) && IsHeader(h) && KindOf(h) == Connection
    requires rest != [] && !IsBlank(rest[0])
    ensures Running(e) && Run(c, PrintHeader(h) + rest, hc) == Run(e, rest, hc)
    ensures Has(e.p.flags, o) <==> Has(c.p.flags, o) || Audible(Split(h.value), o)
    ensures (Has(e.p.flags, o) <==> Has(c.p.flags, o) || Named(Split(h.value), o)) <==>
            (Named(Split(h.value), o) ==> Has(c.p.flags, o) || Audible(Split(h.value), o))
  {
    hide Run, PrintHeader, Emit, Has, Split, Heard, ScanAll, Reached, Means, NameState;
    ConnectionKeepsName(c.p.flags, h);
    e := HeaderLine(c, h, rest, hc);
    ListHeard(c.p.flags, h.value, o);
    if h.value == [] {
      NothingHeard(c.p.flags);
    }
  }

  lemma ConnectionKeepsName(f: Flags, h: Header)
    requires KindOf(h) == Connection
    ensures NameFlags(f, Lowered(h.name)) == f && Admits(f, h)
  {
    assert CONTENT_LENGTH[3] != CONNECTION[3] && CONTENT_LENGTH[0] != PROXY_CONNECTION[0];
  }

  lemma NothingHeard(f: Flags)
    ensures Heard(ScanAll(f, [])) == f
  {
    hide IsWord;
    NoWord();
  }

  // A list without tabs in which every element starts with a token and none is the beginning of an
  // option is heard in full.
  lemma PlainListHeard(s: Bytes, o: Wish)
    requires '\t' !in s
    requires forall i :: 0 <= i < |Split(s)| ==> !Stub(Split(s)[i]) && !Stops(Split(s)[i])
    ensures Audible(Split(s), o) <==> Named(Split(s), o)
  {
    hide Split, Means, Stub, Stops;
    var es := Split(s);
    SplitKeeps(s, '\t');
    if i :| 0 <= i < |es| && Means(es[i], WordOf(o)) {
      assert Reached(es, i);
    }
  }

  // ---------------------------------------------------------------- options missed

  // Lists that say "close" where the parser does not hear it.
  predicate IsMissed(s: Bytes) { s == "close\t" || s == "keep-alive,\tclose" || s == "c,close" }

  lemma ClosePlain(u: Bytes)
    requires u == "close" || u == "close\t" || u == "\tclose"
    ensures Means(u, CLOSE)
  {
    if u == "close\t" {
      assert u[..5] == "close";
      assert TrimRight(u) == TrimRight("close") == "close";
    } else if u == "\tclose" {
      assert u[1..] == "close";
      assert TrimLeft(u) == TrimLeft("close") == "close";
    }
  }

  lemma MissedLists()
    ensures Split("close\t") == ["close\t"]
    ensures Split("keep-alive,\tclose") == ["keep-alive", "\tclose"]
    ensures Split("c,close") == ["c", "close"]
  {
    hide Split;
    SplitOne("close\t");
    SplitOne("keep-alive");
    SplitMore("keep-alive", "\tclose");
    assert "keep-alive" + "," + "\tclose" == "keep-alive,\tclose";
    SplitOne("c");
    SplitMore("c", "close");
    assert "c" + "," + "close" == "c,close";
  }

  lemma NotClose()
    ensures !Means("keep-alive", CLOSE) && !Means("c", CLOSE) && Stub("c")
  {
    assert "c"[..0] == [];
    assert LowerAll("c") == "c" && CLOSE[..1] == "c" && Strip("c") == "c";
  }

  lemma MissedMeans(s: Bytes)
    requires IsMissed(s)
    ensures Named(Split(s), CloseIt) && !Audible(Split(s), CloseIt)
  {
    hide Split, Means, Stub, CLOSE, Quit;
    MissedLists();
    NotClose();
    ClosePlain("close");
    ClosePlain("close\t");
    ClosePlain("\tclose");
    var es := Split(s);
    if s == "c,close" {
      assert Skipped(es, 1);
      assert Means(es[1], WordOf(CloseIt));
    } else if s == "close\t" {
      assert Means(es[0], WordOf(CloseIt)) && es[0][5] == '\t';
    } else {
      assert Means(es[1], WordOf(CloseIt)) && es[1][0] == '\t';
    }
  }

  lemma MissedHeader(f: Flags, h: Header)
    requires h.name == "Connection" && IsMissed(h.value)
    ensures IsHeader(h) && Admits(f, h) && KindOf(h) == Connection
  {
    hide NameState, CONTENT_LENGTH, Lowered, IsToken;
    ConnectionName(h);
    assert IsText(h.value);
  }

  // The bytes of such a header leave F_CONNECTION_CLOSE unset.
  lemma CloseMissed(c: Config, s: Bytes, rest: Bytes, hc: Callback) returns (e: Config)
    requires Running(c) && c.p.state == AtField(HeaderFieldStart) && !c.p.flags.close
    requires IsMissed(s) && rest != [] && !IsBlank(rest[0])
    ensures Named(Split(s), CloseIt) && !e.p.flags.close
    ensures Run(c, "Connection: " + s + "\r\n" + rest, hc) == Run(e, rest, hc)
  {
    hide Run, Split, Audible, Named, NameState, IsHeader, Admits;
    var h := Header("Connection", s);
    MissedHeader(c.p.flags, h);
    MissedMeans(s);
    e := ConnectionHeard(c, h, rest, hc, CloseIt);
    assert "Connection" + ": " == "Connection: ";
    assert PrintHeader(h) + rest == "Connection: " + s + "\r\n" + rest;
  }

  lemma ConnectionName(h: Header)
    requires h.name == "Connection"
    ensures KindOf(h) == Connection && IsTokens(h.name) && !(CONTENT_LENGTH <= Lowered(h.name))
  {
    var u := Lowered(h.name);
    forall i | 0 <= i < |u| ensures u[i] == TokenOf(h.name[i]) {
      LoweredAt(h.name, i);
    }
    assert u == CONNECTION;
  }
}
