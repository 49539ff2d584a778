/**
 The Connection header: which options of its list the nested automaton hears.
 */
module HttpOptions {
  import opened HttpTypes
  import opened HttpStep
  import opened HttpInvariant
  import opened HttpHeaders

  function LowerAll(s: Bytes): (u: Bytes)
    ensures |u| == |s|
    decreases |s|
  {
    if s == [] then [] else LowerAll(s[..|s| - 1]) + [Lower(s[|s| - 1])]
  }

  predicate AllSpaces(s: Bytes) { forall i :: 0 <= i < |s| ==> s[i] == ' ' }

  // `word` in any case, with spaces behind it.
  predicate IsWord(s: Bytes, word: string) {
    |s| >= |word| && LowerAll(s[..|word|]) == word && AllSpaces(s[|word|..])
  }

  lemma SpacesGrow(s: Bytes, ch: Byte)
    ensures AllSpaces(s + [ch]) <==> AllSpaces(s) && ch == ' '
  {
    var t := s + [ch];
    assert t[|s|] == ch;
    assert forall i :: 0 <= i < |s| ==> t[i] == s[i];
  }

  lemma LowerGrows(s: Bytes, ch: Byte)
    ensures LowerAll(s + [ch]) == LowerAll(s) + [Lower(ch)]
  {
    assert (s + [ch])[..|s|] == s;
  }

  lemma WordGrows(s: Bytes, ch: Byte, word: string)
    ensures var t := s + [ch];
            if |s| >= |word| then IsWord(t, word) <==> IsWord(s, word) && ch == ' '
            else IsWord(t, word) <==> LowerAll(t) == word
  {
    hide LowerAll, AllSpaces;
    var t, n := s + [ch], |word|;
    if |s| >= n {
      assert t[..n] == s[..n];
      assert t[n..] == s[n..] + [ch];
      SpacesGrow(s[n..], ch);
    } else if |t| == n {
      assert t[..n] == t && t[n..] == [];
      NoSpaces();
    }
  }

  lemma NoSpaces()
    ensures AllSpaces([])
  {
  }

  // ---------------------------------------------------------------- one element of the list

  // An element without the spaces in front of it.
  function Strip(u: Bytes): (y: Bytes)
    decreases |u|
  {
    if u != [] && u[0] == ' ' then Strip(u[1..]) else u
  }

  // How the automaton takes the next element: in full, not at all because it still believes to
  // be in the one before, or not at all because it has given up on the list.
  datatype Mode = First | Fresh | Passing | Off

  // An element that makes the automaton give up: in a place other than the first, it starts
  // with something that is no token byte once it is lowered, or is empty.
  predicate GivesUp(y: Bytes) {
    y == [] || var c := Lower(y[0]); !IsToken(c)
  }

  // The state in the middle of an option, of which y has been read.
  function OptionState(y: Bytes): HeaderState {
    if IsWord(y, KEEP_ALIVE) then ConnectionKeepAlive
    else if IsWord(y, CLOSE) then ConnectionClose
    else if IsWord(y, UPGRADE) then ConnectionUpgrade
    else if LowerAll(y) < KEEP_ALIVE then MatchingConnectionKeepAlive
    else if LowerAll(y) < CLOSE then MatchingConnectionClose
    else if LowerAll(y) < UPGRADE then MatchingConnectionUpgrade
    else MatchingConnectionToken
  }

  // A beginning of an option the automaton knows, but not the whole.
  predicate Cut(y: Bytes) {
    LowerAll(y) < KEEP_ALIVE || LowerAll(y) < CLOSE || LowerAll(y) < UPGRADE
  }

  predicate Matching(h: HeaderState) {
    h.MatchingConnectionKeepAlive? || h.MatchingConnectionClose? || h.MatchingConnectionUpgrade?
  }

  predicate OptionRead(p: Parser, y: Bytes) {
    y != [] && p.hstate == OptionState(y) && (Matching(p.hstate) ==> p.index == |y| - 1)
  }

  lemma OptionsDiffer(y: Bytes)
    requires y != []
    ensures LowerAll(y) <= KEEP_ALIVE || IsWord(y, KEEP_ALIVE) ==> LowerAll(y)[0] == 'k'
    ensures LowerAll(y) <= CLOSE || IsWord(y, CLOSE) ==> LowerAll(y)[0] == 'c'
    ensures LowerAll(y) <= UPGRADE || IsWord(y, UPGRADE) ==> LowerAll(y)[0] == 'u'
  {
    hide Lower, LowerAll, KEEP_ALIVE, CLOSE, UPGRADE;
    FirstLetters();
    if IsWord(y, KEEP_ALIVE) { LowerPrefix(y, |KEEP_ALIVE|); }
    if IsWord(y, CLOSE) { LowerPrefix(y, |CLOSE|); }
    if IsWord(y, UPGRADE) { LowerPrefix(y, |UPGRADE|); }
  }

  lemma FirstLetters()
    ensures |KEEP_ALIVE| == 10 && KEEP_ALIVE[0] == 'k' && |CLOSE| == 5 && CLOSE[0] == 'c'
    ensures |UPGRADE| == 7 && UPGRADE[0] == 'u'
  {
  }

  lemma {:induction false} LowerPrefix(y: Bytes, n: nat)
    requires n <= |y|
    ensures LowerAll(y[..n]) == LowerAll(y)[..n]
    decreases |y|
  {
    if n < |y| {
      var t := y[..|y| - 1];
      assert t[..n] == y[..n];
      LowerPrefix(t, n);
    } else {
      assert y[..n] == y;
    }
  }

  // One more byte of an option.
  lemma OptionNext(y: Bytes, ch: Byte)
    requires y != []
    ensures OptionState(y + [ch]) ==
            match OptionState(y)
            case ConnectionKeepAlive | ConnectionClose | ConnectionUpgrade =>
              if ch == ' ' then OptionState(y) else MatchingConnectionToken
            case MatchingConnectionKeepAlive => OptionMatch(y, ch, KEEP_ALIVE, ConnectionKeepAlive)
            case MatchingConnectionClose => OptionMatch(y, ch, CLOSE, ConnectionClose)
            case MatchingConnectionUpgrade => OptionMatch(y, ch, UPGRADE, ConnectionUpgrade)
            case _ => MatchingConnectionToken
  {
    hide Lower, LowerAll, KEEP_ALIVE, CLOSE, UPGRADE, IsWord;
    OptionsDiffer(y);
    OptionsDiffer(y + [ch]);
    FirstLetters();
    LowerGrows(y, ch);
    WordGrows(y, ch, KEEP_ALIVE);
    WordGrows(y, ch, CLOSE);
    WordGrows(y, ch, UPGRADE);
    MatchNext(LowerAll(y), Lower(ch), KEEP_ALIVE);
    MatchNext(LowerAll(y), Lower(ch), CLOSE);
    MatchNext(LowerAll(y), Lower(ch), UPGRADE);
    WordNotCut(y, KEEP_ALIVE);
    WordNotCut(y, CLOSE);
    WordNotCut(y, UPGRADE);
  }

  lemma WordNotCut(y: Bytes, word: string)
    ensures IsWord(y, word) ==> |y| >= |word|
    ensures LowerAll(y) < word ==> |y| < |word|
  {
  }

  function OptionMatch(y: Bytes, ch: Byte, word: string, full: HeaderState): HeaderState {
    if |y| >= |word| || Lower(ch) != word[|y|] then MatchingConnectionToken
    else if |y| + 1 == |word| then full else OptionState(y)
  }

  lemma OptionByte(p: Parser, y: Bytes, ch: Byte)
    requires OptionRead(p, y) && ch != ','
    ensures var q := ValueByte(p, ch);
            OptionRead(q, y + [ch]) && q == p.(index := q.index, hstate := q.hstate)
  {
    hide Lower, OptionState, KEEP_ALIVE, CLOSE, UPGRADE, SetHeaderFlag, Accumulate;
    OptionNext(y, ch);
    OptionStates(y);
  }

  lemma OptionStates(y: Bytes)
    requires y != []
    ensures var h := OptionState(y);
            || h.ConnectionKeepAlive? || h.ConnectionClose? || h.ConnectionUpgrade?
            || Matching(h) || h.MatchingConnectionToken?
    ensures Matching(OptionState(y)) <==> Cut(y)
  {
    hide LowerAll, KEEP_ALIVE, CLOSE, UPGRADE, IsWord;
    OptionsDiffer(y);
    WordNotCut(y, KEEP_ALIVE);
    WordNotCut(y, CLOSE);
    WordNotCut(y, UPGRADE);
  }

  // ---------------------------------------------------------------- the list

  // How far a list has been read: the element it is in, and the flags of those before it.
  datatype Scan = Scan(mode: Mode, part: Bytes, flags: Flags)

  function Grant(f: Flags, y: Bytes): Flags {
    if IsWord(y, KEEP_ALIVE) then f.(keepAlive := true)
    else if IsWord(y, CLOSE) then f.(close := true)
    else if IsWord(y, UPGRADE) then f.(connectionUpgrade := true)
    else f
  }

  // The element the scan is in.
  function Element(t: Scan): Bytes { if t.mode == First then t.part else Strip(t.part) }

  predicate Listening(m: Mode) { m == First || m == Fresh }

  // The flags once the element is finished.
  function Heard(t: Scan): Flags { if Listening(t.mode) then Grant(t.flags, Element(t)) else t.flags }

  // How the element behind the comma is taken.
  function ModeAfter(t: Scan): Mode {
    match t.mode
    case First => if Cut(t.part) then Passing else Fresh
    case Fresh => if GivesUp(Strip(t.part)) then Off else if Cut(Strip(t.part)) then Passing else Fresh
    case Passing => Fresh
    case Off => Off
  }

  function ScanNext(t: Scan, ch: Byte): Scan {
    if ch == ',' then Scan(ModeAfter(t), [], Heard(t)) else t.(part := t.part + [ch])
  }

  function ScanAll(f: Flags, s: Bytes): Scan
    decreases |s|
  {
    if s == [] then Scan(First, [], f) else ScanNext(ScanAll(f, s[..|s| - 1]), s[|s| - 1])
  }

  predicate Scanned(p: Parser, t: Scan) {
    && p.flags == t.flags
    && match t.mode
       case First => OptionRead(p, t.part)
       case Fresh =>
         if Strip(t.part) == [] then p.hstate == MatchingConnectionTokenStart && p.index == 0
         else if GivesUp(Strip(t.part)) then p.hstate == General
         else OptionRead(p, Strip(t.part))
       case Passing => p.hstate == MatchingConnectionToken
       case Off => p.hstate == General
  }

  lemma {:induction false} StripGrows(u: Bytes, ch: Byte)
    ensures Strip(u + [ch]) == if Strip(u) == [] && ch == ' ' then [] else Strip(u) + [ch]
    decreases |u|
  {
    var v := u + [ch];
    if u == [] {
      assert v == [ch] && v[1..] == [];
    } else if u[0] == ' ' {
      assert v[1..] == u[1..] + [ch];
      StripGrows(u[1..], ch);
    }
  }

  lemma OptionStarts(p: Parser, ch: Byte)
    requires p.hstate == MatchingConnectionTokenStart && p.index == 0 && ch != ' ' && ch != '\0'
    ensures var q := ValueByte(p, ch);
            && q == p.(hstate := q.hstate)
            && if GivesUp([ch]) then q.hstate == General else OptionRead(q, [ch])
  {
    hide KEEP_ALIVE, CLOSE, UPGRADE, OptionState;
    assert Lower(ch) != ' ' && Lower(ch) != '\t';
    FirstOption(ch);
  }

  lemma FirstOption(ch: Byte)
    ensures OptionState([ch]) ==
            if Lower(ch) == 'k' then MatchingConnectionKeepAlive
            else if Lower(ch) == 'c' then MatchingConnectionClose
            else if Lower(ch) == 'u' then MatchingConnectionUpgrade
            else MatchingConnectionToken
  {
    hide Lower;
    assert [ch][..0] == [];
    var u := LowerAll([ch]);
    assert u == [Lower(ch)];
    assert KEEP_ALIVE[..1] == "k" && CLOSE[..1] == "c" && UPGRADE[..1] == "u";
    OptionsDiffer([ch]);
  }

  // A comma in an option.
  lemma OptionEnds(p: Parser, y: Bytes)
    requires OptionRead(p, y)
    ensures var q := ValueByte(p, ',');
            if Cut(y) then
              q == p.(index := p.index + 1, hstate := MatchingConnectionToken) && Grant(p.flags, y) == p.flags
            else q == p.(index := 0, hstate := MatchingConnectionTokenStart, flags := Grant(p.flags, y))
  {
    hide LowerAll, KEEP_ALIVE, CLOSE, UPGRADE, IsWord;
    OptionStates(y);
    NoCommas();
    assert Lower(',') == ',';
  }

  lemma NoCommas()
    ensures forall i :: 0 <= i < |KEEP_ALIVE| ==> KEEP_ALIVE[i] != ','
    ensures forall i :: 0 <= i < |CLOSE| ==> CLOSE[i] != ','
    ensures forall i :: 0 <= i < |UPGRADE| ==> UPGRADE[i] != ','
  {
  }

  lemma GivesUpOnNone(f: Flags, y: Bytes, ch: Byte)
    requires GivesUp(y)
    ensures Grant(f, y) == f && (y != [] ==> GivesUp(y + [ch]))
  {
    hide KEEP_ALIVE, CLOSE, UPGRADE, IsWord;
    if y != [] {
      OptionsDiffer(y);
      LowerFirst(y);
    } else {
      NoWord();
    }
  }

  lemma NoWord()
    ensures !IsWord([], KEEP_ALIVE) && !IsWord([], CLOSE) && !IsWord([], UPGRADE)
  {
  }

  lemma LowerFirst(y: Bytes)
    requires y != []
    ensures LowerAll(y)[0] == Lower(y[0])
  {
    LowerPrefix(y, 1);
    assert y[..1] == [y[0]] && [y[0]][..0] == [];
  }

  // What the s_header_value loop does with one byte of a Connection header.
  lemma ScanByte(p: Parser, t: Scan, ch: Byte)
    requires Scanned(p, t) && ch != '\0'
    ensures var q := ValueByte(p, ch);
            Scanned(q, ScanNext(t, ch)) && q == p.(index := q.index, hstate := q.hstate, flags := q.flags)
  {
    hide KEEP_ALIVE, CLOSE, UPGRADE, IsWord, OptionRead, ValueByte, Grant, Cut, GivesUp;
    StripGrows(t.part, ch);
    match t.mode {
      case First => ScanOption(p, t, t.part, ch);
      case Fresh =>
        var y := Strip(t.part);
        if y == [] {
          ScanBlank(p, t, ch);
          assert y + [ch] == [ch];
        } else if GivesUp(y) {
          GeneralStays(p, ch);
          GivesUpOnNone(t.flags, y, ch);
        } else {
          ScanOption(p, t, y, ch);
        }
      case Passing => TokenStays(p, ch);
      case Off => GeneralStays(p, ch);
    }
  }

  lemma GeneralStays(p: Parser, ch: Byte)
    requires p.hstate == General
    ensures ValueByte(p, ch) == p
  {
  }

  lemma TokenStays(p: Parser, ch: Byte)
    requires p.hstate == MatchingConnectionToken
    ensures ValueByte(p, ch) ==
            if ch == ',' then p.(hstate := MatchingConnectionTokenStart, index := 0) else p
  {
  }

  lemma ScanOption(p: Parser, t: Scan, y: Bytes, ch: Byte)
    requires OptionRead(p, y) && (t.mode == Fresh ==> !GivesUp(y))
    ensures var q := ValueByte(p, ch);
            && q == p.(index := q.index, hstate := q.hstate, flags := q.flags)
            && if ch != ',' then
                 OptionRead(q, y + [ch]) && q.flags == p.flags && (t.mode == Fresh ==> !GivesUp(y + [ch]))
               else q.flags == Grant(p.flags, y) &&
                    if Cut(y) then q.hstate == MatchingConnectionToken
                    else q.hstate == MatchingConnectionTokenStart && q.index == 0
  {
    hide KEEP_ALIVE, CLOSE, UPGRADE, IsWord, ValueByte, Grant, Cut, OptionState;
    if ch == ',' {
      OptionEnds(p, y);
    } else {
      OptionByte(p, y, ch);
    }
  }

  lemma ScanBlank(p: Parser, t: Scan, ch: Byte)
    requires p.hstate == MatchingConnectionTokenStart && p.index == 0 && ch != '\0'
    ensures var q := ValueByte(p, ch);
            && q == p.(hstate := q.hstate) && (ch == ' ' ==> q == p) && GivesUp([])
            && Grant(p.flags, []) == p.flags
            && (ch != ' ' && ch != ',' ==> if GivesUp([ch]) then q.hstate == General else OptionRead(q, [ch]))
            && (ch == ',' ==> q.hstate == General)
  {
    hide KEEP_ALIVE, CLOSE, UPGRADE, IsWord, OptionState;
    NoWord();
    if ch != ' ' {
      OptionStarts(p, ch);
    } else {
      assert Lower(' ') == ' ';
    }
  }

  // The first byte of a Connection header.
  lemma ScanStarts(p: Parser, ch: Byte)
    requires p.hstate == Connection
    ensures var q := StartValue(p, ch).p;
            && Scanned(q, ScanAll(p.flags, [ch]))
            && q == p.(state := AtValue(HeaderValue), index := 0, hstate := q.hstate)
  {
    hide KEEP_ALIVE, CLOSE, UPGRADE, IsWord, OptionState, Grant;
    assert [ch][..0] == [];
    assert ScanAll(p.flags, [ch]) == ScanNext(Scan(First, [], p.flags), ch);
    assert [] + [ch] == [ch];
    FirstOption(ch);
    if ch == ',' {
      NothingIsCut(p.flags);
    }
  }

  lemma NothingIsCut(f: Flags)
    ensures Cut([]) && Grant(f, []) == f
  {
  }

  // The end of the header.
  lemma ScanEnds(p: Parser, t: Scan)
    requires Scanned(p, t)
    ensures SetHeaderFlag(p) == p.(flags := Heard(t))
  {
    hide KEEP_ALIVE, CLOSE, UPGRADE, IsWord;
    if t.mode == First {
      OptionStates(t.part);
    } else if t.mode == Fresh {
      if GivesUp(Strip(t.part)) {
        GivesUpOnNone(t.flags, Strip(t.part), ' ');
      } else {
        OptionStates(Strip(t.part));
      }
    }
  }
}
