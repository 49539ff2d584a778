/**
 Header recognition: which names the nested automaton takes for Connection, Content-Length,
 Transfer-Encoding and Upgrade.
 */
module HttpHeaders {
  import opened Basics
  import opened HttpTypes
  import opened HttpStep
  import opened HttpRun
  import opened HttpInvariant
  import opened HttpBlocks
  import opened HttpReach

  predicate IsTokens(w: Bytes) { forall i :: 0 <= i < |w| ==> IsToken(w[i]) }

  // A header name as the tokens table reads it.
  function Lowered(w: Bytes): (u: Bytes)
    ensures |u| == |w|
    decreases |w|
  {
    if w == [] then [] else Lowered(w[..|w| - 1]) + [TokenOf(w[|w| - 1])]
  }

  lemma {:induction false} LoweredAt(w: Bytes, i: nat)
    requires i < |w|
    ensures Lowered(w)[i] == TokenOf(w[i])
    decreases |w|
  {
    if i < |w| - 1 {
      LoweredAt(w[..|w| - 1], i);
    }
  }

  // The header state a (lowered, non-empty) beginning of a name calls for.
  function NameState(u: Bytes): HeaderState {
    if u == CONNECTION || u == PROXY_CONNECTION then Connection
    else if u == CONTENT_LENGTH then ContentLength
    else if u == TRANSFER_ENCODING then TransferEncoding
    else if u == UPGRADE then Upgrade
    else if u < CONNECTION then
      (if |u| == 1 then C else if |u| == 2 then CO else if |u| == 3 then CON else MatchingConnection)
    else if u < CONTENT_LENGTH then MatchingContentLength
    else if u < PROXY_CONNECTION then MatchingProxyConnection
    else if u < TRANSFER_ENCODING then MatchingTransferEncoding
    else if u < UPGRADE then MatchingUpgrade
    else General
  }

  // The states in which the index counts.
  predicate Indexed(h: HeaderState) {
    h.C? || h.CO? || h.CON? || h.MatchingConnection? || h.MatchingProxyConnection? || h.MatchingContentLength?
    || h.MatchingTransferEncoding? || h.MatchingUpgrade?
  }

  predicate NameRead(p: Parser, u: Bytes) {
    u != [] && p.hstate == NameState(u) && (Indexed(p.hstate) ==> p.index == |u| - 1)
  }

  // One more byte of a name that is the beginning of `word`.
  lemma MatchNext(u: Bytes, c: Byte, word: string)
    ensures u < word ==>
              && (u + [c] < word || u + [c] == word <==> c == word[|u|])
              && (u + [c] == word <==> c == word[|u|] && |u| == |word| - 1)
    ensures !(u < word) ==> !(u + [c] < word) && u + [c] != word
  {
    var v := u + [c];
    if v < word || v == word {
      assert v[|u|] == word[|u|] && u == word[..|u|];
    }
    if u < word && c == word[|u|] {
      assert v == word[..|u| + 1];
    }
  }

  // The keywords differ in their first byte, or in the fourth.
  lemma KeywordsDiffer(u: Bytes)
    requires u != []
    ensures u <= CONNECTION ==> u[0] == 'c' && (|u| > 3 ==> u[3] == 'n')
    ensures u <= CONTENT_LENGTH ==> u[0] == 'c' && (|u| > 3 ==> u[3] == 't')
    ensures u <= PROXY_CONNECTION ==> u[0] == 'p'
    ensures u <= TRANSFER_ENCODING ==> u[0] == 't'
    ensures u <= UPGRADE ==> u[0] == 'u'
    ensures |u| <= 3 ==> (u < CONNECTION <==> u < CONTENT_LENGTH)
  {
    if |u| <= 3 && (u < CONNECTION || u < CONTENT_LENGTH) {
      assert CONNECTION[..3] == CONTENT_LENGTH[..3];
      assert CONNECTION[..|u|] == CONNECTION[..3][..|u|] && CONTENT_LENGTH[..|u|] == CONTENT_LENGTH[..3][..|u|];
    }
  }

  // The bytes of the first three states.
  lemma ConBytes(u: Bytes)
    requires u < CONNECTION && 1 <= |u| <= 3
    ensures CONNECTION[1] == 'o' && CONNECTION[2] == 'n' && CONNECTION[3] == 'n' && CONTENT_LENGTH[3] == 't'
    ensures u < CONTENT_LENGTH && (|u| < 3 ==> CONTENT_LENGTH[|u|] == CONNECTION[|u|])
  {
    KeywordsDiffer(u);
  }

  lemma NextName(u: Bytes, c: Byte)
    requires u != []
    ensures var v := u + [c];
            && (!Indexed(NameState(u)) ==> NameState(v) == General)
            && (u < CONNECTION && |u| > 3 && c != CONNECTION[|u|] ==> NameState(v) == General)
            && (u < CONTENT_LENGTH && |u| > 3 && c != CONTENT_LENGTH[|u|] ==> NameState(v) == General)
            && (u < PROXY_CONNECTION && c != PROXY_CONNECTION[|u|] ==> NameState(v) == General)
            && (u < TRANSFER_ENCODING && c != TRANSFER_ENCODING[|u|] ==> NameState(v) == General)
            && (u < UPGRADE && c != UPGRADE[|u|] ==> NameState(v) == General)
  {
    hide CONNECTION, PROXY_CONNECTION, CONTENT_LENGTH, TRANSFER_ENCODING, UPGRADE;
    KeywordsDiffer(u);
    MatchNext(u, c, CONNECTION);
    MatchNext(u, c, PROXY_CONNECTION);
    MatchNext(u, c, CONTENT_LENGTH);
    MatchNext(u, c, TRANSFER_ENCODING);
    MatchNext(u, c, UPGRADE);
  }

  lemma NextShort(u: Bytes, c: Byte)
    requires u < CONNECTION && 1 <= |u| <= 3
    ensures NameState(u + [c]) ==
            if |u| == 1 then (if c == 'o' then CO else General)
            else if |u| == 2 then (if c == 'n' then CON else General)
            else if c == 'n' then MatchingConnection
            else if c == 't' then MatchingContentLength else General
  {
    hide CONNECTION, PROXY_CONNECTION, CONTENT_LENGTH, TRANSFER_ENCODING, UPGRADE;
    WordLengths();
    ConBytes(u);
    KeywordsDiffer(u);
    KeywordsDiffer(u + [c]);
    MatchNext(u, c, CONNECTION);
    MatchNext(u, c, PROXY_CONNECTION);
    MatchNext(u, c, CONTENT_LENGTH);
    MatchNext(u, c, TRANSFER_ENCODING);
    MatchNext(u, c, UPGRADE);
  }

  // A long beginning of a keyword goes on with the keyword's next byte.
  lemma NextLong(u: Bytes, c: Byte, word: string, h: HeaderState, full: HeaderState)
    requires (word, h, full) in {
               (CONNECTION, MatchingConnection, Connection), (CONTENT_LENGTH, MatchingContentLength, ContentLength),
               (PROXY_CONNECTION, MatchingProxyConnection, Connection),
               (TRANSFER_ENCODING, MatchingTransferEncoding, TransferEncoding), (UPGRADE, MatchingUpgrade, Upgrade)}
    requires NameState(u) == h && u < word && u != []
    ensures NameState(u + [c]) ==
            if c != word[|u|] then General else if |u| + 1 == |word| then full else h
  {
    hide CONNECTION, PROXY_CONNECTION, CONTENT_LENGTH, TRANSFER_ENCODING, UPGRADE;
    WordLengths();
    KeywordsDiffer(u);
    KeywordsDiffer(u + [c]);
    NextName(u, c);
    MatchNext(u, c, word);
  }

  // What the s_header_field loop does with one token byte of a name.
  lemma NameByte(p: Parser, u: Bytes, ch: Byte)
    requires NameRead(p, u) && p.errno == OK && IsToken(ch)
    ensures var q, v := FieldByte(p, ch), u + [TokenOf(ch)];
            if v == CONTENT_LENGTH && p.flags.contentLength then q.errno == UnexpectedContentLength
            else
              && q.errno == OK && NameRead(q, v)
              && q.flags == if v == CONTENT_LENGTH then p.flags.(contentLength := true) else p.flags
  {
    hide CONNECTION, PROXY_CONNECTION, CONTENT_LENGTH, TRANSFER_ENCODING, UPGRADE;
    hide TokenOf, NameState, MatchWord, IsToken;
    var c := TokenOf(ch);
    assert ch != ' ' by { SpaceNoToken(ch); }
    match p.hstate {
      case MatchingConnection => NameLong(p, u, c, CONNECTION, Connection);
      case MatchingContentLength => NameLong(p, u, c, CONTENT_LENGTH, ContentLength);
      case MatchingProxyConnection => NameLong(p, u, c, PROXY_CONNECTION, Connection);
      case MatchingTransferEncoding => NameLong(p, u, c, TRANSFER_ENCODING, TransferEncoding);
      case MatchingUpgrade => NameLong(p, u, c, UPGRADE, Upgrade);
      case C | CO | CON => NameShort(p, u, c);
      case _ => NameOver(p, u, c);
    }
  }

  lemma SpaceNoToken(ch: Byte)
    requires IsToken(ch)
    ensures ch != ' '
  {
  }

  lemma NameLong(p: Parser, u: Bytes, c: Byte, word: string, full: HeaderState)
    requires NameRead(p, u)
    requires (word, p.hstate, full) in {
               (CONNECTION, MatchingConnection, Connection), (CONTENT_LENGTH, MatchingContentLength, ContentLength),
               (PROXY_CONNECTION, MatchingProxyConnection, Connection),
               (TRANSFER_ENCODING, MatchingTransferEncoding, TransferEncoding), (UPGRADE, MatchingUpgrade, Upgrade)}
    ensures NameRead(MatchWord(p, c, word, full, General), u + [c])
    ensures MatchWord(p, c, word, full, General).hstate == full <==> u + [c] == word
    ensures p.hstate != MatchingContentLength ==> u + [c] != CONTENT_LENGTH
  {
    hide CONNECTION, PROXY_CONNECTION, CONTENT_LENGTH, TRANSFER_ENCODING, UPGRADE;
    KeywordsDiffer(u);
    NextLong(u, c, word, p.hstate, full);
    MatchNext(u, c, word);
    MatchNext(u, c, CONTENT_LENGTH);
  }

  lemma NameShort(p: Parser, u: Bytes, c: Byte)
    requires NameRead(p, u) && (p.hstate.C? || p.hstate.CO? || p.hstate.CON?)
    ensures 1 <= |u| <= 3 && u < CONNECTION && u + [c] != CONTENT_LENGTH
    ensures p.hstate == (if |u| == 1 then C else if |u| == 2 then CO else CON)
    ensures NameState(u + [c]) ==
            if |u| == 1 then (if c == 'o' then CO else General)
            else if |u| == 2 then (if c == 'n' then CON else General)
            else if c == 'n' then MatchingConnection
            else if c == 't' then MatchingContentLength else General
  {
    hide CONNECTION, PROXY_CONNECTION, CONTENT_LENGTH, TRANSFER_ENCODING, UPGRADE;
    WordLengths();
    NextShort(u, c);
  }

  lemma NameOver(p: Parser, u: Bytes, c: Byte)
    requires NameRead(p, u) && !Indexed(p.hstate)
    ensures NameState(u + [c]) == General && u + [c] != CONTENT_LENGTH
    ensures var h := p.hstate; h.General? || h.Connection? || h.ContentLength? || h.TransferEncoding? || h.Upgrade?
  {
    hide CONNECTION, PROXY_CONNECTION, CONTENT_LENGTH, TRANSFER_ENCODING, UPGRADE;
    NextName(u, c);
  }

  lemma NameFirst(ch: Byte)
    requires IsToken(ch)
    ensures FirstHeaderState(ch) == NameState([TokenOf(ch)]) && [TokenOf(ch)] != CONTENT_LENGTH
  {
    hide TokenOf, IsToken;
    var c := TokenOf(ch);
    assert CONNECTION[..1] == "c" && PROXY_CONNECTION[..1] == "p";
    assert TRANSFER_ENCODING[..1] == "t" && UPGRADE[..1] == "u";
    KeywordsDiffer([c]);
  }

  // F_CONTENTLENGTH is set as soon as a name begins with content-length.
  function NameFlags(f: Flags, u: Bytes): Flags {
    if CONTENT_LENGTH <= u then f.(contentLength := true) else f
  }

  lemma PrefixGrows(word: Bytes, u: Bytes, c: Byte)
    ensures word <= u + [c] <==> word <= u || word == u + [c]
  {
    var v := u + [c];
    if word <= u {
      assert v[..|word|] == u[..|word|];
    }
  }

  lemma FieldStarts(c: Config, ch: Byte, hc: Callback) returns (q: Parser)
    requires Running(c) && c.p.state == AtField(HeaderFieldStart) && IsToken(ch)
    ensures q == c.p.(state := AtField(HeaderField), index := 0, hstate := NameState(Lowered([ch])))
    ensures NameRead(q, Lowered([ch])) && NameFlags(c.p.flags, Lowered([ch])) == c.p.flags
    ensures Reaches(c, [ch], hc, q, Push(c.log, Data(OnHeaderField, [ch])))
  {
    hide NameState, EndHeaders, Reaches, FirstHeaderState, StepEvents, TokenOf;
    assert ch != CR && ch != LF;
    assert [ch][..0] == [];
    assert Lowered([ch]) == [TokenOf(ch)];
    assert !(CONTENT_LENGTH <= [TokenOf(ch)]);
    NameFirst(ch);
    q := c.p.(state := AtField(HeaderField), index := 0, hstate := NameState(Lowered([ch])));
    assert Step(c.p, ch, hc, c.skip) == Acting(q, Mark(OnHeaderField));
    ReachMark(c, ch, hc, OnHeaderField);
  }

  lemma FieldContinues(c: Config, u: Bytes, ch: Byte, hc: Callback) returns (q: Parser)
    requires Running(c) && c.p.state == AtField(HeaderField) && NameRead(c.p, u) && IsToken(ch)
    ensures var v := u + [TokenOf(ch)];
            if v == CONTENT_LENGTH && c.p.flags.contentLength then
              Run(c, [ch], hc).p.errno == UnexpectedContentLength
            else
              && NameRead(q, v) && Reaches(c, [ch], hc, q, Push(c.log, Data(OnHeaderField, [ch])))
              && q == c.p.(index := q.index, hstate := q.hstate,
                           flags := if v == CONTENT_LENGTH then c.p.flags.(contentLength := true) else c.p.flags)
  {
    hide NameState, FieldByte, TokenOf, StepEvents, Reaches, CONTENT_LENGTH;
    q := FieldByte(c.p, ch);
    NameByte(c.p, u, ch);
    assert Step(c.p, ch, hc, c.skip) == Stay(q);
    if q.errno == OK {
      ReachData(c, ch, hc, OnHeaderField);
    } else {
      RunOne(c, ch, hc);
    }
  }

  // A whole name: the header state at its end says which name it is, whatever the case of its
  // letters.  A name that begins with content-length, even a longer one, is refused if such a
  // name has been seen before.
  lemma {:induction false} NameRun(c: Config, w: Bytes, hc: Callback) returns (q: Parser)
    requires Running(c) && c.p.state == AtField(HeaderFieldStart) && w != [] && IsTokens(w)
    ensures var u := Lowered(w);
            if c.p.flags.contentLength && CONTENT_LENGTH <= u then
              Run(c, w, hc).p.errno == UnexpectedContentLength
            else
              && NameRead(q, u) && Reaches(c, w, hc, q, Push(c.log, Data(OnHeaderField, w)))
              && q == c.p.(state := AtField(HeaderField), index := q.index, hstate := NameState(u),
                           flags := NameFlags(c.p.flags, u))
    decreases |w|
  {
    hide Advance, NameState, CONTENT_LENGTH, Run;
    var t, ch := w[..|w| - 1], w[|w| - 1];
    assert w == t + [ch];
    if t == [] {
      assert w == [ch];
      q := FieldStarts(c, ch, hc);
      LongWord(w);
    } else {
      q := NameRun(c, t, hc);
      RunConcat(c, t, [ch], hc);
      PrefixGrows(CONTENT_LENGTH, Lowered(t), TokenOf(ch));
      if c.p.flags.contentLength && CONTENT_LENGTH <= Lowered(t) {
        RunStopped(Run(c, t, hc), [ch], hc);
      } else {
        q := FieldContinues(Run(c, t, hc), Lowered(t), ch, hc);
        PushSplit(c.log, OnHeaderField, t, [ch]);
      }
    }
  }

  lemma LongWord(w: Bytes)
    requires |w| == 1
    ensures !(CONTENT_LENGTH <= Lowered(w))
  {
  }

  // ---------------------------------------------------------------- between two headers

  // A finished header is acted upon by the byte behind it.
  predicate AfterLine(s: State) { s == AtValue(HeaderValueLws) || s == AtValue(HeaderValueDiscardLws) }

  function Settle(c: Config): Config {
    c.(p := SetHeaderFlag(c.p).(state := AtField(HeaderFieldStart)), skip := false,
       log := if c.p.state == AtValue(HeaderValueDiscardLws) then Push(c.log, Data(OnHeaderValue, [])) else c.log)
  }

  lemma SettleStep(c: Config, ch: Byte, hc: Callback)
    requires AfterLine(c.p.state) && ch != ' ' && ch != '\t'
    ensures var r := StartField(Settle(c).p, ch, hc);
            && Step(Settle(c).p, ch, hc, false) == r
            && Step(c.p, ch, hc, c.skip) ==
               if c.p.state == AtValue(HeaderValueDiscardLws) then
                 First(Mark(OnHeaderValue), First(Flush(OnHeaderValue), r))
               else r
  {
    hide StartField, SetHeaderFlag, Push;
  }

  // Unless that byte is a blank, which continues the header.
  lemma SettleFirst(c: Config, ch: Byte, hc: Callback)
    requires Running(c) && AfterLine(c.p.state) && ch != ' ' && ch != '\t'
    ensures Advance(c, ch, hc) == Advance(Settle(c), ch, hc)
  {
    hide StartField, SetHeaderFlag, Emit, Step, Push, Trace, LiveAfter, Calls;
    var d := Settle(c);
    var r := StartField(d.p, ch, hc);
    SettleStep(c, ch, hc);
    if c.p.state == AtValue(HeaderValueDiscardLws) {
      var s := First(Mark(OnHeaderValue), First(Flush(OnHeaderValue), r));
      EmptyValueActs(r.acts, ch);
      var tail := if r.p.errno == OK then Closing(LiveAfter(None, r.acts), ch) else [];
      assert StepEvents(d.p, r, ch) == Trace(None, r.acts, ch) + tail;
      assert StepEvents(c.p, s, ch) == [Data(OnHeaderValue, [])] + (Trace(None, r.acts, ch) + tail);
      EmitConcat(c.log, [Data(OnHeaderValue, [])], Trace(None, r.acts, ch) + tail);
      EmitOne(c.log, Data(OnHeaderValue, []));
    }
  }

  lemma EmptyValueActs(acts: Actions, ch: Byte)
    ensures var a := Do(Mark(OnHeaderValue), Do(Flush(OnHeaderValue), acts));
            && Trace(None, a, ch) == [Data(OnHeaderValue, [])] + Trace(None, acts, ch)
            && LiveAfter(None, a) == LiveAfter(None, acts)
            && (Calls(a, HeadersComplete) <==> Calls(acts, HeadersComplete))
  {
    var b := Do(Flush(OnHeaderValue), acts);
    assert Trace(Some(OnHeaderValue), b, ch) == Trace(None, acts, ch);
    assert LiveAfter(Some(OnHeaderValue), b) == LiveAfter(None, acts);
    assert Calls(b, HeadersComplete) <==> Calls(acts, HeadersComplete);
  }

  lemma SettleRun(c: Config, s: Bytes, hc: Callback)
    requires Running(c) && AfterLine(c.p.state) && s != [] && s[0] != ' ' && s[0] != '\t'
    ensures Run(c, s, hc) == Run(Settle(c), s, hc)
  {
    hide Advance, SetHeaderFlag;
    SettleFirst(c, s[0], hc);
  }
}
