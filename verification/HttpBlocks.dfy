/**
 The block paths of http_parser_execute, seen as runs of the one-byte automaton: what a
 stretch of header-name, header-value or body bytes does to a configuration.
 */
module HttpBlocks {
  import opened Basics
  import opened HttpTypes
  import opened HttpStep
  import opened HttpRun

  lemma EmitTwo(log: seq<Event>, k: Kind, a: Bytes, b: Bytes)
    ensures Emit(log, [Data(k, a), Data(k, b)]) == Push(log, Data(k, a + b))
  {
    assert [Data(k, a), Data(k, b)] == [Data(k, a)] + [Data(k, b)];
    EmitConcat(log, [Data(k, a)], [Data(k, b)]);
    EmitOne(log, Data(k, a));
    EmitOne(Push(log, Data(k, a)), Data(k, b));
    PushSplit(log, k, a, b);
  }

  // A data byte: its arm neither sets nor flushes a mark.
  lemma DataByte(c: Config, ch: Byte, hc: Callback, k: Kind)
    requires Running(c) && StartLive(c.p.state) == Some(k)
    requires var r := Step(c.p, ch, hc, c.skip); r.acts == Nil && r.p.errno == OK
    ensures Advance(c, ch, hc).log == Push(c.log, Data(k, [ch]))
  {
    hide Step;
    var r := Step(c.p, ch, hc, c.skip);
    assert StepEvents(c.p, r, ch) == [Data(k, []), Data(k, [ch])];
    EmitTwo(c.log, k, [], [ch]);
    assert [] + [ch] == [ch];
  }

  // A body byte: its arm sets the body mark.
  lemma BodyByte(c: Config, ch: Byte, hc: Callback)
    requires Running(c) && StartLive(c.p.state) == None
    requires var r := Step(c.p, ch, hc, c.skip); r.acts == Do(Mark(OnBody), Nil) && r.p.errno == OK
    ensures Advance(c, ch, hc).log == Push(c.log, Data(OnBody, [ch]))
  {
    hide Step;
    var r := Step(c.p, ch, hc, c.skip);
    assert Trace(None, r.acts, ch) == [Data(OnBody, [])] by {
      assert Trace(Some(OnBody), Nil, ch) == [];
    }
    assert LiveAfter(None, r.acts) == Some(OnBody) by {
      assert LiveAfter(Some(OnBody), Nil) == Some(OnBody);
    }
    assert StepEvents(c.p, r, ch) == [Data(OnBody, []), Data(OnBody, [ch])];
    EmitTwo(c.log, OnBody, [], [ch]);
    assert [] + [ch] == [ch];
  }

  // ---------------------------------------------------------------- header names

  lemma FieldAdvance(c: Config, ch: Byte, hc: Callback)
    requires Running(c) && c.p.state == AtField(HeaderField) && IsToken(ch)
    requires FieldByte(c.p, ch).errno == OK
    ensures Advance(c, ch, hc) ==
            c.(p := FieldByte(c.p, ch), skip := false, nread := c.nread + 1,
               log := Push(c.log, Data(OnHeaderField, [ch])), pos := c.pos + 1)
  {
    hide StepEvents, Emit, FieldByte;
    var r := Step(c.p, ch, hc, c.skip);
    assert r == Stay(FieldByte(c.p, ch));
    DataByte(c, ch, hc, OnHeaderField);
  }

  // ---------------------------------------------------------------- header values

  predicate IsValueText(ch: Byte) { ch != CR && ch != LF }

  lemma ValueAdvance(c: Config, ch: Byte, hc: Callback)
    requires Running(c) && c.p.state == AtValue(HeaderValue) && IsValueText(ch)
    requires c.skip || c.p.lenient || IsHeaderChar(ch)
    requires ValueByte(c.p, ch).errno == OK
    ensures Advance(c, ch, hc) ==
            c.(p := ValueByte(c.p, ch), skip := c.p.hstate.General?, nread := c.nread + 1,
               log := Push(c.log, Data(OnHeaderValue, [ch])), pos := c.pos + 1)
  {
    hide StepEvents, Emit, ValueByte, IsHeaderChar;
    var r := Step(c.p, ch, hc, c.skip);
    assert r == Stay(ValueByte(c.p, ch));
    DataByte(c, ch, hc, OnHeaderValue);
  }

  // memchr: once a byte has been examined in the general header state, the bytes up to the next
  // CR or LF are passed over unexamined.
  lemma {:induction false} SkipRun(c: Config, s: Bytes, hc: Callback)
    requires Running(c) && c.p.state == AtValue(HeaderValue) && c.p.hstate.General? && s != []
    requires forall i :: 0 <= i < |s| ==> IsValueText(s[i])
    requires c.skip || c.p.lenient || IsHeaderChar(s[0])
    ensures Run(c, s, hc) ==
            c.(skip := true, nread := c.nread + |s|,
               log := Push(c.log, Data(OnHeaderValue, s)), pos := c.pos + |s|)
    decreases |s|
  {
    hide Advance, IsHeaderChar;
    ValueAdvance(c, s[0], hc);
    var d := Advance(c, s[0], hc);
    if |s| == 1 {
      assert s == [s[0]];
      RunOne(c, s[0], hc);
    } else {
      SkipRun(d, s[1..], hc);
      PushSplit(c.log, OnHeaderValue, [s[0]], s[1..]);
      assert [s[0]] + s[1..] == s;
    }
  }

  // ---------------------------------------------------------------- bodies

  // One byte of a body that goes on.
  function BodyAdvanced(c: Config, p: Parser, ch: Byte): Config {
    c.(p := p, skip := false, log := Push(c.log, Data(OnBody, [ch])), pos := c.pos + 1)
  }

  lemma ChunkDataAdvance(c: Config, ch: Byte, hc: Callback)
    requires Running(c) && c.p.state == AtChunkData(ChunkData) && c.p.contentLength > 0
    ensures var left := c.p.contentLength - 1;
            Advance(c, ch, hc) ==
            BodyAdvanced(c, c.p.(contentLength := left,
                                 state := AtChunkData(if left == 0 then ChunkDataAlmostDone else ChunkData)), ch)
  {
    hide StepEvents, Emit, Push;
    assert Step(c.p, ch, hc, c.skip) == ChunkDataTransition(c.p, ChunkData, ch);
    BodyByte(c, ch, hc);
  }

  lemma EofAdvance(c: Config, ch: Byte, hc: Callback)
    requires Running(c) && c.p.state == AtBody(BodyIdentityEof)
    ensures Advance(c, ch, hc) == BodyAdvanced(c, c.p, ch)
  {
    hide StepEvents, Emit, Push, FinishMessage;
    assert Step(c.p, ch, hc, c.skip) == BodyTransition(c.p, BodyIdentityEof, ch);
    BodyByte(c, ch, hc);
  }

  lemma IdentityAdvance(c: Config, ch: Byte, hc: Callback)
    requires Running(c) && c.p.state == AtBody(BodyIdentity) && c.p.contentLength > 1
    ensures Advance(c, ch, hc) == BodyAdvanced(c, c.p.(contentLength := c.p.contentLength - 1), ch)
  {
    hide StepEvents, Emit, Push, FinishMessage;
    assert Step(c.p, ch, hc, c.skip) == BodyTransition(c.p, BodyIdentity, ch);
    BodyByte(c, ch, hc);
  }

  lemma {:induction false} ChunkDataRun(c: Config, s: Bytes, hc: Callback)
    requires Running(c) && c.p.state == AtChunkData(ChunkData) && s != [] && |s| <= c.p.contentLength
    ensures var left := c.p.contentLength - |s|;
            Run(c, s, hc) ==
            c.(p := c.p.(contentLength := left,
                         state := AtChunkData(if left == 0 then ChunkDataAlmostDone else ChunkData)),
               skip := false, log := Push(c.log, Data(OnBody, s)), pos := c.pos + |s|)
    decreases |s|
  {
    hide Advance, Push;
    ChunkDataAdvance(c, s[0], hc);
    if |s| == 1 {
      assert s == [s[0]];
      RunOne(c, s[0], hc);
    } else {
      ChunkDataRun(Advance(c, s[0], hc), s[1..], hc);
      PushSplit(c.log, OnBody, [s[0]], s[1..]);
      assert [s[0]] + s[1..] == s;
    }
  }

  lemma {:induction false} EofRun(c: Config, s: Bytes, hc: Callback)
    requires Running(c) && c.p.state == AtBody(BodyIdentityEof) && s != []
    ensures Run(c, s, hc) == c.(skip := false, log := Push(c.log, Data(OnBody, s)), pos := c.pos + |s|)
    decreases |s|
  {
    hide Advance, Push;
    EofAdvance(c, s[0], hc);
    if |s| == 1 {
      assert s == [s[0]];
      RunOne(c, s[0], hc);
    } else {
      EofRun(Advance(c, s[0], hc), s[1..], hc);
      PushSplit(c.log, OnBody, [s[0]], s[1..]);
      assert [s[0]] + s[1..] == s;
    }
  }

  // Less than the declared length: everything is delivered and the rest is still owed.
  lemma {:induction false} IdentityRun(c: Config, s: Bytes, hc: Callback)
    requires Running(c) && c.p.state == AtBody(BodyIdentity) && s != [] && |s| < c.p.contentLength
    ensures Run(c, s, hc) ==
            c.(p := c.p.(contentLength := c.p.contentLength - |s|),
               skip := false, log := Push(c.log, Data(OnBody, s)), pos := c.pos + |s|)
    decreases |s|
  {
    hide Advance, Push;
    IdentityAdvance(c, s[0], hc);
    if |s| == 1 {
      assert s == [s[0]];
      RunOne(c, s[0], hc);
    } else {
      IdentityRun(Advance(c, s[0], hc), s[1..], hc);
      PushSplit(c.log, OnBody, [s[0]], s[1..]);
      assert [s[0]] + s[1..] == s;
    }
  }

  // The configuration after a message completed on byte number `pos`.
  function Completed(c: Config, exit: bool): Config {
    c.(p := c.p.(state := AtStart(NewMessage(c.p))), skip := false,
       log := Push(c.log, Notify(MessageComplete)), exited := exit)
  }

  lemma NewMessageState(p: Parser, s: State)
    ensures NewMessage(p.(state := s)) == NewMessage(p)
  {
  }

  lemma LastByte(c: Config, ch: Byte, hc: Callback)
    requires Running(c) && c.p.state == AtBody(BodyIdentity) && c.p.contentLength == 1
    ensures Advance(c, ch, hc) ==
            Completed(c.(p := c.p.(contentLength := 0), log := Push(c.log, Data(OnBody, [ch])), pos := c.pos + 1),
                      c.p.upgrade)
  {
    hide NewMessage, Emit, Trace, LiveAfter;
    NewMessageState(c.p.(contentLength := 0), AtBody(MessageDone));
    var r := Step(c.p, ch, hc, c.skip);
    var done := FinishMessage(c.p.(contentLength := 0, state := AtBody(MessageDone)));
    assert r == First(Mark(OnBody), First(FlushThrough(OnBody), done));
    LastByteEvents(ch);
    var es := [Data(OnBody, []), Data(OnBody, [ch]), Notify(MessageComplete)];
    assert StepEvents(c.p, r, ch) == es;
    assert es == [Data(OnBody, []), Data(OnBody, [ch])] + [Notify(MessageComplete)];
    EmitConcat(c.log, [Data(OnBody, []), Data(OnBody, [ch])], [Notify(MessageComplete)]);
    EmitTwo(c.log, OnBody, [], [ch]);
    assert [] + [ch] == [ch];
    EmitOne(Push(c.log, Data(OnBody, [ch])), Notify(MessageComplete));
  }

  lemma LastByteEvents(ch: Byte)
    ensures var acts := Do(Mark(OnBody), Do(FlushThrough(OnBody), Do(Call(MessageComplete), Nil)));
            && Trace(None, acts, ch) == [Data(OnBody, []), Data(OnBody, [ch]), Notify(MessageComplete)]
            && LiveAfter(None, acts) == None && !Calls(acts, HeadersComplete)
  {
    var last := Do(Call(MessageComplete), Nil);
    assert Trace(None, Nil, ch) == [] && LiveAfter(None, Nil) == None;
    assert Trace(None, last, ch) == [Notify(MessageComplete)] && LiveAfter(None, last) == None;
    assert !Calls(last, HeadersComplete) && !Calls(Do(FlushThrough(OnBody), last), HeadersComplete);
    assert Trace(Some(OnBody), Do(FlushThrough(OnBody), last), ch) == [Data(OnBody, [ch]), Notify(MessageComplete)];
  }

  // The declared length exactly: the message completes on the last byte.
  lemma {:induction false} IdentityComplete(c: Config, s: Bytes, hc: Callback)
    requires Running(c) && c.p.state == AtBody(BodyIdentity) && s != [] && |s| == c.p.contentLength
    ensures Run(c, s, hc) ==
            Completed(c.(p := c.p.(contentLength := 0), log := Push(c.log, Data(OnBody, s)), pos := c.pos + |s|),
                      c.p.upgrade)
  {
    hide Advance, KeepAlive;
    var init, last := s[..|s| - 1], s[|s| - 1];
    assert s == init + [last];
    if init == [] {
      LastByte(c, last, hc);
      RunOne(c, last, hc);
      assert s == [last];
    } else {
      IdentityRun(c, init, hc);
      var d := Run(c, init, hc);
      RunConcat(c, init, [last], hc);
      LastByte(d, last, hc);
      RunOne(d, last, hc);
      PushSplit(c.log, OnBody, init, [last]);
    }
  }
}
