/**
 Message framing: chunked coding and declared lengths are kept apart, and no body byte is lost or
 invented.
 */
module HttpFraming {
  import opened HttpTypes
  import opened HttpStep
  import opened HttpRun
  import opened HttpInvariant
  import opened HttpBlocks
  import opened HttpChunks
  import opened HttpGrammar

  // ---------------------------------------------------------------- chunked or a length, not both

  predicate Unmixed(p: Parser) {
    match p.state
    case AtChunkSize(_) => p.flags.chunked && !p.flags.contentLength
    case AtChunkData(_) => p.flags.chunked && !p.flags.contentLength
    case AtBody(_) => !p.flags.chunked
    case _ => true
  }

  lemma UnmixedFinish(p: Parser)
    requires !(p.flags.chunked && p.flags.contentLength)
    ensures Unmixed(FinishHeaders(p).p)
  {
    hide KeepAlive, NeedsEof;
  }

  lemma UnmixedEnd(p: Parser, ch: Byte, hc: Callback)
    requires p.errno == OK && p.state.AtField?
    ensures EndHeaders(p, ch, hc).p.errno == OK ==> Unmixed(EndHeaders(p, ch, hc).p)
  {
    hide KeepAlive, FinishHeaders;
    if !(p.flags.chunked && p.flags.contentLength) {
      UnmixedFinish(Answered(HeadersSeen(p), hc(HeadersSeen(p))));
    }
  }

  lemma UnmixedStart(p: Parser, ch: Byte, hc: Callback)
    requires p.errno == OK && p.state == AtField(HeaderFieldStart)
    ensures StartField(p, ch, hc).p.errno == OK ==> Unmixed(StartField(p, ch, hc).p)
  {
    hide EndHeaders, FirstHeaderState, IsToken;
    UnmixedEnd(p.(state := AtField(HeadersAlmostDone)), ch, hc);
  }

  lemma UnmixedField(p: Parser, s: FieldState, ch: Byte, hc: Callback)
    requires p.errno == OK && p.state == AtField(s) && s != HeadersDone
    ensures FieldTransition(p, s, ch, hc).p.errno == OK ==> Unmixed(FieldTransition(p, s, ch, hc).p)
  {
    hide EndHeaders, StartField, FieldByte, FinishHeaders;
    UnmixedEnd(p, ch, hc);
    if s == HeaderFieldStart {
      UnmixedStart(p, ch, hc);
    }
  }

  lemma UnmixedValue(p: Parser, s: ValueState, ch: Byte, hc: Callback, skip: bool)
    requires p.errno == OK && p.state == AtValue(s)
    ensures ValueTransition(p, s, ch, hc, skip).p.errno == OK ==> Unmixed(ValueTransition(p, s, ch, hc, skip).p)
  {
    hide StartField, SetHeaderFlag, ValueByte, StartValue, IsHeaderChar;
    UnmixedStart(SetHeaderFlag(p).(state := AtField(HeaderFieldStart)), ch, hc);
  }

  lemma UnmixedChunk(p: Parser, s: ChunkSizeState, t: ChunkDataState, ch: Byte)
    requires Unmixed(p)
    ensures p.state == AtChunkSize(s) ==> Unmixed(ChunkSizeTransition(p, s, ch).p)
    ensures p.state == AtChunkData(t) ==> Unmixed(ChunkDataTransition(p, t, ch).p)
  {
    hide Unhex;
  }

  lemma UnmixedBegin(p: Parser, s: StartState, ch: Byte)
    requires p.state == AtStart(s)
    ensures Unmixed(StartTransition(p, s, ch).p)
  {
    hide MethodName, IsAlpha;
  }

  // Every step keeps chunked coding and declared lengths apart.
  lemma UnmixedStep(p: Parser, ch: Byte, hc: Callback, skip: bool)
    requires p.errno == OK && Unmixed(p) && p.state != AtField(HeadersDone)
    ensures Step(p, ch, hc, skip).p.errno == OK ==> Unmixed(Step(p, ch, hc, skip).p)
  {
    hide StartTransition, StatusTransition, UrlTransition, VersionTransition, FieldTransition,
         ValueTransition, ChunkSizeTransition, ChunkDataTransition;
    match p.state
    case AtStart(s) => UnmixedBegin(p, s, ch);
    case AtField(s) => UnmixedField(p, s, ch, hc);
    case AtValue(s) => UnmixedValue(p, s, ch, hc, skip);
    case AtChunkSize(s) => UnmixedChunk(p, s, ChunkData, ch);
    case AtChunkData(s) => UnmixedChunk(p, ChunkSize, s, ch);
    case _ =>
  }

  // ---------------------------------------------------------------- every reachable state

  // What holds between any two bytes of any connection.
  predicate Sound(t: ParserType, c: Config) {
    && OnTrack(t, c)
    && (c.p.errno == OK ==>
          Inv(c.p) && Unmixed(c.p) && (c.p.state == AtChunkSize(ChunkSizeStart) ==> c.nread == 0))
  }

  lemma NeverHeadersDone(t: ParserType, c: Config)
    requires OnTrack(t, c) && c.p.errno == OK
    ensures c.p.state != AtField(HeadersDone)
  {
    hide PlaceOf;
  }

  lemma AdvanceSound(t: ParserType, c: Config, ch: Byte, hc: Callback)
    requires Running(c) && Sound(t, c)
    ensures Sound(t, Advance(c, ch, hc))
  {
    hide Step, StepEvents, Emit, Inv, Unmixed, OnTrack;
    AdvanceOnTrack(t, c, ch, hc);
    NeverHeadersDone(t, c);
    InvStep(c.p, ch, hc, c.skip);
    UnmixedStep(c.p, ch, hc, c.skip);
    CounterFitsStep(c.p, ch, hc, c.skip);
  }

  lemma {:induction false} RunSound(t: ParserType, c: Config, s: Bytes, hc: Callback)
    requires Sound(t, c)
    ensures Sound(t, Run(c, s, hc))
    decreases |s|
  {
    hide Advance, Sound;
    if s != [] && Running(c) {
      AdvanceSound(t, c, s[0], hc);
      RunSound(t, Advance(c, s[0], hc), s[1..], hc);
    }
  }

  lemma {:induction false} SessionSound(t: ParserType, c: Config, buffers: seq<Bytes>, hc: Callback)
    requires Sound(t, c)
    ensures Sound(t, Session(c, buffers, hc))
    decreases |buffers|
  {
    hide Run;
    if buffers != [] {
      var d := c.(skip := false, exited := false);
      assert OnTrack(t, d);
      RunSound(t, d, buffers[0], hc);
      SessionSound(t, Run(d, buffers[0], hc), buffers[1..], hc);
    }
  }

  // In every state any connection can reach, every assert of http_parser_execute holds on the next
  // byte, every field fits its width, and no body is both chunked and of declared length.
  lemma ReachableStates(t: ParserType, lenient: bool, buffers: seq<Bytes>, hc: Callback)
    ensures var c := Session(Start(t, lenient), buffers, hc);
            c.p.errno == OK ==> AssertsHold(c.p, c.nread) && FieldsFit(c.p) && Unmixed(c.p)
  {
    hide Session, Unmixed, Inv, FieldsFit, AssertsHold;
    var c := Session(Start(t, lenient), buffers, hc);
    InvInit(t, lenient);
    UnmixedInit(t, lenient);
    SessionSound(t, Start(t, lenient), buffers, hc);
    if c.p.errno == OK {
      InvMeans(c.p, c.nread);
    }
  }

  lemma UnmixedInit(t: ParserType, lenient: bool)
    ensures Unmixed(Init(t, lenient))
  {
  }

  // ---------------------------------------------------------------- conservation

  // A body of declared length: however much of it has arrived, the bytes delivered and the
  // bytes still owed make up that length, and the message is complete exactly when all are there.
  lemma BodyConserved(c: Config, s: Bytes, hc: Callback)
    requires Running(c) && c.p.state == AtBody(BodyIdentity) && |s| <= c.p.contentLength
    ensures var d := Run(c, s, hc);
            && Delivered(d.log) == Delivered(c.log) + s && |s| + d.p.contentLength == c.p.contentLength
            && (|s| < c.p.contentLength ==>
                  && d.p.state == AtBody(BodyIdentity)
                  && d.log == (if s == [] then c.log else Push(c.log, Data(OnBody, s))))
            && (s != [] && |s| == c.p.contentLength ==>
                  d.p.state.AtStart? && d.log == Push(c.log, Data(OnBody, s)) + [Notify(MessageComplete)])
  {
    hide Advance, Push, NewMessage;
    if s == [] {
      assert Delivered(c.log) + [] == Delivered(c.log);
    } else {
      DeliveredPush(c.log, Data(OnBody, s));
      if |s| < c.p.contentLength {
        IdentityRun(c, s, hc);
      } else {
        IdentityComplete(c, s, hc);
        DeliveredPush(Push(c.log, Data(OnBody, s)), Notify(MessageComplete));
        PushNote(Push(c.log, Data(OnBody, s)), MessageComplete);
        assert Delivered(c.log) + s + [] == Delivered(c.log) + s;
      }
    }
  }

  lemma PushNote(log: seq<Event>, n: Note)
    ensures Push(log, Notify(n)) == log + [Notify(n)]
  {
  }
}
