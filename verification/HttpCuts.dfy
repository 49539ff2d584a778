/**
 Cutting one input into buffers: exactly which inputs may be cut anywhere.
 */
module HttpCuts {
  import opened Basics
  import opened HttpTypes
  import opened HttpStep
  import opened HttpRun
  import opened HttpBlocks

  // ---------------------------------------------------------------- cuts at positions

  predicate NonEmpty(buffers: seq<Bytes>) { forall i :: 0 <= i < |buffers| ==> buffers[i] != [] }

  predicate IsCut(s: Bytes, buffers: seq<Bytes>) { NonEmpty(buffers) && Flatten(buffers) == s }

  // A buffer that starts at byte i of s exposes it.
  predicate ExposedAt(c: Config, s: Bytes, i: nat, hc: Callback)
    requires i < |s|
  {
    Exposed(Run(c, s[..i], hc), s[i..])
  }

  // An exposed buffer is exposed at its place in the whole input.
  lemma {:induction false} CutExposes(c: Config, buffers: seq<Bytes>, hc: Callback) returns (i: nat)
    requires SkipsInValue(c) && NonEmpty(buffers) && AnyExposed(c, buffers, hc)
    ensures i < |Flatten(buffers)| && ExposedAt(c, Flatten(buffers), i, hc)
    decreases |buffers|
  {
    hide Advance, IsHeaderChar;
    var b, rest := buffers[0], buffers[1..];
    var s := Flatten(buffers);
    if Exposed(c, b) {
      i := 0;
      assert s[..0] == [] && s[0] == b[0];
    } else {
      BoundaryInvisible(c, b, hc);
      var d := Run(c, b, hc);
      RunSkips(c, b, hc);
      var j := CutExposes(d, rest, hc);
      i := |b| + j;
      assert s[..i] == b + Flatten(rest)[..j] && s[i..] == Flatten(rest)[j..];
      RunConcat(c, b, Flatten(rest)[..j], hc);
    }
  }

  // Cutting there exposes the byte.
  lemma ExposingCut(c: Config, s: Bytes, i: nat, hc: Callback) returns (buffers: seq<Bytes>)
    requires SkipsInValue(c) && i < |s| && ExposedAt(c, s, i, hc)
    ensures IsCut(s, buffers) && AnyExposed(c, buffers, hc)
  {
    hide Advance, IsHeaderChar;
    var a, b := s[..i], s[i..];
    assert Flatten([]) == [] && Flatten([b]) == b + [] == b;
    if i == 0 {
      assert a == [] && b == s;
      buffers := [b];
    } else {
      buffers := [a, b];
      assert buffers[1..] == [b] && a + b == s;
      assert Exposed(c, a) || Feed(c, a, hc) == Run(c, a, hc) by { BoundaryInvisible(c, a, hc); }
    }
  }

  // An input may be cut anywhere if and only if none of its bytes is exposed.
  lemma CutAnywhere(c: Config, s: Bytes, hc: Callback)
    requires SkipsInValue(c)
    ensures (forall bs :: IsCut(s, bs) ==> FeedAll(c, bs, hc) == Run(c, s, hc)) <==>
            (forall i :: 0 <= i < |s| ==> !ExposedAt(c, s, i, hc))
  {
    hide Run, FeedAll, ExposedAt, AnyExposed, Flatten;
    if forall i :: 0 <= i < |s| ==> !ExposedAt(c, s, i, hc) {
      forall bs | IsCut(s, bs) ensures FeedAll(c, bs, hc) == Run(c, s, hc) {
        Fragmentation(c, bs, hc);
        if AnyExposed(c, bs, hc) {
          var i := CutExposes(c, bs, hc);
        }
      }
    } else {
      var i :| 0 <= i < |s| && ExposedAt(c, s, i, hc);
      var bs := ExposingCut(c, s, i, hc);
      Fragmentation(c, bs, hc);
    }
  }

  // ---------------------------------------------------------------- control bytes in header values

  predicate HasControl(e: Event) {
    e.Data? && e.kind == OnHeaderValue && exists i :: 0 <= i < |e.bytes| && !IsHeaderChar(e.bytes[i])
  }

  // A header value with a control byte has been reported.
  predicate ShowsControl(log: seq<Event>) { exists i :: 0 <= i < |log| && HasControl(log[i]) }

  lemma JoinControl(k: Kind, a: Bytes, b: Bytes)
    ensures HasControl(Data(k, a + b)) <==> HasControl(Data(k, a)) || HasControl(Data(k, b))
  {
    hide IsHeaderChar;
    var s := a + b;
    if i :| 0 <= i < |a| && !IsHeaderChar(a[i]) {
      assert s[i] == a[i];
    }
    if i :| 0 <= i < |b| && !IsHeaderChar(b[i]) {
      assert s[|a| + i] == b[i];
    }
  }

  lemma PushControl(log: seq<Event>, e: Event)
    ensures ShowsControl(Push(log, e)) <==> ShowsControl(log) || HasControl(e)
  {
    hide HasControl;
    var out, n := Push(log, e), |log| - 1;
    if |out| == |log| {
      JoinControl(e.kind, log[n].bytes, e.bytes);
      assert forall i :: 0 <= i < n ==> out[i] == log[i];
      assert HasControl(out[n]) <==> HasControl(log[n]) || HasControl(e);
    } else {
      assert out[|log|] == e;
      assert forall i :: 0 <= i < |log| ==> out[i] == log[i];
    }
  }

  lemma {:induction false} EmitControl(log: seq<Event>, es: seq<Event>)
    ensures ShowsControl(Emit(log, es)) <==> ShowsControl(log) || ShowsControl(es)
    decreases |es|
  {
    hide Push, HasControl;
    if es != [] {
      PushControl(log, es[0]);
      EmitControl(Push(log, es[0]), es[1..]);
      assert es == [es[0]] + es[1..];
    }
  }

  lemma {:induction false} RunShows(c: Config, s: Bytes, hc: Callback)
    requires ShowsControl(c.log)
    ensures ShowsControl(Run(c, s, hc).log)
    decreases |s|
  {
    hide Step, StepEvents, Emit, ShowsControl;
    if s != [] && Running(c) {
      EmitControl(c.log, StepEvents(c.p, Step(c.p, s[0], hc, c.skip), s[0]));
      RunShows(Advance(c, s[0], hc), s[1..], hc);
    }
  }

  lemma ExposedStep(c: Config, ch: Byte, hc: Callback)
    requires Running(c) && SkipsInValue(c) && c.skip && !IsHeaderChar(ch)
    ensures Step(c.p, ch, hc, c.skip) == Stay(c.p)
  {
    hide StartTransition, StatusTransition, UrlTransition, VersionTransition, FieldTransition,
         ChunkSizeTransition, ChunkDataTransition, BodyTransition, EndField;
  }

  // An exposed byte is reported in a header value.
  lemma ExposedShows(c: Config, s: Bytes, i: nat, hc: Callback)
    requires SkipsInValue(c) && i < |s| && ExposedAt(c, s, i, hc)
    ensures ShowsControl(Run(c, s, hc).log) && !Run(c, s[..i], hc).p.lenient
  {
    hide Run, IsHeaderChar, Step, StepEvents, Push;
    var d, ch := Run(c, s[..i], hc), s[i];
    RunSkips(c, s[..i], hc);
    ExposedStep(d, ch, hc);
    DataByte(d, ch, hc, OnHeaderValue);
    PushControl(d.log, Data(OnHeaderValue, [ch]));
    assert [ch][0] == ch && HasControl(Data(OnHeaderValue, [ch]));
    RunOne(d, ch, hc);
    RunShows(Advance(d, ch, hc), s[i + 1..], hc);
    RunConcat(d, [ch], s[i + 1..], hc);
    RunConcat(c, s[..i], s[i..], hc);
    assert s[i..] == [ch] + s[i + 1..] && s == s[..i] + s[i..];
  }

  // ---------------------------------------------------------------- the lenient setting

  lemma KeepsLenient(p: Parser, ch: Byte, hc: Callback, skip: bool)
    ensures Step(p, ch, hc, skip).p.lenient == p.lenient
  {
    hide StartTransition, FieldTransition, ValueTransition, ChunkSizeTransition, ChunkDataTransition, BodyTransition,
         StatusTransition, UrlTransition, VersionTransition;
    match p.state
    case AtStart(s) => StartLenient(p, s, ch);
    case AtField(s) => FieldLenient(p, s, ch, hc);
    case AtValue(s) => ValueLenient(p, s, ch, hc, skip);
    case AtChunkSize(s) => BodyLenient(p, s, ChunkData, BodyIdentity, ch);
    case AtChunkData(s) => BodyLenient(p, ChunkSize, s, BodyIdentity, ch);
    case AtBody(s) => BodyLenient(p, ChunkSize, ChunkData, s, ch);
    case _ =>
  }

  lemma StartLenient(p: Parser, s: StartState, ch: Byte)
    ensures StartTransition(p, s, ch).p.lenient == p.lenient
  {
    hide MethodName, NextCandidate, FirstCandidate;
  }

  lemma FieldLenient(p: Parser, s: FieldState, ch: Byte, hc: Callback)
    ensures FieldTransition(p, s, ch, hc).p.lenient == p.lenient
  {
    hide AfterHeaders, KeepAlive, FieldByte;
  }

  lemma ValueLenient(p: Parser, s: ValueState, ch: Byte, hc: Callback, skip: bool)
    ensures ValueTransition(p, s, ch, hc, skip).p.lenient == p.lenient
  {
    hide StartField, StartValue, ValueByte, SetHeaderFlag;
    FieldLenient(SetHeaderFlag(p).(state := AtField(HeaderFieldStart)), HeaderFieldStart, ch, hc);
  }

  lemma BodyLenient(p: Parser, s: ChunkSizeState, t: ChunkDataState, u: BodyState, ch: Byte)
    ensures ChunkSizeTransition(p, s, ch).p.lenient == p.lenient
    ensures ChunkDataTransition(p, t, ch).p.lenient == p.lenient
    ensures BodyTransition(p, u, ch).p.lenient == p.lenient
  {
    hide KeepAlive, Accumulate;
  }

  lemma {:induction false} RunLenient(c: Config, s: Bytes, hc: Callback)
    ensures Run(c, s, hc).p.lenient == c.p.lenient
    decreases |s|
  {
    hide Step, StepEvents, Emit;
    if s != [] && Running(c) {
      KeepsLenient(c.p, s[0], hc, c.skip);
      RunLenient(Advance(c, s[0], hc), s[1..], hc);
    }
  }

  // ---------------------------------------------------------------- any two cuts

  // A lenient parser, and an input whose header values hold no control byte, may be cut anywhere.
  lemma PlainCuts(c: Config, buffers: seq<Bytes>, hc: Callback)
    requires SkipsInValue(c) && NonEmpty(buffers)
    requires c.p.lenient || !ShowsControl(Run(c, Flatten(buffers), hc).log)
    ensures FeedAll(c, buffers, hc) == Run(c, Flatten(buffers), hc)
  {
    hide Run, FeedAll, ExposedAt, AnyExposed, Flatten, ShowsControl;
    Fragmentation(c, buffers, hc);
    if AnyExposed(c, buffers, hc) {
      var i := CutExposes(c, buffers, hc);
      ExposedShows(c, Flatten(buffers), i, hc);
      RunLenient(c, Flatten(buffers)[..i], hc);
    }
  }

  // Any two ways to cut such an input give the same parser, callbacks and error position.
  lemma TwoCuts(c: Config, a: seq<Bytes>, b: seq<Bytes>, hc: Callback)
    requires SkipsInValue(c) && NonEmpty(a) && NonEmpty(b) && Flatten(a) == Flatten(b)
    requires c.p.lenient || !ShowsControl(Run(c, Flatten(a), hc).log)
    ensures FeedAll(c, a, hc) == FeedAll(c, b, hc)
  {
    hide Run, FeedAll, Flatten, ShowsControl;
    PlainCuts(c, a, hc);
    PlainCuts(c, b, hc);
  }
}
