/**
 The header budget: what on_headers_complete has been called for is every byte of the start line and
 the headers.
 */
module HttpBudget {
  import opened HttpTypes
  import opened HttpStep
  import opened HttpRun

  // The parser is in front of or inside the start line and the headers of a message.
  predicate InHead(p: Parser) {
    !p.state.AtChunkSize? && !p.state.AtChunkData? && !p.state.AtBody? && p.state != AtField(HeadersDone)
    && !p.flags.trailing
  }

  // A byte of the head is counted, and the count is kept until the headers are complete.
  predicate Counted(r: Result) { r.p.errno == OK && !Calls(r.acts, HeadersComplete) ==> !r.reset }

  lemma CountedEnd(p: Parser, ch: Byte, hc: Callback)
    requires p.errno == OK && !p.flags.trailing
    ensures Counted(EndHeaders(p, ch, hc)) && Counted(StartField(p, ch, hc))
  {
    hide AfterHeaders, IsToken;
  }

  lemma CountedField(p: Parser, s: FieldState, ch: Byte, hc: Callback)
    requires p.errno == OK && p.state == AtField(s) && InHead(p)
    ensures Counted(FieldTransition(p, s, ch, hc))
  {
    hide EndHeaders, StartField, FieldByte, FinishHeaders;
    CountedEnd(p, ch, hc);
  }

  lemma CountedValue(p: Parser, s: ValueState, ch: Byte, hc: Callback, skip: bool)
    requires p.errno == OK && p.state == AtValue(s) && InHead(p)
    ensures Counted(ValueTransition(p, s, ch, hc, skip))
  {
    hide StartField, FirstValueState, ValueByte, SetHeaderFlag, Lower;
    var r := EndField(p, ch, hc);
    CountedEnd(SetHeaderFlag(p).(state := AtField(HeaderFieldStart)), ch, hc);
    var a := First(Flush(OnHeaderValue), r);
    assert Calls(a.acts, HeadersComplete) <==> Calls(r.acts, HeadersComplete);
    assert Calls(First(Mark(OnHeaderValue), a).acts, HeadersComplete) <==> Calls(a.acts, HeadersComplete);
  }

  lemma CountedStep(p: Parser, ch: Byte, hc: Callback, skip: bool)
    requires p.errno == OK && InHead(p)
    ensures Counted(Step(p, ch, hc, skip))
  {
    hide FieldTransition, ValueTransition, MethodName, NextCandidate, FirstCandidate, IsAlpha, NextUrlState;
    match p.state
    case AtField(s) => CountedField(p, s, ch, hc);
    case AtValue(s) => CountedValue(p, s, ch, hc, skip);
    case AtStart(s) => CountedStart(p, s, ch);
    case AtStatus(s) => CountedStatus(p, s, ch);
    case _ =>
  }

  lemma CountedStart(p: Parser, s: StartState, ch: Byte)
    ensures !StartTransition(p, s, ch).reset
  {
    hide MethodName, NextCandidate, FirstCandidate, IsAlpha;
  }

  lemma CountedStatus(p: Parser, s: StatusState, ch: Byte)
    ensures !StatusTransition(p, s, ch).reset
  {
    hide StatusTransition;
  }

  // The bytes s are consumed inside one head.
  predicate StaysInHead(c: Config, s: Bytes, hc: Callback)
    decreases |s|
  {
    && Running(c) && InHead(c.p)
    && (s != [] ==>
          && !Calls(Step(c.p, s[0], hc, c.skip).acts, HeadersComplete)
          && StaysInHead(Advance(c, s[0], hc), s[1..], hc))
  }

  lemma {:induction false} HeadCounted(c: Config, s: Bytes, hc: Callback)
    requires StaysInHead(c, s, hc)
    ensures var d := Run(c, s, hc); Running(d) && InHead(d.p) && d.nread == c.nread + |s| && d.peak == c.peak
    decreases |s|
  {
    hide Step, StepEvents, Emit;
    if s != [] {
      CountedStep(c.p, s[0], hc, c.skip);
      HeadCounted(Advance(c, s[0], hc), s[1..], hc);
    }
  }

  // When on_headers_complete is called on byte ch behind the bytes s of a head, the peak is at least
  // their number.  HttpParser.Execute keeps it within HTTP_MAX_HEADER_SIZE.
  lemma HeadBounded(c: Config, s: Bytes, ch: Byte, hc: Callback)
    requires StaysInHead(c, s, hc) && Calls(Step(Run(c, s, hc).p, ch, hc, Run(c, s, hc).skip).acts, HeadersComplete)
    ensures Run(c, s + [ch], hc).peak == Max(c.peak, c.nread + |s| + 1)
  {
    hide Step, StepEvents, Emit, Run;
    HeadCounted(c, s, hc);
    RunConcat(c, s, [ch], hc);
    RunOne(Run(c, s, hc), ch, hc);
  }

  // ---------------------------------------------------------------- the highest count

  // The largest count of header bytes since the last reset, anywhere in s.
  function HighWater(c: Config, s: Bytes, hc: Callback): nat
    decreases |s|
  {
    if s == [] || !Running(c) then c.nread else Max(c.nread, HighWater(Advance(c, s[0], hc), s[1..], hc))
  }

  lemma {:induction false} HighWaterAt(c: Config, s: Bytes, i: nat, hc: Callback)
    requires i <= |s|
    ensures Run(c, s[..i], hc).nread <= HighWater(c, s, hc)
    decreases |s|
  {
    hide Advance;
    if i > 0 && Running(c) {
      assert s[..i][1..] == s[1..][..i - 1] && s[..i][0] == s[0];
      HighWaterAt(Advance(c, s[0], hc), s[1..], i - 1, hc);
    }
  }

  lemma {:induction false} HighWaterConcat(c: Config, a: Bytes, b: Bytes, hc: Callback)
    ensures HighWater(c, a + b, hc) == Max(HighWater(c, a, hc), HighWater(Run(c, a, hc), b, hc))
    decreases |a|
  {
    hide Advance;
    if a == [] {
      assert a + b == b;
    } else if Running(c) {
      assert (a + b)[1..] == a[1..] + b && (a + b)[0] == a[0];
      HighWaterConcat(Advance(c, a[0], hc), a[1..], b, hc);
    } else {
      RunStopped(c, a, hc);
    }
  }

  // Every byte counts at most one.
  lemma {:induction false} HighWaterBound(c: Config, s: Bytes, hc: Callback)
    ensures HighWater(c, s, hc) <= c.nread + |s|
    decreases |s|
  {
    hide Step, StepEvents, Emit;
    if s != [] && Running(c) {
      HighWaterBound(Advance(c, s[0], hc), s[1..], hc);
    }
  }
}
