/**
 The error path of http_parser_execute flushes no mark: which data a failing byte leaves unreported.
 */
module HttpLost {
  import opened Basics
  import opened HttpTypes
  import opened HttpStep
  import opened HttpRun

  // The mark that is set in front of byte i of a buffer, outside the body states: the restored one,
  // or the body mark if the chunk in front of its CR has bytes in this buffer.
  function OpenMark(s: State, i: nat): Option<Kind> {
    if s == AtChunkData(ChunkDataAlmostDone) then (if i > 0 then Some(OnBody) else None) else StartLive(s)
  }

  // The kind of data left unreported if byte ch, at offset i of a buffer, fails in state s.
  function LostKind(s: State, ch: Byte, i: nat): Option<Kind> {
    match s
    case AtUrl(_) => Some(OnUrl)
    case AtField(HeaderField) => Some(OnHeaderField)
    case AtValue(HeaderValue) | AtValue(HeaderValueDiscardWs) | AtValue(HeaderValueStart) => Some(OnHeaderValue)
    case AtValue(HeaderValueLws) => if ch == ' ' || ch == '\t' then Some(OnHeaderValue) else None
    case AtChunkData(ChunkDataAlmostDone) => if i > 0 then Some(OnBody) else None
    case _ => None
  }

  predicate Leaves(p: Parser, r: Result, ch: Byte, i: nat) {
    r.p.errno != OK ==> LiveAfter(OpenMark(p.state, i), r.acts) == LostKind(p.state, ch, i)
  }

  lemma LeavesStart(p: Parser, s: StartState, ch: Byte, i: nat)
    requires p.errno == OK && p.state == AtStart(s)
    ensures Leaves(p, StartTransition(p, s, ch), ch, i)
  {
    hide MethodName, NextCandidate, FirstCandidate, IsAlpha;
  }

  lemma LeavesLines(p: Parser, s: StatusState, u: UrlState, v: VersionState, ch: Byte, i: nat)
    requires p.errno == OK
    ensures p.state == AtStatus(s) ==> Leaves(p, StatusTransition(p, s, ch), ch, i)
    ensures p.state == AtUrl(u) ==> Leaves(p, UrlTransition(p, u, ch), ch, i)
    ensures p.state == AtVersion(v) ==> Leaves(p, VersionTransition(p, v, ch), ch, i)
  {
    hide NextUrlState, Cap;
  }

  lemma LeavesEndHeaders(p: Parser, ch: Byte, hc: Callback)
    requires p.errno == OK
    ensures EndHeaders(p, ch, hc).p.errno != OK ==> EndHeaders(p, ch, hc).acts == Nil
    ensures StartField(p, ch, hc).p.errno != OK ==> StartField(p, ch, hc).acts == Nil
  {
    hide AfterHeaders, KeepAlive, IsToken;
  }

  lemma LeavesField(p: Parser, s: FieldState, ch: Byte, hc: Callback, i: nat)
    requires p.errno == OK && p.state == AtField(s)
    ensures Leaves(p, FieldTransition(p, s, ch, hc), ch, i)
  {
    hide EndHeaders, StartField, FieldByte, AfterHeaders;
    LeavesEndHeaders(p, ch, hc);
  }

  lemma LeavesValue(p: Parser, s: ValueState, ch: Byte, hc: Callback, skip: bool, i: nat)
    requires p.errno == OK && p.state == AtValue(s)
    ensures Leaves(p, ValueTransition(p, s, ch, hc, skip), ch, i)
  {
    hide StartField, StartValue, ValueByte, SetHeaderFlag;
    LeavesEndHeaders(SetHeaderFlag(p).(state := AtField(HeaderFieldStart)), ch, hc);
    var mark := Do(Mark(OnHeaderValue), Nil);
    assert LiveAfter(None, mark) == Some(OnHeaderValue) by {
      assert LiveAfter(Some(OnHeaderValue), Nil) == Some(OnHeaderValue);
    }
    assert LiveAfter(None, Do(Mark(OnHeaderValue), Do(Flush(OnHeaderValue), Nil))) == None by {
      assert LiveAfter(Some(OnHeaderValue), Do(Flush(OnHeaderValue), Nil)) == LiveAfter(None, Nil);
    }
  }

  lemma LeavesBody(p: Parser, s: ChunkSizeState, t: ChunkDataState, u: BodyState, ch: Byte, i: nat)
    requires p.errno == OK
    ensures p.state == AtChunkSize(s) ==> Leaves(p, ChunkSizeTransition(p, s, ch), ch, i)
    ensures p.state == AtChunkData(t) ==> Leaves(p, ChunkDataTransition(p, t, ch), ch, i)
    ensures p.state == AtBody(u) ==> Leaves(p, BodyTransition(p, u, ch), ch, i)
  {
    hide KeepAlive, Unhex;
  }

  // What a failing byte leaves unreported depends on the state, the byte and its offset only.
  lemma FailLeaves(p: Parser, ch: Byte, hc: Callback, skip: bool, i: nat)
    requires p.errno == OK
    ensures Leaves(p, Step(p, ch, hc, skip), ch, i)
  {
    hide StartTransition, StatusTransition, UrlTransition, VersionTransition, FieldTransition,
         ValueTransition, ChunkSizeTransition, ChunkDataTransition, BodyTransition, Leaves;
    match p.state
    case AtStart(s) => LeavesStart(p, s, ch, i);
    case AtStatus(s) => LeavesLines(p, s, ReqPath, ReqMajor, ch, i);
    case AtUrl(s) => LeavesLines(p, ResH, s, ReqMajor, ch, i);
    case AtVersion(s) => LeavesLines(p, ResH, ReqPath, s, ch, i);
    case AtField(s) => LeavesField(p, s, ch, hc, i);
    case AtValue(s) => LeavesValue(p, s, ch, hc, skip, i);
    case AtChunkSize(s) => LeavesBody(p, s, ChunkData, BodyIdentity, ch, i);
    case AtChunkData(s) => LeavesBody(p, ChunkSize, s, BodyIdentity, ch, i);
    case AtBody(s) => LeavesBody(p, ChunkSize, ChunkData, s, ch, i);
  }

  // ---------------------------------------------------------------- the end of a chunk's data

  predicate SkipsAlmostDone(p: Parser, r: Result) {
    r.p.errno == OK && r.p.state == AtChunkData(ChunkDataAlmostDone) ==> p.state == AtChunkData(ChunkData)
  }

  lemma EndSkips(p: Parser, ch: Byte, hc: Callback)
    requires p.errno == OK && p.state.AtField?
    ensures SkipsAlmostDone(p, EndHeaders(p, ch, hc)) && SkipsAlmostDone(p, FinishHeaders(p))
  {
    hide KeepAlive, NeedsEof;
  }

  lemma FieldSkips(p: Parser, s: FieldState, ch: Byte, hc: Callback)
    requires p.errno == OK && p.state == AtField(s)
    ensures SkipsAlmostDone(p, FieldTransition(p, s, ch, hc))
  {
    hide EndHeaders, FinishHeaders, FieldByte, IsToken;
    EndSkips(p, ch, hc);
    EndSkips(p.(state := AtField(HeadersAlmostDone)), ch, hc);
  }

  lemma ValueSkips(p: Parser, s: ValueState, ch: Byte, hc: Callback, skip: bool)
    requires p.errno == OK && p.state == AtValue(s)
    ensures SkipsAlmostDone(p, ValueTransition(p, s, ch, hc, skip))
  {
    hide StartField, StartValue, ValueByte, SetHeaderFlag;
    FieldSkips(SetHeaderFlag(p).(state := AtField(HeaderFieldStart)), HeaderFieldStart, ch, hc);
  }

  // Only the last byte of a chunk leads in front of its CR.
  lemma AlmostDone(p: Parser, ch: Byte, hc: Callback, skip: bool)
    requires p.errno == OK
    ensures SkipsAlmostDone(p, Step(p, ch, hc, skip))
  {
    hide StartTransition, StatusTransition, UrlTransition, VersionTransition, FieldTransition, ValueTransition;
    hide KeepAlive, Unhex, Accumulate;
    match p.state
    case AtStart(s) => StartSkips(p, s, ch);
    case AtField(s) => FieldSkips(p, s, ch, hc);
    case AtValue(s) => ValueSkips(p, s, ch, hc, skip);
    case _ =>
  }

  lemma StartSkips(p: Parser, s: StartState, ch: Byte)
    requires p.errno == OK && p.state == AtStart(s)
    ensures SkipsAlmostDone(p, StartTransition(p, s, ch))
  {
    hide MethodName, NextCandidate, FirstCandidate, IsAlpha;
  }

  // ---------------------------------------------------------------- no mark is moved

  // A byte that flushes a mark sets no other.
  lemma FlushOnly(p: Parser, ch: Byte, hc: Callback, skip: bool, i: nat)
    requires p.errno == OK && OpenMark(p.state, i).Some?
    ensures var acts := Step(p, ch, hc, skip).acts; acts == Nil || acts == Do(Flush(OpenMark(p.state, i).value), Nil)
  {
    hide StartTransition, VersionTransition, ChunkSizeTransition, BodyTransition, StartField, EndHeaders, FinishHeaders,
         StartValue, EndField, ValueByte, FieldByte, NextUrlState, StatusVersionTransition;
  }

  // ---------------------------------------------------------------- the data behind a mark

  // How many bytes at the end of s, a buffer fed to c, lie behind a mark that is set.
  function Held(c: Config, s: Bytes, hc: Callback): (n: nat)
    ensures n <= |s|
    decreases |s|
  {
    if s == [] then 0
    else
      var t := s[..|s| - 1];
      if EndLive(Run(c, t, hc).p.state, Run(c, s, hc).p.state).None? then 0 else Held(c, t, hc) + 1
  }

  // What stays unreported if byte j of a buffer fed to c fails.
  function Unreported(c: Config, data: Bytes, j: nat, hc: Callback): seq<Event>
    requires j < |data|
  {
    match LostKind(Run(c, data[..j], hc).p.state, data[j], j)
    case None => []
    case Some(k) => [Data(k, data[j - Held(c, data[..j], hc)..j])]
  }

  lemma HeldNext(c: Config, data: Bytes, i: nat, hc: Callback)
    requires i < |data|
    ensures var d, e := Run(c, data[..i], hc), Run(c, data[..i + 1], hc);
            Held(c, data[..i + 1], hc) ==
            if EndLive(d.p.state, e.p.state).None? then 0 else Held(c, data[..i], hc) + 1
  {
    hide Run, EndLive;
    var s := data[..i + 1];
    assert s[..|s| - 1] == data[..i];
  }

  // The bytes from j to k are all data.
  ghost predicate DataStretch(c: Config, data: Bytes, j: nat, k: nat, hc: Callback)
    requires j <= k <= |data|
  {
    forall y :: j <= y < k ==> HoldsByte(c, data, y, hc)
  }

  predicate HoldsByte(c: Config, data: Bytes, y: nat, hc: Callback)
    requires y < |data|
  {
    EndLive(Run(c, data[..y], hc).p.state, Run(c, data[..y + 1], hc).p.state).Some?
  }

  lemma {:induction false} HeldStretch(c: Config, data: Bytes, j: nat, k: nat, hc: Callback)
    requires j <= k <= |data| && DataStretch(c, data, j, k, hc)
    ensures Held(c, data[..k], hc) == Held(c, data[..j], hc) + (k - j)
    decreases k - j
  {
    hide Run, EndLive, Held;
    if j < k {
      HeldStretch(c, data, j, k - 1, hc);
      assert HoldsByte(c, data, k - 1, hc);
      HeldNext(c, data, k - 1, hc);
    }
  }
}
