/**
 Following a run along its input: where a stretch of bytes takes the parser, and what it reports.
 */
module HttpReach {
  import opened Basics
  import opened HttpTypes
  import opened HttpStep
  import opened HttpRun
  import opened HttpBlocks

  // The bytes s take c to parser p with log `log`, and all of them are consumed.
  predicate Reaches(c: Config, s: Bytes, hc: Callback, p: Parser, log: seq<Event>) {
    var d := Run(c, s, hc);
    Running(d) && d.p == p && d.log == log
  }

  lemma ReachNothing(c: Config, hc: Callback)
    requires Running(c)
    ensures Reaches(c, [], hc, c.p, c.log)
  {
    hide Advance;
  }

  lemma Then(c: Config, a: Bytes, b: Bytes, hc: Callback, p: Parser, log: seq<Event>)
    requires Reaches(Run(c, a, hc), b, hc, p, log)
    ensures Reaches(c, a + b, hc, p, log)
  {
    hide Run;
    RunConcat(c, a, b, hc);
  }

  // A byte that reports nothing, outside data.
  lemma ReachQuiet(c: Config, ch: Byte, hc: Callback)
    requires Running(c) && StartLive(c.p.state) == None
    requires var r := Step(c.p, ch, hc, c.skip); r.acts == Nil && r.p.errno == OK && !r.exit
    ensures Reaches(c, [ch], hc, Step(c.p, ch, hc, c.skip).p, c.log)
  {
    hide Step;
    RunOne(c, ch, hc);
    EmitNone(c.log);
    assert StepEvents(c.p, Step(c.p, ch, hc, c.skip), ch) == [];
  }

  // The first byte of data.
  lemma ReachMark(c: Config, ch: Byte, hc: Callback, k: Kind)
    requires Running(c) && StartLive(c.p.state) == None
    requires var r := Step(c.p, ch, hc, c.skip); r.acts == Do(Mark(k), Nil) && r.p.errno == OK && !r.exit
    ensures Reaches(c, [ch], hc, Step(c.p, ch, hc, c.skip).p, Push(c.log, Data(k, [ch])))
  {
    hide Step;
    RunOne(c, ch, hc);
    var r := Step(c.p, ch, hc, c.skip);
    assert Trace(None, r.acts, ch) == [Data(k, [])] by {
      assert Trace(Some(k), Nil, ch) == [];
    }
    assert LiveAfter(None, r.acts) == Some(k) by {
      assert LiveAfter(Some(k), Nil) == Some(k);
    }
    assert StepEvents(c.p, r, ch) == [Data(k, []), Data(k, [ch])];
    EmitTwo(c.log, k, [], [ch]);
    assert [] + [ch] == [ch];
  }

  // A further byte of data.
  lemma ReachData(c: Config, ch: Byte, hc: Callback, k: Kind)
    requires Running(c) && StartLive(c.p.state) == Some(k)
    requires var r := Step(c.p, ch, hc, c.skip); r.acts == Nil && r.p.errno == OK && !r.exit
    ensures Reaches(c, [ch], hc, Step(c.p, ch, hc, c.skip).p, Push(c.log, Data(k, [ch])))
  {
    hide Step;
    RunOne(c, ch, hc);
    DataByte(c, ch, hc, k);
  }

  // The byte after data.
  lemma ReachFlush(c: Config, ch: Byte, hc: Callback, k: Kind)
    requires Running(c) && StartLive(c.p.state) == Some(k) && EndsWith(c.log, k)
    requires var r := Step(c.p, ch, hc, c.skip); r.acts == Do(Flush(k), Nil) && r.p.errno == OK && !r.exit
    ensures Reaches(c, [ch], hc, Step(c.p, ch, hc, c.skip).p, c.log)
  {
    hide Step;
    RunOne(c, ch, hc);
    var r := Step(c.p, ch, hc, c.skip);
    assert LiveAfter(Some(k), r.acts) == None by {
      assert LiveAfter(None, Nil) == None;
    }
    assert StepEvents(c.p, r, ch) == [Data(k, [])];
    EmitOne(c.log, Data(k, []));
    PushEmpty(c.log, k);
  }

  // A byte that causes one notification.
  lemma ReachCall(c: Config, ch: Byte, hc: Callback, n: Note)
    requires Running(c) && StartLive(c.p.state) == None
    requires var r := Step(c.p, ch, hc, c.skip); r.acts == Do(Call(n), Nil) && r.p.errno == OK && !r.exit
    ensures Reaches(c, [ch], hc, Step(c.p, ch, hc, c.skip).p, c.log + [Notify(n)])
  {
    hide Step;
    RunOne(c, ch, hc);
    var r := Step(c.p, ch, hc, c.skip);
    assert LiveAfter(None, r.acts) == None && Trace(None, r.acts, ch) == [Notify(n)] by {
      assert LiveAfter(None, Nil) == None && Trace(None, Nil, ch) == [];
    }
    assert StepEvents(c.p, r, ch) == [Notify(n)];
    EmitOne(c.log, Notify(n));
  }

  // A flush of a mark that is not set, at the end of a body delivered in earlier buffers.
  lemma ReachNoFlush(c: Config, ch: Byte, hc: Callback, k: Kind)
    requires Running(c) && StartLive(c.p.state) == None
    requires var r := Step(c.p, ch, hc, c.skip); r.acts == Do(Flush(k), Nil) && r.p.errno == OK && !r.exit
    ensures Reaches(c, [ch], hc, Step(c.p, ch, hc, c.skip).p, c.log)
  {
    hide Step;
    RunOne(c, ch, hc);
    var r := Step(c.p, ch, hc, c.skip);
    assert LiveAfter(None, r.acts) == None && Trace(None, r.acts, ch) == [] by {
      assert LiveAfter(None, Nil) == None && Trace(None, Nil, ch) == [];
    }
    assert StepEvents(c.p, r, ch) == [];
    EmitNone(c.log);
  }

  // A byte that causes two notifications.
  lemma TwoCalls(c: Config, ch: Byte, hc: Callback, m: Note, n: Note)
    requires Running(c) && StartLive(c.p.state) == None
    requires var r := Step(c.p, ch, hc, c.skip); r.acts == Do(Call(m), Do(Call(n), Nil)) && r.p.errno == OK
    ensures var d := Run(c, [ch], hc);
            d.p == Step(c.p, ch, hc, c.skip).p && d.log == c.log + [Notify(m), Notify(n)]
    ensures Run(c, [ch], hc).exited == Step(c.p, ch, hc, c.skip).exit
  {
    hide Step;
    RunOne(c, ch, hc);
    var r := Step(c.p, ch, hc, c.skip);
    var last := Do(Call(n), Nil);
    assert LiveAfter(None, last) == None && Trace(None, last, ch) == [Notify(n)] by {
      assert LiveAfter(None, Nil) == None && Trace(None, Nil, ch) == [];
    }
    assert StepEvents(c.p, r, ch) == [Notify(m)] + [Notify(n)];
    EmitConcat(c.log, [Notify(m)], [Notify(n)]);
    EmitOne(c.log, Notify(m));
    EmitOne(c.log + [Notify(m)], Notify(n));
    assert c.log + [Notify(m)] + [Notify(n)] == c.log + [Notify(m), Notify(n)];
  }

  // A run that ends without an error after its last byte has consumed everything.
  lemma {:induction false} Consumed(c: Config, s: Bytes, hc: Callback)
    requires Running(c) && s != [] && Run(c, s, hc).p.errno == OK
    requires Running(Run(c, s[..|s| - 1], hc))
    ensures Run(c, s, hc).pos == c.pos + |s|
  {
    hide Step, StepEvents;
    var t, ch := s[..|s| - 1], s[|s| - 1];
    assert s == t + [ch];
    RunConcat(c, t, [ch], hc);
    RunPos(c, t, hc);
    RunOne(Run(c, t, hc), ch, hc);
  }
}
