/**
 Every accepted task is at all times in exactly one place, and is never run before its deadline.
 */
module PumpConservation {
  import opened PumpTasks
  import opened PumpProtocol

  function BatchOf(d: Drain): seq<Task> { if d.Running? then d.batch else [] }

  function One(t: Task, x: Task): nat { if t == x then 1 else 0 }

  // How often x is in a sequence of tasks.
  function Count(ts: seq<Task>, x: Task): nat
    decreases |ts|
  {
    if ts == [] then 0 else Count(ts[..|ts| - 1], x) + One(ts[|ts| - 1], x)
  }

  // How often x has been taken and not yet run.
  function Taken(ds: seq<Drain>, x: Task): nat
    decreases |ds|
  {
    if ds == [] then 0 else Taken(ds[..|ds| - 1], x) + Count(BatchOf(ds[|ds| - 1]), x)
  }

  // How often x has been run.
  function Runs(done: seq<Done>, x: Task): nat
    decreases |done|
  {
    if done == [] then 0 else Runs(done[..|done| - 1], x) + One(done[|done| - 1].task, x)
  }

  // The places a task can be in.
  function Places(s: State, x: Task): nat {
    Count(s.pending, x) + Taken(s.drains, x) + Runs(s.done, x) + Count(s.cancelled, x)
  }

  // ---------------------------------------------------------------- counting

  lemma CountAdd(ts: seq<Task>, t: Task, x: Task)
    ensures Count(ts + [t], x) == Count(ts, x) + One(t, x)
  {
    assert (ts + [t])[..|ts|] == ts;
  }

  lemma {:induction false} CountConcat(a: seq<Task>, b: seq<Task>, x: Task)
    ensures Count(a + b, x) == Count(a, x) + Count(b, x)
    decreases |b|
  {
    hide One;
    if b == [] {
      assert a + b == a;
    } else {
      assert (a + b)[..|a + b| - 1] == a + b[..|b| - 1];
      CountConcat(a, b[..|b| - 1], x);
    }
  }

  lemma CountFirst(ts: seq<Task>, x: Task)
    requires ts != []
    ensures Count(ts, x) == One(ts[0], x) + Count(ts[1..], x)
  {
    assert ts == [ts[0]] + ts[1..];
    CountConcat([ts[0]], ts[1..], x);
    assert [ts[0]][..0] == [];
  }

  lemma {:induction false} CountInsert(ts: seq<Task>, t: Task, x: Task)
    ensures Count(Insert(ts, t), x) == Count(ts, x) + One(t, x)
    decreases |ts|
  {
    hide One, Less;
    var r := Insert(ts, t);
    CountFirst(r, x);
    if ts == [] || Less(t, ts[0]) {
      assert r[1..] == ts;
    } else {
      assert r[1..] == Insert(ts[1..], t);
      CountInsert(ts[1..], t, x);
      CountFirst(ts, x);
    }
  }

  lemma {:induction false} CountCancel(ts: seq<Task>, id: nat, x: Task)
    ensures Count(Without(ts, id), x) + Count(WithId(ts, id), x) == Count(ts, x)
    decreases |ts|
  {
    hide One;
    if ts != [] {
      CountFirst(ts, x);
      if ts[0].id == id {
        CountFirst([ts[0]], x);
        assert [ts[0]][1..] == [];
      } else {
        var w := Without(ts, id);
        CountFirst(w, x);
        assert w[1..] == Without(ts[1..], id);
        CountCancel(ts[1..], id, x);
      }
    }
  }

  lemma {:induction false} TakenUpdate(ds: seq<Drain>, j: nat, d: Drain, x: Task)
    requires j < |ds|
    ensures Taken(ds[j := d], x) + Count(BatchOf(ds[j]), x) == Taken(ds, x) + Count(BatchOf(d), x)
    decreases |ds|
  {
    hide BatchOf, Count;
    var init, es := ds[..|ds| - 1], ds[j := d];
    if j == |ds| - 1 {
      assert es[..|es| - 1] == init;
    } else {
      assert es[..|es| - 1] == init[j := d];
      TakenUpdate(init, j, d, x);
    }
  }

  lemma {:induction false} TakenDrop(ds: seq<Drain>, j: nat, x: Task)
    requires j < |ds|
    ensures Taken(DropAt(ds, j), x) + Count(BatchOf(ds[j]), x) == Taken(ds, x)
    decreases |ds|
  {
    hide BatchOf, Count;
    var init, es := ds[..|ds| - 1], DropAt(ds, j);
    if j == |ds| - 1 {
      assert es == init;
    } else {
      assert es[..|es| - 1] == DropAt(init, j) && es[|es| - 1] == ds[|ds| - 1];
      TakenDrop(init, j, x);
    }
  }

  lemma TakenAdd(ds: seq<Drain>, d: Drain, x: Task)
    ensures Taken(ds + [d], x) == Taken(ds, x) + Count(BatchOf(d), x)
  {
    assert (ds + [d])[..|ds|] == ds;
  }

  lemma RunsAdd(done: seq<Done>, d: Done, x: Task)
    ensures Runs(done + [d], x) == Runs(done, x) + One(d.task, x)
  {
    assert (done + [d])[..|done|] == done;
  }

  // ---------------------------------------------------------------- steps

  // No step makes or loses a task: the places of x change exactly as x is accepted.
  lemma StepConserves(s: State, e: Step, x: Task)
    requires Enabled(s, e)
    ensures Places(Next(s, e), x) - Count(Next(s, e).accepted, x) == Places(s, x) - Count(s.accepted, x)
  {
    hide Count, Taken, Runs, One, Without, WithId, Insert, DueCount;
    match e
    case Join(i) =>
      var t := Task(s.posters[i].deadline, s.lastId + 1);
      CountInsert(s.pending, t, x);
      CountAdd(s.accepted, t, x);
    case Take(j) =>
      var at := s.drains[j].at;
      TakenUpdate(s.drains, j, Running(at, Due(s.pending, at)), x);
      CountConcat(Due(s.pending, at), Later(s.pending, at), x);
      assert s.pending == Due(s.pending, at) + Later(s.pending, at);
      CountNone(x);
    case RunOne(j) =>
      var d := s.drains[j];
      TakenUpdate(s.drains, j, d.(batch := d.batch[1..]), x);
      CountFirst(d.batch, x);
      RunsAdd(s.done, Done(d.batch[0], d.at), x);
    case Rearm(j) =>
      TakenDrop(s.drains, j, x);
      CountNone(x);
    case Start =>
      TakenAdd(s.drains, Starting(s.clock), x);
      CountNone(x);
    case Cancel(id) =>
      CountCancel(s.pending, id, x);
      CountConcat(s.cancelled, WithId(s.pending, id), x);
    case _ =>
  }

  lemma CountNone(x: Task)
    ensures Count([], x) == 0
  {
  }

  lemma {:induction false} ExecConserves(s: State, es: seq<Step>, x: Task)
    requires Legal(s, es)
    ensures Places(Exec(s, es), x) - Count(Exec(s, es).accepted, x) == Places(s, x) - Count(s.accepted, x)
    decreases |es|
  {
    hide Enabled, Next, Places, Count;
    if es != [] {
      StepConserves(s, es[0], x);
      ExecConserves(Next(s, es[0]), es[1..], x);
    }
  }

  // ---------------------------------------------------------------- ids

  predicate Numbered(s: State) {
    s.lastId == |s.accepted| && forall i :: 0 <= i < |s.accepted| ==> s.accepted[i].id == i + 1
  }

  lemma StepNumbered(s: State, e: Step)
    requires Enabled(s, e) && Numbered(s)
    ensures Numbered(Next(s, e))
  {
    hide Insert, Without, WithId, DueCount;
  }

  lemma {:induction false} ExecNumbered(s: State, es: seq<Step>)
    requires Legal(s, es) && Numbered(s)
    ensures Numbered(Exec(s, es))
    decreases |es|
  {
    hide Enabled, Next, Numbered;
    if es != [] {
      StepNumbered(s, es[0]);
      ExecNumbered(Next(s, es[0]), es[1..]);
    }
  }

  lemma {:induction false} NumberedOnce(ts: seq<Task>, x: Task)
    requires forall i :: 0 <= i < |ts| ==> ts[i].id == i + 1
    ensures Count(ts, x) == if x in ts then 1 else 0
    decreases |ts|
  {
    if ts != [] {
      var init := ts[..|ts| - 1];
      NumberedOnce(init, x);
      assert x in ts <==> x in init || x == ts[|ts| - 1];
    }
  }

  // In every reachable state every accepted task is in exactly one place: pending, taken into a
  // batch, run, once, or cancelled; and no other task is anywhere.  No id is used twice.
  lemma ExactlyOnce(es: seq<Step>, x: Task)
    requires Legal(INITIAL, es)
    ensures var s := Exec(INITIAL, es);
            && Places(s, x) == (if x in s.accepted then 1 else 0)
            && Numbered(s)
  {
    hide Enabled, Next, Exec, Places;
    assert Places(INITIAL, x) == 0 by { NothingPlaced(x); }
    ExecConserves(INITIAL, es, x);
    ExecNumbered(INITIAL, es);
    NumberedOnce(Exec(INITIAL, es).accepted, x);
  }

  lemma NothingPlaced(x: Task)
    ensures Places(INITIAL, x) == 0
  {
  }

  // ---------------------------------------------------------------- cancellation

  lemma CancelledGrows(s: State, e: Step)
    requires Enabled(s, e)
    ensures s.cancelled <= Next(s, e).cancelled
  {
    hide Insert, Without, WithId, DueCount;
  }

  lemma {:induction false} CancelledStays(s: State, es: seq<Step>)
    requires Legal(s, es)
    ensures s.cancelled <= Exec(s, es).cancelled
    decreases |es|
  {
    hide Enabled, Next;
    if es != [] {
      CancelledGrows(s, es[0]);
      CancelledStays(Next(s, es[0]), es[1..]);
    }
  }

  lemma {:induction false} CountIn(ts: seq<Task>, x: Task)
    ensures Count(ts, x) > 0 <==> x in ts
    decreases |ts|
  {
    if ts != [] {
      var init := ts[..|ts| - 1];
      CountIn(init, x);
      assert x in ts <==> x in init || x == ts[|ts| - 1];
    }
  }

  // A task whose Cancel returned true never runs, whatever happens afterwards.
  lemma CancelledNeverRuns(before: seq<Step>, after: seq<Step>, x: Task)
    requires Legal(INITIAL, before) && Legal(Exec(INITIAL, before), after)
    requires x in Exec(INITIAL, before).cancelled
    ensures Runs(Exec(Exec(INITIAL, before), after).done, x) == 0
  {
    hide Enabled, Next, Exec, Runs, Taken, Count;
    ExecConcat(INITIAL, before, after);
    CancelledStays(Exec(INITIAL, before), after);
    ExactlyOnce(before + after, x);
    CountIn(Exec(INITIAL, before + after).cancelled, x);
  }

  // ---------------------------------------------------------------- deadlines

  predicate DrainOnTime(d: Drain, clock: nat) {
    d.at <= clock && forall k :: 0 <= k < |BatchOf(d)| ==> BatchOf(d)[k].deadline <= d.at
  }

  predicate OnTime(s: State) {
    && (forall i :: 0 <= i < |s.done| ==> s.done[i].task.deadline <= s.done[i].at <= s.clock)
    && (forall j :: 0 <= j < |s.drains| ==> DrainOnTime(s.drains[j], s.clock))
    && Ordered(s.pending) && Below(s.pending, s.lastId + 1)
  }

  lemma TakeOnTime(s: State, j: nat)
    requires Enabled(s, Take(j)) && OnTime(s)
    ensures OnTime(TakeNext(s, j))
  {
    DueExact(s.pending, s.drains[j].at);
  }

  lemma RearmOnTime(s: State, j: nat)
    requires Enabled(s, Rearm(j)) && OnTime(s)
    ensures OnTime(RearmNext(s, j))
  {
    hide Ordered, Below, DrainOnTime;
    var t := s.(drains := DropAt(s.drains, j));
    assert forall i :: 0 <= i < |t.drains| ==> t.drains[i] == s.drains[if i < j then i else i + 1];
  }

  lemma {:induction false} WithoutOrdered(ts: seq<Task>, id: nat)
    requires Ordered(ts)
    ensures Ordered(Without(ts, id)) && forall i :: 0 <= i < |Without(ts, id)| ==> Without(ts, id)[i] in ts
    decreases |ts|
  {
    if ts != [] && ts[0].id != id {
      var rest := Without(ts[1..], id);
      WithoutOrdered(ts[1..], id);
      forall i | 0 <= i < |rest| ensures Less(ts[0], rest[i]) && rest[i] in ts {
        assert rest[i] in ts[1..];
      }
    }
  }

  lemma StepOnTime(s: State, e: Step)
    requires Enabled(s, e) && OnTime(s)
    ensures OnTime(Next(s, e))
  {
    hide TakeNext, RearmNext, RunNext, JoinNext, Insert, Without, WithId, DueCount, Ordered, Below, DrainOnTime;
    match e
    case Tick(n) => TickOnTime(s, n);
    case Join(i) => JoinOnTime(s, i);
    case Take(j) => TakeOnTime(s, j);
    case Rearm(j) => RearmOnTime(s, j);
    case Cancel(id) => CancelOnTime(s, id);
    case RunOne(j) => RunOnTime(s, j);
    case Start => StartOnTime(s);
    case _ =>
  }

  lemma TickOnTime(s: State, n: nat)
    requires OnTime(s)
    ensures OnTime(s.(clock := s.clock + n))
  {
    hide Ordered, Below;
  }

  lemma JoinOnTime(s: State, i: nat)
    requires Enabled(s, Join(i)) && OnTime(s)
    ensures OnTime(JoinNext(s, i))
  {
    hide Insert, Ordered, DrainOnTime;
    InsertOrdered(s.pending, Task(s.posters[i].deadline, s.lastId + 1));
    assert s.lastId + 1 < s.lastId + 2;
  }

  lemma CancelOnTime(s: State, id: nat)
    requires OnTime(s)
    ensures OnTime(Next(s, Cancel(id)))
  {
    hide Without, WithId, Ordered, DrainOnTime;
    WithoutOrdered(s.pending, id);
  }

  lemma StartOnTime(s: State)
    requires Enabled(s, Start) && OnTime(s)
    ensures OnTime(Next(s, Start))
  {
    hide Ordered, Below;
    var t := Next(s, Start);
    assert forall j :: 0 <= j < |s.drains| ==> t.drains[j] == s.drains[j];
  }

  lemma RunOnTime(s: State, j: nat)
    requires Enabled(s, RunOne(j)) && OnTime(s)
    ensures OnTime(RunNext(s, j))
  {
    hide Ordered, Below;
    var t, d := RunNext(s, j), s.drains[j];
    assert DrainOnTime(d, s.clock) && BatchOf(d)[0].deadline <= d.at;
    forall i | 0 <= i < |t.drains| ensures DrainOnTime(t.drains[i], s.clock) {
      if i == j {
        assert forall k :: 0 <= k < |BatchOf(t.drains[i])| ==> BatchOf(t.drains[i])[k] == BatchOf(d)[k + 1];
      } else {
        assert t.drains[i] == s.drains[i];
      }
    }
  }

  lemma {:induction false} ExecOnTime(s: State, es: seq<Step>)
    requires Legal(s, es) && OnTime(s)
    ensures OnTime(Exec(s, es))
    decreases |es|
  {
    hide Enabled, Next, OnTime;
    if es != [] {
      StepOnTime(s, es[0]);
      ExecOnTime(Next(s, es[0]), es[1..]);
    }
  }

  // No task is ever taken before its deadline.
  lemma NeverEarly(es: seq<Step>)
    requires Legal(INITIAL, es)
    ensures var s := Exec(INITIAL, es);
            forall i :: 0 <= i < |s.done| ==> s.done[i].task.deadline <= s.done[i].at <= s.clock
  {
    hide Enabled, Next;
    ExecOnTime(INITIAL, es);
  }
}
