/**
 The order in which a pump with one worker runs its tasks.
 */
module PumpOrder {
  import opened PumpTasks
  import opened PumpProtocol
  import opened PumpConservation

  // A run in which at most one drain is in progress at a time.
  predicate OneWorker(s: State, es: seq<Step>)
    requires Legal(s, es)
    decreases |es|
  {
    |s.drains| <= 1 && (es != [] ==> OneWorker(Next(s, es[0]), es[1..]))
  }

  function DoneTasks(done: seq<Done>): (ts: seq<Task>)
    ensures |ts| == |done|
    decreases |done|
  {
    if done == [] then [] else DoneTasks(done[..|done| - 1]) + [done[|done| - 1].task]
  }

  // The tasks in the order they are run: those that have been, then those of the batch.
  function Line(s: State): seq<Task> {
    DoneTasks(s.done) + if s.drains == [] then [] else BatchOf(s.drains[0])
  }

  predicate Earlier(line: seq<Task>, x: Task, k: nat) {
    exists j :: 0 <= j < k && j < |line| && line[j] == x
  }

  // A task posted before y, and due no later, is run before y, unless it is cancelled.
  predicate InTurn(s: State) {
    forall x, k :: x in s.accepted && 0 <= k < |Line(s)| && x.id < Line(s)[k].id && x.deadline <= Line(s)[k].deadline
                   ==> x in s.cancelled || Earlier(Line(s), x, k)
  }

  ghost predicate Placed(s: State) {
    Numbered(s) && OnTime(s) && forall x :: Places(s, x) == if x in s.accepted then 1 else 0
  }

  lemma StepPlaced(s: State, e: Step)
    requires Enabled(s, e) && Placed(s)
    ensures Placed(Next(s, e))
  {
    hide Enabled, Next, Places, OnTime;
    StepOnTime(s, e);
    StepNumbered(s, e);
    var t := Next(s, e);
    forall x ensures Places(t, x) == if x in t.accepted then 1 else 0 {
      StepConserves(s, e, x);
      NumberedOnce(s.accepted, x);
      NumberedOnce(t.accepted, x);
    }
  }

  // ---------------------------------------------------------------- where tasks are

  lemma {:induction false} RunsIn(done: seq<Done>, x: Task)
    ensures Runs(done, x) > 0 <==> x in DoneTasks(done)
    decreases |done|
  {
    if done != [] {
      var init := done[..|done| - 1];
      RunsIn(init, x);
      assert x in DoneTasks(done) <==> x in DoneTasks(init) || x == done[|done| - 1].task;
    }
  }

  lemma TakenOne(ds: seq<Drain>, x: Task)
    requires |ds| <= 1
    ensures Taken(ds, x) == if ds == [] then 0 else Count(BatchOf(ds[0]), x)
  {
    if ds != [] {
      assert ds[..0] == [];
    }
  }

  // A task is accepted exactly if it is pending, in the line or cancelled.
  lemma Somewhere(s: State, x: Task)
    requires Placed(s) && |s.drains| <= 1
    ensures x in s.accepted <==> x in s.pending || x in Line(s) || x in s.cancelled
  {
    hide Count, Taken, Runs, DoneTasks;
    CountIn(s.pending, x);
    CountIn(s.cancelled, x);
    RunsIn(s.done, x);
    TakenOne(s.drains, x);
    if s.drains != [] {
      CountIn(BatchOf(s.drains[0]), x);
    }
    assert Places(s, x) == if x in s.accepted then 1 else 0;
  }

  lemma LineBelow(s: State, k: nat)
    requires Placed(s) && |s.drains| <= 1 && k < |Line(s)|
    ensures Line(s)[k].id <= s.lastId
  {
    hide Places, Line;
    Somewhere(s, Line(s)[k]);
    assert Line(s)[k] in Line(s);
  }

  // ---------------------------------------------------------------- the line

  lemma DoneAdd(done: seq<Done>, d: Done)
    ensures DoneTasks(done + [d]) == DoneTasks(done) + [d.task]
  {
    assert (done + [d])[..|done|] == done;
  }

  // The steps that leave the line as it is.
  lemma WakeupKeeps(s: State, d: nat)
    ensures Wakeup(s, d).drains == s.drains && Wakeup(s, d).done == s.done
  {
  }

  lemma LineStays(s: State, e: Step)
    requires Enabled(s, e) && |s.drains| <= 1 && |Next(s, e).drains| <= 1 && !e.Take?
    ensures Line(Next(s, e)) == Line(s)
  {
    hide Insert, Without, WithId, DueCount, DoneTasks, Wakeup, IsFirst;
    match e
    case Wake(i) => WakeupKeeps(s.(posters := DropAt(s.posters, i)), s.posters[i].deadline);
    case RunOne(j) =>
      var d := s.drains[j];
      DoneAdd(s.done, Done(d.batch[0], d.at));
      assert d.batch == [d.batch[0]] + d.batch[1..];
    case Rearm(j) =>
      assert DropAt(s.drains, j) == [];
      if s.pending != [] {
        WakeupKeeps(s.(drains := DropAt(s.drains, j)), s.pending[0].deadline);
      }
    case _ =>
  }

  lemma LineGrows(s: State, j: nat)
    requires Enabled(s, Take(j)) && |s.drains| <= 1
    ensures Line(TakeNext(s, j)) == Line(s) + Due(s.pending, s.drains[j].at)
  {
  }

  lemma EarlierGrows(line: seq<Task>, more: seq<Task>, x: Task, k: nat)
    requires Earlier(line, x, k)
    ensures Earlier(line + more, x, k)
  {
    var j :| 0 <= j < k && j < |line| && line[j] == x;
    assert (line + more)[j] == x;
  }

  // A due task is taken together with every pending task that goes before it.
  lemma DueInTurn(s: State, j: nat, x: Task, i: nat)
    requires Enabled(s, Take(j)) && OnTime(s) && x in s.pending
    requires var due := Due(s.pending, s.drains[j].at);
             i < |due| && x.id < due[i].id && x.deadline <= due[i].deadline
    ensures Earlier(Due(s.pending, s.drains[j].at), x, i)
  {
    var at := s.drains[j].at;
    var due := Due(s.pending, at);
    DueExact(s.pending, at);
    var k :| 0 <= k < |s.pending| && s.pending[k] == x;
    assert due[i] == s.pending[i] && due[i].deadline <= at;
    assert k < |due| && due[k] == x;
  }

  lemma TakeInTurn(s: State, j: nat)
    requires Enabled(s, Take(j)) && |s.drains| <= 1 && Placed(s) && InTurn(s)
    ensures InTurn(TakeNext(s, j))
  {
    hide Places, Line, Earlier, Due, Later;
    LineGrows(s, j);
    var t := TakeNext(s, j);
    var line := Line(s) + Due(s.pending, s.drains[j].at);
    forall x, k | x in t.accepted && 0 <= k < |line| && x.id < line[k].id && x.deadline <= line[k].deadline
      ensures x in t.cancelled || Earlier(line, x, k)
    {
      if k < |Line(s)| {
        assert line[k] == Line(s)[k];
        if x !in s.cancelled {
          EarlierGrows(Line(s), Due(s.pending, s.drains[j].at), x, k);
        }
      } else {
        DueAt(s, j, x, k - |Line(s)|);
      }
    }
  }

  lemma DueAt(s: State, j: nat, x: Task, i: nat)
    requires Enabled(s, Take(j)) && |s.drains| <= 1 && Placed(s) && x in s.accepted
    requires var due := Due(s.pending, s.drains[j].at);
             i < |due| && x.id < due[i].id && x.deadline <= due[i].deadline
    ensures x in s.cancelled || Earlier(Line(s) + Due(s.pending, s.drains[j].at), x, |Line(s)| + i)
  {
    hide Places, Line, Due;
    var before, due := Line(s), Due(s.pending, s.drains[j].at);
    var line := before + due;
    Somewhere(s, x);
    if x in s.pending {
      DueInTurn(s, j, x, i);
      var m :| 0 <= m < i && m < |due| && due[m] == x;
      assert line[|before| + m] == x;
    } else if x in before {
      var m :| 0 <= m < |before| && before[m] == x;
      assert line[m] == x;
    }
  }

  lemma StepInTurn(s: State, e: Step)
    requires Enabled(s, e) && |s.drains| <= 1 && |Next(s, e).drains| <= 1 && Placed(s) && InTurn(s)
    ensures InTurn(Next(s, e))
  {
    hide Line, Places, Earlier, DueCount, Insert, Without, WithId, TakeNext;
    if e.Take? {
      TakeInTurn(s, e.j);
    } else {
      LineStays(s, e);
      var t := Next(s, e);
      assert s.cancelled <= t.cancelled by { CancelledGrows(s, e); }
      forall x, k | x in t.accepted && 0 <= k < |Line(t)| && x.id < Line(t)[k].id && x.deadline <= Line(t)[k].deadline
        ensures x in t.cancelled || Earlier(Line(t), x, k)
      {
        LineBelow(s, k);
        assert x in s.accepted by { AcceptedBefore(s, e, x); }
      }
    }
  }

  lemma AcceptedBefore(s: State, e: Step, x: Task)
    requires Enabled(s, e) && Numbered(s) && x in Next(s, e).accepted && x.id <= s.lastId
    ensures x in s.accepted
  {
    hide DueCount, Insert, Without, WithId;
  }

  lemma {:induction false} ExecInTurn(s: State, es: seq<Step>)
    requires Legal(s, es) && OneWorker(s, es) && Placed(s) && InTurn(s)
    ensures Placed(Exec(s, es)) && InTurn(Exec(s, es)) && |Exec(s, es).drains| <= 1
    decreases |es|
  {
    hide Enabled, Next, Placed, InTurn;
    if es != [] {
      StepPlaced(s, es[0]);
      StepInTurn(s, es[0]);
      ExecInTurn(Next(s, es[0]), es[1..]);
    }
  }

  // In every run of a pump with one worker, if y has been run, then every task posted before y and due
  // no later has been run before y or been cancelled.
  lemma PostingOrder(es: seq<Step>, x: Task, k: nat)
    requires Legal(INITIAL, es) && OneWorker(INITIAL, es)
    requires var s := Exec(INITIAL, es);
             k < |s.done| && x in s.accepted && x.id < s.done[k].task.id && x.deadline <= s.done[k].task.deadline
    ensures var s := Exec(INITIAL, es);
            x in s.cancelled || exists j :: 0 <= j < k && s.done[j].task == x
  {
    hide Enabled, Next, Exec, Legal, OneWorker;
    InitPlaced();
    ExecInTurn(INITIAL, es);
    var s := Exec(INITIAL, es);
    DoneAt(s.done, k);
    var line := Line(s);
    assert line[k] == s.done[k].task;
    if x !in s.cancelled {
      assert Earlier(line, x, k);
      var j :| 0 <= j < k && j < |line| && line[j] == x;
      DoneAt(s.done, j);
      assert s.done[j].task == x;
    }
  }

  lemma {:induction false} DoneAt(done: seq<Done>, k: nat)
    requires k < |done|
    ensures DoneTasks(done)[k] == done[k].task
    decreases |done|
  {
    if k < |done| - 1 {
      DoneAt(done[..|done| - 1], k);
    }
  }

  lemma InitPlaced()
    ensures Placed(INITIAL) && InTurn(INITIAL)
  {
  }

  // ---------------------------------------------------------------- one poster

  // A run in which no two posts overlap and no task is delayed.
  predicate PostsInTurn(s: State, es: seq<Step>)
    requires Legal(s, es)
    decreases |es|
  {
    |s.posters| <= 1 && (es != [] ==> (es[0].Enter? ==> es[0].delay == 0) && PostsInTurn(Next(s, es[0]), es[1..]))
  }

  // Later posts are due later.
  predicate SortedPosts(s: State) {
    && (forall x, y :: x in s.accepted && y in s.accepted && x.id < y.id ==> x.deadline <= y.deadline)
    && (forall x :: x in s.accepted ==> x.deadline <= s.clock && x.id <= s.lastId)
    && (forall x, i :: x in s.accepted && 0 <= i < |s.posters| && s.posters[i].Entered? ==>
          x.deadline <= s.posters[i].deadline)
    && (forall i :: 0 <= i < |s.posters| && s.posters[i].Entered? ==> s.posters[i].deadline <= s.clock)
  }

  lemma JoinSorted(s: State, i: nat)
    requires Enabled(s, Join(i)) && SortedPosts(s) && |s.posters| <= 1
    ensures SortedPosts(JoinNext(s, i))
  {
    hide Insert, IsFirst;
    var t, x := JoinNext(s, i), Task(s.posters[i].deadline, s.lastId + 1);
    assert forall y :: y in t.accepted <==> y in s.accepted || y == x;
  }

  lemma WakeSorted(s: State, e: Step)
    requires Enabled(s, e) && SortedPosts(s) && |s.posters| <= 1 && (e.Wake? || e.Rearm?)
    ensures SortedPosts(Next(s, e))
  {
  }

  lemma StepSorted(s: State, e: Step)
    requires Enabled(s, e) && SortedPosts(s) && |s.posters| <= 1 && (e.Enter? ==> e.delay == 0)
    ensures SortedPosts(Next(s, e))
  {
    hide DueCount, Insert, Without, WithId, JoinNext, Wakeup;
    if e.Join? {
      JoinSorted(s, e.i);
    } else if e.Wake? || e.Rearm? {
      WakeSorted(s, e);
    }
  }

  lemma {:induction false} ExecSorted(s: State, es: seq<Step>)
    requires Legal(s, es) && PostsInTurn(s, es) && SortedPosts(s)
    ensures SortedPosts(Exec(s, es))
    decreases |es|
  {
    hide Enabled, Next, SortedPosts;
    if es != [] {
      StepSorted(s, es[0]);
      ExecSorted(Next(s, es[0]), es[1..]);
    }
  }

  lemma DoneAccepted(s: State, k: nat)
    requires Placed(s) && |s.drains| <= 1 && k < |s.done|
    ensures s.done[k].task in s.accepted
  {
    hide Places;
    DoneAt(s.done, k);
    assert Line(s)[k] == s.done[k].task && Line(s)[k] in Line(s);
    Somewhere(s, Line(s)[k]);
  }

  // The undelayed tasks of one poster run in the order they were posted.
  lemma OnePosterInOrder(es: seq<Step>, x: Task, k: nat)
    requires Legal(INITIAL, es) && OneWorker(INITIAL, es) && PostsInTurn(INITIAL, es)
    requires var s := Exec(INITIAL, es); k < |s.done| && x in s.accepted && x.id < s.done[k].task.id
    ensures var s := Exec(INITIAL, es);
            x in s.cancelled || exists j :: 0 <= j < k && s.done[j].task == x
  {
    hide Enabled, Next, Exec, Legal, OneWorker, PostsInTurn;
    ExecSorted(INITIAL, es);
    InitPlaced();
    ExecInTurn(INITIAL, es);
    DoneAccepted(Exec(INITIAL, es), k);
    PostingOrder(es, x, k);
  }
}
