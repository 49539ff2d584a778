/**
 The pump as a protocol: any number of posting threads, worker threads that drain the task set,
 one timer that every wake-up overwrites, and a queue of drains.  Whatever happens under the lock
 is one step; a post inserts its task and wakes the pump in two.
 */
module PumpProtocol {
  import opened Basics
  import opened PumpTasks

  // A thread inside PostRunable: it has passed the stop check and read the clock, or it has
  // inserted its task and still owes the wake-up.
  datatype Poster = Entered(deadline: nat) | Owes(deadline: nat)

  // A thread inside DoWork: it has read the clock, or it is running what it took.
  datatype Drain = Starting(at: nat) | Running(at: nat, batch: seq<Task>)

  // A task that has been run, and the clock reading of the drain that took it.
  datatype Done = Done(task: Task, at: nat)

  datatype State = State(
    clock: nat,
    pending: seq<Task>,        // runable_set_
    lastId: nat,               // id_
    stopping: bool,            // Stop has passed its check
    stopped: bool,             // stoped_
    closed: bool,              // DoStop has run
    posters: seq<Poster>,
    timer: Option<nat>,        // the deadline timer_ is armed for
    queue: nat,                // drains posted to the io_service
    drains: seq<Drain>,
    accepted: seq<Task>,       // every task ever inserted, in order
    done: seq<Done>,           // every task ever run, in order
    cancelled: seq<Task>)      // every task removed by a Cancel that returned true

  const INITIAL := State(0, [], 0, false, false, false, [], None, 0, [], [], [], [])

  datatype Step =
    | Tick(millis: nat)         // time passes
    | Enter(delay: nat)        // PostRunable up to the lock
    | Join(i: nat)             // PostRunable under the lock
    | Wake(i: nat)             // the Wakeup a post owes
    | Fire                     // the timer expires and its handler is queued
    | Start                    // a worker takes a queued drain and reads the clock
    | Take(j: nat)             // DoWork takes the due tasks
    | RunOne(j: nat)           // DoWork runs a task it took
    | Rearm(j: nat)            // DoWork wakes the pump for what is left
    | Cancel(id: nat)
    | EnterStop                // Stop posts DoStop
    | Stop                     // Stop sets the flag
    | DoStop                   // the posted DoStop runs

  function DropAt<T>(s: seq<T>, i: nat): seq<T>
    requires i < |s|
  {
    s[..i] + s[i + 1..]
  }

  // MessagePumpDefatlt::Wakeup: a deadline in the future replaces the timer, which aborts the
  // wait it replaces; any other posts a drain.
  function Wakeup(s: State, deadline: nat): State {
    if deadline > s.clock then s.(timer := Some(deadline)) else s.(queue := s.queue + 1)
  }

  predicate IsFirst(ts: seq<Task>, deadline: nat) { ts == [] || deadline < ts[0].deadline }

  predicate Enabled(s: State, e: Step) {
    match e
    case Tick(_) => true
    case Enter(_) => !s.stopped
    case Join(i) => i < |s.posters| && s.posters[i].Entered?
    case Wake(i) => i < |s.posters| && s.posters[i].Owes?
    case Fire => s.timer.Some? && s.timer.value <= s.clock
    case Start => s.queue > 0
    case Take(j) => j < |s.drains| && s.drains[j].Starting?
    case RunOne(j) => j < |s.drains| && s.drains[j].Running? && s.drains[j].batch != []
    case Rearm(j) => j < |s.drains| && s.drains[j].Running? && s.drains[j].batch == []
    case Cancel(_) => true
    case EnterStop => !s.stopped
    case Stop => s.stopping
    case DoStop => s.stopping
  }

  function JoinNext(s: State, i: nat): State
    requires i < |s.posters| && s.posters[i].Entered?
  {
    var d := s.posters[i].deadline;
    var t := Task(d, s.lastId + 1);
    s.(lastId := s.lastId + 1, pending := Insert(s.pending, t), accepted := s.accepted + [t],
       posters := if IsFirst(s.pending, d) then s.posters[i := Owes(d)] else DropAt(s.posters, i))
  }

  function TakeNext(s: State, j: nat): State
    requires j < |s.drains| && s.drains[j].Starting?
  {
    var at := s.drains[j].at;
    s.(pending := Later(s.pending, at), drains := s.drains[j := Running(at, Due(s.pending, at))])
  }

  function RunNext(s: State, j: nat): State
    requires j < |s.drains| && s.drains[j].Running? && s.drains[j].batch != []
  {
    var d := s.drains[j];
    s.(drains := s.drains[j := d.(batch := d.batch[1..])], done := s.done + [Done(d.batch[0], d.at)])
  }

  function RearmNext(s: State, j: nat): State
    requires j < |s.drains|
  {
    var t := s.(drains := DropAt(s.drains, j));
    if t.pending == [] then t else Wakeup(t, t.pending[0].deadline)
  }

  // The tasks of one id: one or none.
  function WithId(ts: seq<Task>, id: nat): seq<Task>
    decreases |ts|
  {
    if ts == [] then [] else if ts[0].id == id then [ts[0]] else WithId(ts[1..], id)
  }

  function Next(s: State, e: Step): State
    requires Enabled(s, e)
  {
    match e
    case Tick(n) => s.(clock := s.clock + n)
    case Enter(delay) => s.(posters := s.posters + [Entered(s.clock + delay)])
    case Join(i) => JoinNext(s, i)
    case Wake(i) => Wakeup(s.(posters := DropAt(s.posters, i)), s.posters[i].deadline)
    case Fire => s.(timer := None, queue := s.queue + 1)
    case Start => s.(queue := s.queue - 1, drains := s.drains + [Starting(s.clock)])
    case Take(j) => TakeNext(s, j)
    case RunOne(j) => RunNext(s, j)
    case Rearm(j) => RearmNext(s, j)
    case Cancel(id) => s.(pending := Without(s.pending, id), cancelled := s.cancelled + WithId(s.pending, id))
    case EnterStop => s.(stopping := true)
    case Stop => s.(stopped := true)
    case DoStop => s.(closed := true, timer := None)
  }

  // ---------------------------------------------------------------- runs

  predicate Legal(s: State, es: seq<Step>)
    decreases |es|
  {
    es == [] || (Enabled(s, es[0]) && Legal(Next(s, es[0]), es[1..]))
  }

  function Exec(s: State, es: seq<Step>): State
    requires Legal(s, es)
    decreases |es|
  {
    if es == [] then s else Exec(Next(s, es[0]), es[1..])
  }

  lemma {:induction false} ExecConcat(s: State, a: seq<Step>, b: seq<Step>)
    requires Legal(s, a) && Legal(Exec(s, a), b)
    ensures Legal(s, a + b) && Exec(s, a + b) == Exec(Exec(s, a), b)
    decreases |a|
  {
    hide Enabled, Next;
    if a == [] {
      assert a + b == b;
    } else {
      assert (a + b)[1..] == a[1..] + b;
      ExecConcat(Next(s, a[0]), a[1..], b);
    }
  }

  // ---------------------------------------------------------------- no task is stranded

  // Somebody is still going to look at the task set: an armed timer, a queued drain, a drain in
  // progress, which has yet to re-arm, or a poster that owes its wake-up.
  predicate Attended(s: State) {
    s.timer.Some? || s.queue > 0 || s.drains != [] || exists i :: 0 <= i < |s.posters| && s.posters[i].Owes?
  }

  predicate NoneStranded(s: State) { !s.closed && s.pending != [] ==> Attended(s) }

  lemma AttendedWake(s: State, d: nat)
    ensures Attended(Wakeup(s, d))
  {
  }

  lemma AttendedJoin(s: State, i: nat)
    requires Enabled(s, Join(i)) && NoneStranded(s)
    ensures NoneStranded(JoinNext(s, i))
  {
    var t := JoinNext(s, i);
    if IsFirst(s.pending, s.posters[i].deadline) {
      assert t.posters[i].Owes?;
    } else if !s.closed && !(s.timer.Some? || s.queue > 0 || s.drains != []) {
      var k :| 0 <= k < |s.posters| && s.posters[k].Owes?;
      assert t.posters[if k < i then k else k - 1] == s.posters[k];
    }
  }

  lemma AttendedWithout(ts: seq<Task>, id: nat)
    ensures ts == [] ==> Without(ts, id) == []
  {
  }

  lemma StepAttended(s: State, e: Step)
    requires Enabled(s, e) && NoneStranded(s)
    ensures NoneStranded(Next(s, e))
  {
    hide Insert, Without, WithId, JoinNext, DueCount;
    var t := Next(s, e);
    match e
    case Join(i) => AttendedJoin(s, i);
    case Wake(i) => AttendedWake(s.(posters := DropAt(s.posters, i)), s.posters[i].deadline);
    case Rearm(j) =>
      if s.pending != [] {
        AttendedWake(s.(drains := DropAt(s.drains, j)), s.pending[0].deadline);
      }
    case Cancel(id) => AttendedWithout(s.pending, id);
    case Enter(_) =>
      if exists i :: 0 <= i < |s.posters| && s.posters[i].Owes? {
        var i :| 0 <= i < |s.posters| && s.posters[i].Owes?;
        assert t.posters[i].Owes?;
      }
    case _ =>
  }

  lemma {:induction false} RunAttended(s: State, es: seq<Step>)
    requires Legal(s, es) && NoneStranded(s)
    ensures NoneStranded(Exec(s, es))
    decreases |es|
  {
    hide Enabled, Next, NoneStranded;
    if es != [] {
      StepAttended(s, es[0]);
      RunAttended(Next(s, es[0]), es[1..]);
    }
  }

  // Under every interleaving, until DoStop runs, a non-empty task set is attended to.
  lemma NoTaskStranded(es: seq<Step>)
    requires Legal(INITIAL, es)
    ensures NoneStranded(Exec(INITIAL, es))
  {
    hide Enabled, Next;
    RunAttended(INITIAL, es);
  }
}
