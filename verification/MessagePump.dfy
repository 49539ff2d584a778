/**
 MessagePumpImpl: the task set under its lock, and the wake-ups it asks for.
 */
module MessagePump {
  import opened Basics
  import opened PumpTasks
  import Protocol = PumpProtocol

  // The deadline a post computes, in 64 bits.
  function Deadline(now: nat, delay: nat): nat { (now + delay) % TWO64 }

  // The earliest deadline of the set.
  predicate IsEarliest(d: nat, ts: seq<Task>) {
    (exists i :: 0 <= i < |ts| && ts[i].deadline == d) && forall i :: 0 <= i < |ts| ==> d <= ts[i].deadline
  }

  // The pump has been woken once more, for the earliest task left, if any.
  predicate Rearmed(before: seq<nat>, after: seq<nat>, ts: seq<Task>) {
    if ts == [] then after == before
    else |after| == |before| + 1 && after[..|before|] == before && IsEarliest(after[|before|], ts)
  }

  lemma FirstIsEarliest(ts: seq<Task>)
    requires Ordered(ts) && ts != []
    ensures IsEarliest(ts[0].deadline, ts)
  {
    assert ts[0].deadline == ts[0].deadline;
  }

  // A thread of the protocol is about to insert a task with that deadline.
  predicate Posting(s: Protocol.State, i: nat, ts: seq<Task>, lastId: nat, deadline: nat) {
    s.pending == ts && s.lastId == lastId && i < |s.posters| && s.posters[i] == Protocol.Entered(deadline)
  }

  predicate Draining(s: Protocol.State, j: nat, d: Protocol.Drain) { j < |s.drains| && s.drains[j] == d }

  // Taking the due tasks is the Take of the protocol.
  ghost predicate IsTake(ts: seq<Task>, now: nat, batch: seq<Task>, left: seq<Task>) {
    forall s: Protocol.State, j: nat :: s.pending == ts && Draining(s, j, Protocol.Starting(now)) ==>
      Protocol.Next(s, Protocol.Take(j)) == s.(pending := left, drains := s.drains[j := Protocol.Running(now, batch)])
  }

  lemma DueIsTake(ts: seq<Task>, now: nat)
    ensures IsTake(ts, now, Due(ts, now), Later(ts, now))
  {
  }

  lemma {:induction false} FoundById(ts: seq<Task>, id: nat)
    ensures Protocol.WithId(ts, id) != [] <==> HasId(ts, id)
    decreases |ts|
  {
    if ts != [] {
      FoundById(ts[1..], id);
      if HasId(ts, id) && ts[0].id != id {
        var i :| 0 <= i < |ts| && ts[i].id == id;
        assert ts[1..][i - 1].id == id;
      }
    }
  }

  class Pump {
    // runable_set_, in order.
    var tasks: seq<Task>
    var lastId: nat
    var stopped: bool
    // The deadlines Wakeup has been called with.
    var wakeups: seq<nat>

    ghost predicate Valid()
      reads this
    {
      Ordered(tasks) && Distinct(tasks) && Below(tasks, lastId + 1)
    }

    constructor ()
      ensures Valid() && tasks == [] && lastId == 0 && !stopped && wakeups == []
    {
      tasks, lastId, stopped, wakeups := [], 0, false, [];
    }

    method Wakeup(deadline: nat)
      modifies this`wakeups
      ensures wakeups == old(wakeups) + [deadline]
    {
      wakeups := wakeups + [deadline];
    }

    // A post is refused after the pump has been stopped.  Otherwise it gets an id no task had before,
    // the task joins the set, and the pump is woken exactly if the task has become the earliest.
    method PostRunable(delay: nat, now: nat) returns (id: nat)
      requires Valid()
      modifies this`tasks, this`lastId, this`wakeups
      ensures Valid()
      ensures stopped ==> id == 0 && tasks == old(tasks) && lastId == old(lastId) && wakeups == old(wakeups)
      ensures !stopped ==>
                && id == lastId == old(lastId) + 1 && !HasId(old(tasks), id)
                && tasks == Insert(old(tasks), Task(Deadline(now, delay), id))
                && multiset(tasks) == multiset(old(tasks)) + multiset{Task(Deadline(now, delay), id)}
                && wakeups == old(wakeups) +
                   (if tasks[0].id == id then [Deadline(now, delay)] else [])
      // It is the Join of the protocol.
      ensures !stopped ==>
                forall s, i: nat :: Posting(s, i, old(tasks), old(lastId), Deadline(now, delay)) ==>
                var t, d := Protocol.Next(s, Protocol.Join(i)), Deadline(now, delay);
                && t.pending == tasks && t.lastId == lastId
                && t.posters ==
                   if tasks[0].id == id then s.posters[i := Protocol.Owes(d)] else Protocol.DropAt(s.posters, i)
    {
      if stopped {
        return 0;
      }
      var deadline := Deadline(now, delay);
      lastId := lastId + 1;
      id := lastId;
      var wake := tasks == [] || deadline < tasks[0].deadline;
      InsertOrdered(tasks, Task(deadline, id));
      InsertHolds(tasks, Task(deadline, id));
      InsertDistinct(tasks, Task(deadline, id));
      tasks := Insert(tasks, Task(deadline, id));
      if wake {
        Wakeup(deadline);
      }
    }

    // Removes the task of that id and says whether there was one.
    method Cancel(id: nat) returns (found: bool)
      requires Valid()
      modifies this`tasks
      ensures Valid() && (found <==> HasId(old(tasks), id)) && !HasId(tasks, id)
      ensures tasks == Without(old(tasks), id)
      // It is the Cancel of the protocol.
      ensures forall s: Protocol.State :: s.pending == old(tasks) ==>
                var t := Protocol.Next(s, Protocol.Cancel(id));
                t.pending == tasks && (found <==> t.cancelled != s.cancelled)
    {
      FoundById(tasks, id);
      var i := 0;
      while i < |tasks|
        invariant i <= |tasks| && tasks == old(tasks) && forall j :: 0 <= j < i ==> tasks[j].id != id
      {
        if tasks[i].id == id {
          WithoutAt(tasks, id, i);
          tasks := tasks[..i] + tasks[i + 1..];
          return true;
        }
        i := i + 1;
      }
      WithoutNone(tasks, id);
      found := false;
    }

    // Takes the earliest task if it is due, and asks to be woken for the next one before the task
    // is run.
    method DoOneWork(now: nat) returns (taken: seq<Task>)
      requires Valid()
      modifies this`tasks, this`wakeups
      ensures Valid() && (taken, tasks) == TakeOne(old(tasks), now)
      ensures Rearmed(old(wakeups), wakeups, tasks)
    {
      taken := [];
      if tasks != [] && tasks[0].deadline <= now {
        taken := tasks[..1];
        tasks := tasks[1..];
      }
      if tasks != [] {
        FirstIsEarliest(tasks);
        Wakeup(tasks[0].deadline);
      }
    }

    // The first half of DoWork: takes every task that is due, in the order of the set, and no other.
    method TakeDue(now: nat) returns (batch: seq<Task>)
      requires Valid()
      modifies this`tasks
      ensures Valid() && batch == Due(old(tasks), now) && tasks == Later(old(tasks), now)
      ensures old(tasks) == batch + tasks
      ensures forall i :: 0 <= i < |batch| ==> batch[i].deadline <= now
      ensures forall i :: 0 <= i < |tasks| ==> tasks[i].deadline > now
      ensures IsTake(old(tasks), now, batch, tasks)
    {
      hide IsTake;
      DueIsTake(tasks, now);
      DueExact(tasks, now);
      batch := [];
      ghost var all := tasks;
      while tasks != []
        invariant |batch| <= DueCount(all, now) && all == old(tasks)
        invariant batch == all[..|batch|] && tasks == all[|batch|..]
        decreases |tasks|
      {
        assert tasks[0] == all[|batch|];
        if tasks[0].deadline > now {
          break;
        }
        assert all[..|batch| + 1] == batch + [tasks[0]];
        batch := batch + [tasks[0]];
        tasks := tasks[1..];
      }
    }

    // The second half of DoWork, once the batch has been run.
    method Rearm()
      requires Valid()
      modifies this`wakeups
      ensures Rearmed(old(wakeups), wakeups, tasks)
      // It is the Rearm of the protocol.
      ensures forall s: Protocol.State, j: nat :: s.pending == tasks && Protocol.Enabled(s, Protocol.Rearm(j)) ==>
                var t := s.(drains := Protocol.DropAt(s.drains, j));
                Protocol.Next(s, Protocol.Rearm(j)) ==
                if tasks == [] then t else Protocol.Wakeup(t, wakeups[|wakeups| - 1])
    {
      if tasks != [] {
        FirstIsEarliest(tasks);
        Wakeup(tasks[0].deadline);
      }
    }
  }
}
