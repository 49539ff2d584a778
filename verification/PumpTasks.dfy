/**
 The ordered set of delayed tasks: deadline first, then the order of posting.
 */
module PumpTasks {

  // RunnableInfo without the closure, which the id stands for.
  datatype Task = Task(deadline: nat, id: nat)

  // RunnableInfo::operator<.
  predicate Less(a: Task, b: Task) {
    if a.deadline == b.deadline then a.id < b.id else a.deadline < b.deadline
  }

  // The iteration order of a std::set<RunnableInfo>.
  predicate Ordered(ts: seq<Task>) {
    forall i, j :: 0 <= i < j < |ts| ==> Less(ts[i], ts[j])
  }

  predicate Below(ts: seq<Task>, id: nat) {
    forall i :: 0 <= i < |ts| ==> ts[i].id < id
  }

  // std::set::insert of a task that is not in the set.
  function Insert(ts: seq<Task>, t: Task): (r: seq<Task>)
    decreases |ts|
  {
    if ts == [] || Less(t, ts[0]) then [t] + ts else [ts[0]] + Insert(ts[1..], t)
  }

  lemma {:induction false} InsertHolds(ts: seq<Task>, t: Task)
    ensures multiset(Insert(ts, t)) == multiset(ts) + multiset{t}
    decreases |ts|
  {
    if ts == [] || Less(t, ts[0]) {
      assert multiset([t] + ts) == multiset{t} + multiset(ts);
    } else {
      InsertHolds(ts[1..], t);
      assert ts == [ts[0]] + ts[1..];
      assert multiset([ts[0]] + Insert(ts[1..], t)) == multiset{ts[0]} + multiset(Insert(ts[1..], t));
    }
  }

  lemma InsertMember(ts: seq<Task>, t: Task, x: Task)
    ensures x in Insert(ts, t) <==> x in ts || x == t
  {
    InsertHolds(ts, t);
    assert x in Insert(ts, t) <==> x in multiset(Insert(ts, t));
    assert x in ts <==> x in multiset(ts);
  }

  // The set stays ordered, and the new task comes first exactly if it is the earliest.
  lemma {:induction false} InsertOrdered(ts: seq<Task>, t: Task)
    requires Ordered(ts) && Below(ts, t.id)
    ensures Ordered(Insert(ts, t)) && Below(Insert(ts, t), t.id + 1)
    ensures Insert(ts, t)[0] == if ts == [] || t.deadline < ts[0].deadline then t else ts[0]
    decreases |ts|
  {
    if ts == [] || Less(t, ts[0]) {
      assert ts != [] ==> ts[0].id < t.id;
    } else {
      var rest := Insert(ts[1..], t);
      InsertOrdered(ts[1..], t);
      forall i | 0 <= i < |rest| ensures Less(ts[0], rest[i]) {
        InsertMember(ts[1..], t, rest[i]);
        assert rest[i] in rest;
        if rest[i] == t {
          assert ts[0].id < t.id;
        } else {
          var j :| 0 <= j < |ts[1..]| && ts[1..][j] == rest[i];
          assert ts[j + 1] == rest[i];
        }
      }
    }
  }

  // How many tasks are due at `now`: those at the front.
  function DueCount(ts: seq<Task>, now: nat): (n: nat)
    ensures n <= |ts|
    decreases |ts|
  {
    if ts == [] || ts[0].deadline > now then 0 else 1 + DueCount(ts[1..], now)
  }

  function Due(ts: seq<Task>, now: nat): seq<Task> { ts[..DueCount(ts, now)] }

  function Later(ts: seq<Task>, now: nat): seq<Task> { ts[DueCount(ts, now)..] }

  // They are exactly the tasks whose deadline has come.
  lemma {:induction false} DueExact(ts: seq<Task>, now: nat)
    requires Ordered(ts)
    ensures forall i :: 0 <= i < |ts| ==> (i < DueCount(ts, now) <==> ts[i].deadline <= now)
    decreases |ts|
  {
    if ts != [] && ts[0].deadline <= now {
      DueExact(ts[1..], now);
      forall i | 0 < i < |ts| ensures i < DueCount(ts, now) <==> ts[i].deadline <= now {
        assert ts[1..][i - 1] == ts[i];
      }
    } else if ts != [] {
      forall i | 0 < i < |ts| ensures ts[i].deadline > now {
        assert Less(ts[0], ts[i]);
      }
    }
  }

  // Taking tasks one at a time.
  function TakeOne(ts: seq<Task>, now: nat): (r: (seq<Task>, seq<Task>)) {
    if ts != [] && ts[0].deadline <= now then (ts[..1], ts[1..]) else ([], ts)
  }

  function TakeTimes(ts: seq<Task>, now: nat, n: nat): (seq<Task>, seq<Task>)
    decreases n
  {
    if n == 0 then ([], ts)
    else
      var (taken, left) := TakeTimes(ts, now, n - 1);
      var (one, rest) := TakeOne(left, now);
      (taken + one, rest)
  }

  // n drains of one task at a fixed time take the first n due tasks, in order; so once n reaches
  // the number of due tasks they have taken what one full drain takes, and nothing more.
  lemma {:induction false} OneByOne(ts: seq<Task>, now: nat, n: nat)
    requires Ordered(ts)
    ensures var k := if n < DueCount(ts, now) then n else DueCount(ts, now);
            TakeTimes(ts, now, n) == (ts[..k], ts[k..])
    decreases n
  {
    DueExact(ts, now);
    if n > 0 {
      OneByOne(ts, now, n - 1);
      var k := if n - 1 < DueCount(ts, now) then n - 1 else DueCount(ts, now);
      if k < |ts| {
        assert ts[k..][0] == ts[k];
      }
      if n - 1 < DueCount(ts, now) {
        assert ts[..k] + ts[k..][..1] == ts[..k + 1];
      } else {
        assert ts[..k] + [] == ts[..k];
      }
    }
  }

  // The set without the task of one id.
  function Without(ts: seq<Task>, id: nat): seq<Task>
    decreases |ts|
  {
    if ts == [] then [] else if ts[0].id == id then ts[1..] else [ts[0]] + Without(ts[1..], id)
  }

  predicate HasId(ts: seq<Task>, id: nat) { exists i :: 0 <= i < |ts| && ts[i].id == id }

  // Erasing at position k, if k is the first place of the id.
  lemma {:induction false} WithoutAt(ts: seq<Task>, id: nat, k: nat)
    requires k < |ts| && ts[k].id == id && forall i :: 0 <= i < k ==> ts[i].id != id
    ensures Without(ts, id) == ts[..k] + ts[k + 1..]
    decreases k
  {
    if k > 0 {
      WithoutAt(ts[1..], id, k - 1);
      assert ts[1..][..k - 1] == ts[1..k] && ts[1..][k..] == ts[k + 1..];
      assert ts[..k] == [ts[0]] + ts[1..k];
    } else {
      assert ts[..0] == [];
    }
  }

  lemma {:induction false} WithoutNone(ts: seq<Task>, id: nat)
    requires !HasId(ts, id)
    ensures Without(ts, id) == ts
    decreases |ts|
  {
    if ts != [] {
      assert ts[0].id != id;
      assert forall i :: 0 <= i < |ts[1..]| ==> ts[1..][i] == ts[i + 1];
      WithoutNone(ts[1..], id);
    }
  }

  // No id is used twice.
  predicate Distinct(ts: seq<Task>) {
    forall i, j :: 0 <= i < j < |ts| ==> ts[i].id != ts[j].id
  }

  lemma {:induction false} InsertDistinct(ts: seq<Task>, t: Task)
    requires Distinct(ts) && Below(ts, t.id)
    ensures Distinct(Insert(ts, t))
    decreases |ts|
  {
    if !(ts == [] || Less(t, ts[0])) {
      var rest := Insert(ts[1..], t);
      InsertDistinct(ts[1..], t);
      forall i | 0 <= i < |rest| ensures rest[i].id != ts[0].id {
        InsertMember(ts[1..], t, rest[i]);
        assert rest[i] in rest;
      }
    }
  }
}
