/**
 The timer: when it is on time, when it is late, and that a pending task can always still be taken.
 */
module PumpTimer {
  import opened Basics
  import opened PumpTasks
  import opened PumpProtocol
  import opened PumpConservation

  // Nobody but the timer is going to look at the task set.
  predicate OnlyTimer(s: State) {
    !s.closed && s.queue == 0 && s.drains == [] && forall i :: 0 <= i < |s.posters| ==> s.posters[i].Entered?
  }

  // The timer goes off no later than the first task is due.
  predicate Punctual(s: State) {
    OnlyTimer(s) && s.pending != [] ==> s.timer.Some? && s.timer.value <= s.pending[0].deadline
  }

  // ---------------------------------------------------------------- one poster at a time

  // A run in which no two posts overlap.
  predicate OnePoster(s: State, es: seq<Step>)
    requires Legal(s, es)
    decreases |es|
  {
    |s.posters| <= 1 && (es != [] ==> OnePoster(Next(s, es[0]), es[1..]))
  }

  // An owed wake-up is for the first task, or an earlier one that is gone.
  predicate OwesFirst(s: State) {
    forall i :: 0 <= i < |s.posters| && s.posters[i].Owes? && s.pending != [] ==>
      s.posters[i].deadline <= s.pending[0].deadline
  }

  lemma FirstLater(ts: seq<Task>, id: nat)
    requires Ordered(ts) && Without(ts, id) != []
    ensures ts != [] && ts[0].deadline <= Without(ts, id)[0].deadline
  {
    WithoutOrdered(ts, id);
    assert Without(ts, id)[0] in ts;
    var k :| 0 <= k < |ts| && ts[k] == Without(ts, id)[0];
    assert k > 0 ==> Less(ts[0], ts[k]);
  }

  lemma FirstLeft(ts: seq<Task>, now: nat)
    requires Ordered(ts) && Later(ts, now) != []
    ensures ts[0].deadline <= Later(ts, now)[0].deadline
  {
    var n := DueCount(ts, now);
    assert n > 0 ==> Less(ts[0], ts[n]);
  }

  lemma JoinPunctual(s: State, i: nat)
    requires Enabled(s, Join(i)) && OnTime(s) && Punctual(s)
    ensures Punctual(JoinNext(s, i))
  {
    hide Insert, Ordered, Below;
    var d := s.posters[i].deadline;
    InsertOrdered(s.pending, Task(d, s.lastId + 1));
    var t := JoinNext(s, i);
    if IsFirst(s.pending, d) {
      assert !t.posters[i].Entered?;
    } else if OnlyTimer(t) {
      assert forall k :: 0 <= k < |s.posters| ==> k == i || t.posters[if k < i then k else k - 1] == s.posters[k];
    }
  }

  lemma JoinOwesFirst(s: State, i: nat)
    requires Enabled(s, Join(i)) && |s.posters| <= 1 && OnTime(s)
    ensures OwesFirst(JoinNext(s, i))
  {
    hide Insert, Ordered, Below;
    var d := s.posters[i].deadline;
    InsertOrdered(s.pending, Task(d, s.lastId + 1));
    var t := JoinNext(s, i);
    if IsFirst(s.pending, d) {
      assert t.posters == [Owes(d)];
    } else {
      assert t.posters == [];
    }
  }

  lemma RearmPunctual(s: State, j: nat)
    requires Enabled(s, Rearm(j))
    ensures Punctual(RearmNext(s, j))
  {
  }

  // A wake-up that sets the timer for later than the first task is due, when nobody else is going to look.
  predicate StaleWake(s: State, e: Step) {
    && e.Wake? && Enabled(s, e) && s.pending != []
    && s.posters[e.i].deadline > s.clock && s.posters[e.i].deadline > s.pending[0].deadline
    && OnlyTimer(s.(posters := DropAt(s.posters, e.i)))
  }

  // A punctual pump becomes late exactly by such a wake-up.
  lemma StepPunctual(s: State, e: Step)
    requires Enabled(s, e) && OnTime(s) && Punctual(s)
    ensures Punctual(Next(s, e)) <==> !StaleWake(s, e)
  {
    hide DueCount, Insert, Without, WithId, Ordered, Below, JoinNext, RearmNext;
    var t := Next(s, e);
    match e
    case Rearm(j) => RearmPunctual(s, j);
    case Join(i) => JoinPunctual(s, i);
    case Take(j) =>
    case Cancel(id) =>
      if t.pending != [] {
        FirstLater(s.pending, id);
      }
    case Enter(_) => assert forall i :: 0 <= i < |s.posters| ==> t.posters[i] == s.posters[i];
    case _ =>
  }

  predicate AlwaysPunctual(s: State, es: seq<Step>)
    requires Legal(s, es)
    decreases |es|
  {
    Punctual(s) && (es != [] ==> AlwaysPunctual(Next(s, es[0]), es[1..]))
  }

  predicate NeverStale(s: State, es: seq<Step>)
    requires Legal(s, es)
    decreases |es|
  {
    es != [] ==> !StaleWake(s, es[0]) && NeverStale(Next(s, es[0]), es[1..])
  }

  lemma {:induction false} PunctualRuns(s: State, es: seq<Step>)
    requires Legal(s, es) && OnTime(s) && Punctual(s)
    ensures AlwaysPunctual(s, es) <==> NeverStale(s, es)
    decreases |es|
  {
    hide Enabled, Next, OnTime, Punctual, StaleWake;
    if es != [] {
      StepOnTime(s, es[0]);
      StepPunctual(s, es[0]);
      if Punctual(Next(s, es[0])) {
        PunctualRuns(Next(s, es[0]), es[1..]);
      } else {
        LateAtOnce(Next(s, es[0]), es[1..]);
      }
    }
  }

  lemma LateAtOnce(s: State, es: seq<Step>)
    requires Legal(s, es) && !Punctual(s)
    ensures !AlwaysPunctual(s, es)
  {
  }

  // The timer is on time throughout a run if and only if no wake-up of the run is stale.
  lemma TimerOnTime(es: seq<Step>)
    requires Legal(INITIAL, es)
    ensures AlwaysPunctual(INITIAL, es) <==> NeverStale(INITIAL, es)
  {
    hide Enabled, Next, Legal, AlwaysPunctual, NeverStale;
    PunctualRuns(INITIAL, es);
  }

  // If posts do not overlap, none is.
  lemma StepOwesFirst(s: State, e: Step)
    requires Enabled(s, e) && |s.posters| <= 1 && OnTime(s) && OwesFirst(s)
    ensures OwesFirst(Next(s, e)) && !StaleWake(s, e)
  {
    hide DueCount, Insert, Without, WithId, Ordered, Below, JoinNext;
    var t := Next(s, e);
    match e
    case Join(i) => JoinOwesFirst(s, i);
    case Take(j) =>
      if t.pending != [] {
        FirstLeft(s.pending, s.drains[j].at);
      }
    case Cancel(id) =>
      if t.pending != [] {
        FirstLater(s.pending, id);
      }
    case _ =>
  }

  lemma {:induction false} OnePosterNeverStale(s: State, es: seq<Step>)
    requires Legal(s, es) && OnePoster(s, es) && OnTime(s) && OwesFirst(s)
    ensures NeverStale(s, es)
    decreases |es|
  {
    hide Enabled, Next, OnTime, OwesFirst, StaleWake;
    if es != [] {
      StepOnTime(s, es[0]);
      StepOwesFirst(s, es[0]);
      OnePosterNeverStale(Next(s, es[0]), es[1..]);
    }
  }

  // So if no two posts overlap the timer is never late.
  lemma OnePosterOnTime(es: seq<Step>)
    requires Legal(INITIAL, es) && OnePoster(INITIAL, es)
    ensures AlwaysPunctual(INITIAL, es)
  {
    hide Enabled, Next, Legal, AlwaysPunctual, NeverStale, OnePoster;
    OnePosterNeverStale(INITIAL, es);
    TimerOnTime(es);
  }

  // If two posts overlap it can be: the wake-up for the later deadline comes second and replaces the
  // timer that was set for the earlier one.
  lemma TimerCanBeLate()
    ensures var es := [Enter(10), Enter(5), Join(0), Join(1), Wake(1), Wake(0)];
            Legal(INITIAL, es) && !Punctual(Exec(INITIAL, es))
  {
    var s0 := INITIAL.(posters := [Entered(10)]);
    var s1 := INITIAL.(posters := [Entered(10), Entered(5)]);
    var ts := [Task(10, 1), Task(5, 2)];
    var s3 := INITIAL.(posters := [Owes(10), Owes(5)], pending := [ts[1], ts[0]], lastId := 2, accepted := ts);
    assert Next(INITIAL, Enter(10)) == s0 && Next(s0, Enter(5)) == s1;
    LateJoins(s1);
    LateWakes(s3);
    LegalSix(INITIAL, Enter(10), Enter(5), Join(0), Join(1), Wake(1), Wake(0));
  }

  lemma LateJoins(s: State)
    requires s == INITIAL.(posters := [Entered(10), Entered(5)])
    ensures Enabled(s, Join(0)) && Enabled(Next(s, Join(0)), Join(1))
    ensures Next(Next(s, Join(0)), Join(1)) ==
            INITIAL.(posters := [Owes(10), Owes(5)], pending := [Task(5, 2), Task(10, 1)], lastId := 2,
                     accepted := [Task(10, 1), Task(5, 2)])
  {
    var t := Next(s, Join(0));
    assert t.posters == [Owes(10), Entered(5)] && t.pending == [Task(10, 1)] && t.accepted == [Task(10, 1)];
    assert Insert([Task(10, 1)], Task(5, 2)) == [Task(5, 2), Task(10, 1)];
    assert Next(t, Join(1)).posters == [Owes(10), Owes(5)];
  }

  lemma LateWakes(s: State)
    requires s.posters == [Owes(10), Owes(5)] && s.clock == 0
    ensures Enabled(s, Wake(1)) && Enabled(Next(s, Wake(1)), Wake(0))
    ensures Next(Next(s, Wake(1)), Wake(0)) == s.(posters := [], timer := Some(10))
  {
    var t := Next(s, Wake(1));
    assert t == s.(posters := [Owes(10)], timer := Some(5));
    assert Next(t, Wake(0)).posters == [];
  }

  lemma LegalSix(s: State, a: Step, b: Step, c: Step, d: Step, e: Step, f: Step)
    requires Enabled(s, a) && Enabled(Next(s, a), b) && Enabled(Next(Next(s, a), b), c)
    requires Enabled(Next(Next(Next(s, a), b), c), d) && Enabled(Next(Next(Next(Next(s, a), b), c), d), e)
    requires Enabled(Next(Next(Next(Next(Next(s, a), b), c), d), e), f)
    ensures Legal(s, [a, b, c, d, e, f])
    ensures Exec(s, [a, b, c, d, e, f]) == Next(Next(Next(Next(Next(Next(s, a), b), c), d), e), f)
  {
    hide Enabled, Next;
    var s1 := Next(s, a);
    var s2 := Next(s1, b);
    var s3 := Next(s2, c);
    var s4 := Next(s3, d);
    var s5 := Next(s4, e);
    assert [f][1..] == [] && Legal(s5, [f]) && Exec(s5, [f]) == Next(s5, f);
    assert [e, f][1..] == [f] && Legal(s4, [e, f]) && Exec(s4, [e, f]) == Next(s5, f);
    assert [d, e, f][1..] == [e, f] && Legal(s3, [d, e, f]) && Exec(s3, [d, e, f]) == Next(s5, f);
    assert [c, d, e, f][1..] == [d, e, f] && Legal(s2, [c, d, e, f]) && Exec(s2, [c, d, e, f]) == Next(s5, f);
    assert [b, c, d, e, f][1..] == [c, d, e, f] && Legal(s1, [b, c, d, e, f]);
    assert Exec(s1, [b, c, d, e, f]) == Next(s5, f);
    assert [a, b, c, d, e, f][1..] == [b, c, d, e, f];
  }

  // ---------------------------------------------------------------- every task can still be taken

  // The steps the pump makes by itself, given time.
  predicate Internal(es: seq<Step>) {
    forall i :: 0 <= i < |es| ==>
      es[i].Tick? || es[i].Wake? || es[i].Fire? || es[i].Start? || es[i].Take? || es[i].RunOne? || es[i].Rearm?
  }

  // Internal steps es take s to t.
  predicate Leads(s: State, es: seq<Step>, t: State) {
    Internal(es) && Legal(s, es) && Exec(s, es) == t
  }

  lemma LeadsOne(s: State, e: Step)
    requires Enabled(s, e) && Internal([e])
    ensures Leads(s, [e], Next(s, e))
  {
    hide Enabled, Next;
    var n := Next(s, e);
    assert [e][1..] == [];
    assert Legal(n, []) && Exec(n, []) == n;
    assert Legal(s, [e]);
  }

  lemma LeadsOn(s: State, a: seq<Step>, t: State, b: seq<Step>, u: State)
    requires Leads(s, a, t) && Leads(t, b, u)
    ensures Leads(s, a + b, u)
  {
    hide Enabled, Next;
    ExecConcat(s, a, b);
  }

  // Every pending deadline has come.
  predicate AllDue(s: State) { forall i :: 0 <= i < |s.pending| ==> s.pending[i].deadline <= s.clock }

  lemma {:induction false} EverythingDue(ts: seq<Task>, now: nat)
    requires forall i :: 0 <= i < |ts| ==> ts[i].deadline <= now
    ensures DueCount(ts, now) == |ts|
    decreases |ts|
  {
    if ts != [] {
      EverythingDue(ts[1..], now);
    }
  }

  // A queued drain empties the set.
  lemma FromQueue(s: State) returns (es: seq<Step>, t: State)
    requires s.queue > 0 && AllDue(s)
    ensures Leads(s, es, t) && t.pending == []
  {
    hide Leads;
    LeadsOne(s, Start);
    var u := Next(s, Start);
    var j := |s.drains|;
    LeadsOne(u, Take(j));
    EverythingDue(s.pending, s.clock);
    t := Next(u, Take(j));
    LeadsOn(s, [Start], u, [Take(j)], t);
    es := [Start] + [Take(j)];
  }

  // A drain in progress runs what it has and queues another.
  lemma {:induction false} FromRunning(s: State, j: nat) returns (es: seq<Step>, t: State)
    requires j < |s.drains| && s.drains[j].Running? && AllDue(s) && s.pending != []
    ensures Leads(s, es, t) && t.pending == []
    decreases |BatchOf(s.drains[j])|
  {
    hide Leads;
    if s.drains[j].batch == [] {
      LeadsOne(s, Rearm(j));
      var u := Next(s, Rearm(j));
      var fs;
      fs, t := FromQueue(u);
      LeadsOn(s, [Rearm(j)], u, fs, t);
      es := [Rearm(j)] + fs;
    } else {
      LeadsOne(s, RunOne(j));
      var u := Next(s, RunOne(j));
      var fs;
      fs, t := FromRunning(u, j);
      LeadsOn(s, [RunOne(j)], u, fs, t);
      es := [RunOne(j)] + fs;
    }
  }

  lemma FromDrain(s: State, j: nat) returns (es: seq<Step>, t: State)
    requires j < |s.drains| && AllDue(s) && s.pending != []
    ensures Leads(s, es, t) && t.pending == []
  {
    hide Leads;
    if s.drains[j].Running? {
      es, t := FromRunning(s, j);
    } else {
      LeadsOne(s, Take(j));
      var u := Next(s, Take(j));
      if u.pending == [] {
        es, t := [Take(j)], u;
      } else {
        var fs;
        fs, t := FromRunning(u, j);
        LeadsOn(s, [Take(j)], u, fs, t);
        es := [Take(j)] + fs;
      }
    }
  }

  // An armed timer goes off in time.
  lemma FromTimer(s: State) returns (es: seq<Step>, t: State)
    requires s.timer.Some? && AllDue(s)
    ensures Leads(s, es, t) && t.pending == []
  {
    hide Leads;
    LeadsOne(s, Tick(s.timer.value));
    var u := Next(s, Tick(s.timer.value));
    LeadsOne(u, Fire);
    var v := Next(u, Fire);
    var fs;
    fs, t := FromQueue(v);
    LeadsOn(u, [Fire], v, fs, t);
    LeadsOn(s, [Tick(s.timer.value)], u, [Fire] + fs, t);
    es := [Tick(s.timer.value)] + ([Fire] + fs);
  }

  lemma FromPoster(s: State, i: nat) returns (es: seq<Step>, t: State)
    requires i < |s.posters| && s.posters[i].Owes? && AllDue(s)
    ensures Leads(s, es, t) && t.pending == []
  {
    hide Leads;
    LeadsOne(s, Wake(i));
    var u := Next(s, Wake(i));
    var fs;
    if u.queue > 0 {
      fs, t := FromQueue(u);
    } else {
      fs, t := FromTimer(u);
    }
    LeadsOn(s, [Wake(i)], u, fs, t);
    es := [Wake(i)] + fs;
  }

  function Latest(ts: seq<Task>): (d: nat)
    ensures forall i :: 0 <= i < |ts| ==> ts[i].deadline <= d
    decreases |ts|
  {
    if ts == [] then 0
    else var d := Latest(ts[1..]); if d < ts[0].deadline then ts[0].deadline else d
  }

  // From every reachable state, as long as DoStop has not run, time and the pump's own steps are
  // enough to take every pending task: nothing has to be posted or cancelled for it.
  lemma CanBeEmptied(before: seq<Step>) returns (es: seq<Step>, t: State)
    requires Legal(INITIAL, before) && !Exec(INITIAL, before).closed
    ensures Leads(Exec(INITIAL, before), es, t) && t.pending == []
  {
    hide Leads, Exec;
    var s := Exec(INITIAL, before);
    var n := Latest(s.pending);
    var u := Next(s, Tick(n));
    LeadsOne(s, Tick(n));
    if s.pending == [] {
      es, t := [Tick(n)], u;
    } else {
      assert Legal(INITIAL, before + [Tick(n)]) && u == Exec(INITIAL, before + [Tick(n)]) by {
        OneMore(INITIAL, before, Tick(n));
      }
      NoTaskStranded(before + [Tick(n)]);
      var fs;
      if u.timer.Some? {
        fs, t := FromTimer(u);
      } else if u.queue > 0 {
        fs, t := FromQueue(u);
      } else if u.drains != [] {
        fs, t := FromDrain(u, 0);
      } else {
        var i :| 0 <= i < |u.posters| && u.posters[i].Owes?;
        fs, t := FromPoster(u, i);
      }
      LeadsOn(s, [Tick(n)], u, fs, t);
      es := [Tick(n)] + fs;
    }
  }

  lemma OneMore(s: State, es: seq<Step>, e: Step)
    requires Legal(s, es) && Enabled(Exec(s, es), e)
    ensures Legal(s, es + [e]) && Exec(s, es + [e]) == Next(Exec(s, es), e)
  {
    hide Enabled, Next;
    var u := Exec(s, es);
    assert [e][1..] == [] && Legal(u, [e]);
    ExecConcat(s, es, [e]);
  }
}
