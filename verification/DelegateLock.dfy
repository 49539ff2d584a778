/**
 Detaching the delegate of a connection.  Callbacks run on the pump's threads under a mutex, and any
 number of threads may call DisConnect; every access to the flag, the mutex and the delegate is a step.
 */
module DelegateLock {

  // Where a thread is in DisConnect.  It leaves at once if it finds the stop flag set.
  datatype Leaver = Checked | Flagged | Locked | Cleared | Unlocked | Left(foundUnset: bool)

  // Where a thread of the pump is in a handler: without the mutex, with it, in the delegate, or about to
  // unlock.
  datatype Handler = Outside | Entered | Inside | Done

  datatype Mutex = Free | ByHandler(k: nat) | ByLeaver(i: nat)

  datatype State = State(
    attached: bool,            // delegate_ is not null
    stopped: bool,             // stoped_
    mutex: Mutex,
    handlers: seq<Handler>,    // the threads of the pump
    leavers: seq<Leaver>,      // every DisConnect ever called
    callbacks: nat)            // the callbacks begun so far

  const INITIAL := State(true, false, Free, [], [], 0)

  datatype Step =
    | Check                    // DisConnect finds the flag unset
    | Bounce                   // DisConnect finds it set and returns
    | Flag(i: nat)             // DisConnect sets it
    | Lock(i: nat)
    | Clear(i: nat)
    | Unlock(i: nat)
    | Return(i: nat)
    | NewThread                // the pump has one more thread
    | HandlerLock(k: nat)
    | HandlerTest(k: nat)      // and the call, if there is a delegate
    | HandlerBack(k: nat)      // the delegate returns
    | HandlerUnlock(k: nat)

  predicate At(s: State, i: nat, l: Leaver) { i < |s.leavers| && s.leavers[i] == l }

  predicate In(s: State, k: nat, h: Handler) { k < |s.handlers| && s.handlers[k] == h }

  predicate Enabled(s: State, e: Step) {
    match e
    case Check => !s.stopped
    case Bounce => s.stopped
    case Flag(i) => At(s, i, Checked)
    case Lock(i) => At(s, i, Flagged) && s.mutex == Free
    case Clear(i) => At(s, i, Locked)
    case Unlock(i) => At(s, i, Cleared)
    case Return(i) => At(s, i, Unlocked)
    case NewThread => true
    case HandlerLock(k) => In(s, k, Outside) && s.mutex == Free
    case HandlerTest(k) => In(s, k, Entered)
    case HandlerBack(k) => In(s, k, Inside)
    case HandlerUnlock(k) => In(s, k, Done)
  }

  function Next(s: State, e: Step): State
    requires Enabled(s, e)
  {
    match e
    case Check => s.(leavers := s.leavers + [Checked])
    case Bounce => s.(leavers := s.leavers + [Left(false)])
    case Flag(i) => s.(stopped := true, leavers := s.leavers[i := Flagged])
    case Lock(i) => s.(mutex := ByLeaver(i), leavers := s.leavers[i := Locked])
    case Clear(i) => s.(attached := false, leavers := s.leavers[i := Cleared])
    case Unlock(i) => s.(mutex := Free, leavers := s.leavers[i := Unlocked])
    case Return(i) => s.(leavers := s.leavers[i := Left(true)])
    case NewThread => s.(handlers := s.handlers + [Outside])
    case HandlerLock(k) => s.(mutex := ByHandler(k), handlers := s.handlers[k := Entered])
    case HandlerTest(k) =>
      if s.attached then s.(handlers := s.handlers[k := Inside], callbacks := s.callbacks + 1)
      else s.(handlers := s.handlers[k := Done])
    case HandlerBack(k) => s.(handlers := s.handlers[k := Done])
    case HandlerUnlock(k) => s.(mutex := Free, handlers := s.handlers[k := Outside])
  }

  predicate Legal(s: State, es: seq<Step>)
    decreases |es|
  {
    es == [] || (Enabled(s, es[0]) && Legal(Next(s, es[0]), es[1..]))
  }

  function Exec(s: State, es: seq<Step>): State
    requires Legal(s, es)
    decreases |es|
  {
    if es == [] then s else Exec(Next(s, es[0]), es[1..])
  }

  // ---------------------------------------------------------------- mutual exclusion

  predicate Holds(l: Leaver) { l == Locked || l == Cleared }

  predicate HasCleared(l: Leaver) { l == Cleared || l == Unlocked || l == Left(true) }

  predicate Inv(s: State) {
    && (forall k :: 0 <= k < |s.handlers| ==> (s.handlers[k] != Outside <==> s.mutex == ByHandler(k)))
    && (s.mutex.ByHandler? ==> s.mutex.k < |s.handlers|)
    && (forall i :: 0 <= i < |s.leavers| ==> (Holds(s.leavers[i]) <==> s.mutex == ByLeaver(i)))
    && (s.mutex.ByLeaver? ==> s.mutex.i < |s.leavers|)
    && (forall k :: 0 <= k < |s.handlers| && s.handlers[k] == Inside ==> s.attached)
    && (forall i :: 0 <= i < |s.leavers| && HasCleared(s.leavers[i]) ==> !s.attached)
  }

  lemma HandlerInv(s: State, e: Step)
    requires Inv(s) && Enabled(s, e)
    requires e.NewThread? || e.HandlerLock? || e.HandlerTest? || e.HandlerBack? || e.HandlerUnlock?
    ensures Inv(Next(s, e))
  {
  }

  lemma LeaverInv(s: State, e: Step)
    requires Inv(s) && Enabled(s, e)
    requires e.Check? || e.Bounce? || e.Flag? || e.Lock? || e.Clear? || e.Unlock? || e.Return?
    ensures Inv(Next(s, e))
  {
  }

  lemma NextInv(s: State, e: Step)
    requires Inv(s) && Enabled(s, e)
    ensures Inv(Next(s, e))
  {
    hide Inv, Enabled, Next;
    if e.NewThread? || e.HandlerLock? || e.HandlerTest? || e.HandlerBack? || e.HandlerUnlock? {
      HandlerInv(s, e);
    } else {
      LeaverInv(s, e);
    }
  }

  lemma {:induction false} ExecInv(s: State, es: seq<Step>)
    requires Inv(s) && Legal(s, es)
    ensures Inv(Exec(s, es))
    decreases |es|
  {
    hide Inv, Next, Enabled;
    if es != [] {
      NextInv(s, es[0]);
      ExecInv(Next(s, es[0]), es[1..]);
    }
  }

  // ---------------------------------------------------------------- silence

  predicate Calling(s: State) { exists k :: 0 <= k < |s.handlers| && s.handlers[k] == Inside }

  // No callback is running, and none ever starts again.
  ghost predicate Silent(s: State) {
    !Calling(s) && forall es :: Legal(s, es) ==> Exec(s, es).callbacks == s.callbacks
  }

  // The delegate is gone, or a DisConnect has the mutex and is about to clear it.
  predicate Detaching(s: State) { !s.attached || s.mutex.ByLeaver? }

  lemma {:induction false} StaysDetaching(s: State, es: seq<Step>)
    requires Inv(s) && Detaching(s) && Legal(s, es)
    ensures Exec(s, es).callbacks == s.callbacks
    decreases |es|
  {
    if es != [] {
      NextInv(s, es[0]);
      StaysDetaching(Next(s, es[0]), es[1..]);
    }
  }

  lemma OneStep(s: State, e: Step)
    requires Enabled(s, e)
    ensures Legal(s, [e]) && Exec(s, [e]) == Next(s, e)
  {
    hide Enabled, Next;
    var t := Next(s, e);
    assert [e][1..] == [] && Legal(t, []) && Exec(t, []) == t;
  }

  lemma StepThen(s: State, e: Step, es: seq<Step>)
    requires Enabled(s, e) && Legal(Next(s, e), es)
    ensures Legal(s, [e] + es) && Exec(s, [e] + es) == Exec(Next(s, e), es)
  {
    hide Enabled, Next;
    assert ([e] + es)[1..] == es;
  }

  // As long as the delegate is there and the mutex is not a DisConnect's, the next handler calls it.
  lemma FreshCalls(s: State) returns (es: seq<Step>)
    requires Inv(s) && s.attached && s.mutex == Free
    ensures Legal(s, es) && Exec(s, es).callbacks == s.callbacks + 1
  {
    hide Legal, Exec;
    var k := |s.handlers|;
    var t := Next(s, NewThread);
    var u := Next(t, HandlerLock(k));
    OneStep(u, HandlerTest(k));
    StepThen(t, HandlerLock(k), [HandlerTest(k)]);
    StepThen(s, NewThread, [HandlerLock(k)] + [HandlerTest(k)]);
    es := [NewThread] + ([HandlerLock(k)] + [HandlerTest(k)]);
  }

  lemma StillCalls(s: State) returns (es: seq<Step>)
    requires Inv(s) && !Detaching(s) && !Calling(s)
    ensures Legal(s, es) && Exec(s, es).callbacks == s.callbacks + 1
  {
    hide Legal, Exec;
    if s.mutex == Free {
      es := FreshCalls(s);
    } else {
      var k := s.mutex.k;
      if s.handlers[k] == Entered {
        OneStep(s, HandlerTest(k));
        es := [HandlerTest(k)];
      } else {
        var t := Next(s, HandlerUnlock(k));
        NextInv(s, HandlerUnlock(k));
        es := FreshCalls(t);
        StepThen(s, HandlerUnlock(k), es);
        es := [HandlerUnlock(k)] + es;
      }
    }
  }

  // Under every interleaving there is silence if and only if some DisConnect has cleared the
  // delegate, or has the mutex in order to.
  lemma SilentExactly(before: seq<Step>)
    requires Legal(INITIAL, before)
    ensures Silent(Exec(INITIAL, before)) <==> Detaching(Exec(INITIAL, before))
  {
    hide Inv, Enabled, Next;
    InitInv();
    ExecInv(INITIAL, before);
    var s := Exec(INITIAL, before);
    if Detaching(s) {
      DetachingOutside(s);
      forall es | Legal(s, es) ensures Exec(s, es).callbacks == s.callbacks {
        StaysDetaching(s, es);
      }
    } else if !Calling(s) {
      var es := StillCalls(s);
    }
  }

  lemma InitInv()
    ensures Inv(INITIAL)
  {
  }

  lemma DetachingOutside(s: State)
    requires Inv(s) && Detaching(s)
    ensures !Calling(s)
  {
  }

  // A DisConnect that found the flag unset returns into silence, for good.  One that found it set
  // returns into silence if and only if another has cleared the delegate or is about to.
  lemma ReturnedSilence(before: seq<Step>, i: nat)
    requires Legal(INITIAL, before)
    requires var s := Exec(INITIAL, before); i < |s.leavers| && s.leavers[i].Left?
    ensures var s := Exec(INITIAL, before);
            Silent(s) <==> s.leavers[i].foundUnset || Detaching(s)
  {
    hide Enabled, Next, Silent, Legal, Exec;
    InitInv();
    ExecInv(INITIAL, before);
    SilentExactly(before);
    var s := Exec(INITIAL, before);
    assert s.leavers[i].foundUnset ==> HasCleared(s.leavers[i]);
  }

  // The second of two DisConnects returns while the first has yet to clear the delegate, and a
  // callback starts.
  lemma EarlyReturn()
    ensures var es := [NewThread, Check, Flag(0), Bounce, HandlerLock(0), HandlerTest(0)];
            && Legal(INITIAL, es)
            && var s := Exec(INITIAL, es); At(s, 1, Left(false)) && Calling(s) && s.callbacks == 1
  {
    hide Legal, Exec;
    var s0 := Next(INITIAL, NewThread);
    var s1 := Next(s0, Check);
    var s2 := Next(s1, Flag(0));
    var s3 := Next(s2, Bounce);
    var s4 := Next(s3, HandlerLock(0));
    OneStep(s4, HandlerTest(0));
    StepThen(s3, HandlerLock(0), [HandlerTest(0)]);
    StepThen(s2, Bounce, [HandlerLock(0)] + [HandlerTest(0)]);
    StepThen(s1, Flag(0), [Bounce] + ([HandlerLock(0)] + [HandlerTest(0)]));
    StepThen(s0, Check, [Flag(0)] + ([Bounce] + ([HandlerLock(0)] + [HandlerTest(0)])));
    StepThen(INITIAL, NewThread, [Check] + ([Flag(0)] + ([Bounce] + ([HandlerLock(0)] + [HandlerTest(0)]))));
    assert [NewThread] + ([Check] + ([Flag(0)] + ([Bounce] + ([HandlerLock(0)] + [HandlerTest(0)])))) ==
           [NewThread, Check, Flag(0), Bounce, HandlerLock(0), HandlerTest(0)];
    assert Next(s4, HandlerTest(0)).handlers[0] == Inside;
  }
}
