/**
 The re-entrant freeze lock: a mutex plus an owner word, taken by any number of
 threads, nested to any depth, one atomic operation at a time.
 */
module FreezeLock {

  type Tid = nat

  /** What a thread does next inside a lock or unlock call. */
  datatype Pc =
    | Outside
    | Acquire(blocking: bool)   // it does not own the lock; take the mutex
    | Publish                   // it has the mutex; store its id as owner
    | Release                   // the owner word is cleared; release the mutex

  /** `guards` are the thread's live guards, outermost first; `true` holds the mutex. */
  datatype Thread = Thread(pc: Pc, guards: seq<bool>)

  /** `owner` is FREEZE_OWNER, 0 for nobody; thread ids are positive. */
  datatype State = State(mutex: Tid, owner: Tid, threads: map<Tid, Thread>, suspended: set<Tid>)

  datatype Event =
    | Enter(t: Tid, blocking: bool)   // hold_freeze_lock / try_hold_freeze_lock: load the owner word
    | Take(t: Tid)                    // lock or try_lock the mutex
    | Fail(t: Tid)                    // try_lock: the mutex is taken
    | Own(t: Tid)                     // store the owner word
    | Drop(t: Tid)                    // drop the innermost guard
    | Unlock(t: Tid)                  // release the mutex
    | Suspend(t: Tid, victim: Tid)    // a freeze pass suspends another thread
    | ResumeAll(t: Tid)               // and resumes them before its guard goes

  predicate Enabled(s: State, e: Event) {
    && e.t in s.threads && e.t !in s.suspended
    && match e
       case Enter(t, _) => s.threads[t].pc.Outside?
       case Take(t) => s.threads[t].pc.Acquire? && s.mutex == 0
       case Fail(t) => s.threads[t].pc.Acquire? && !s.threads[t].pc.blocking && s.mutex != 0
       case Own(t) => s.threads[t].pc.Publish?
       case Drop(t) =>
         s.threads[t].pc.Outside? && s.threads[t].guards != [] && (|s.threads[t].guards| == 1 ==> s.suspended == {})
       case Unlock(t) => s.threads[t].pc.Release?
       case Suspend(t, u) => s.threads[t].guards != [] && u in s.threads && u != t
       case ResumeAll(t) => s.threads[t].guards != []
  }

  function Apply(s: State, e: Event): State
    requires Enabled(s, e)
  {
    var t, th := e.t, s.threads[e.t];
    match e
    case Enter(_, blocking) =>
      if s.owner == t then s.(threads := s.threads[t := th.(guards := th.guards + [false])])
      else s.(threads := s.threads[t := th.(pc := Acquire(blocking))])
    case Take(_) => s.(mutex := t, threads := s.threads[t := th.(pc := Publish)])
    case Fail(_) => s.(threads := s.threads[t := th.(pc := Outside)])
    case Own(_) => s.(owner := t, threads := s.threads[t := Thread(Outside, th.guards + [true])])
    case Drop(_) =>
      var last := |th.guards| - 1;
      if th.guards[last] then s.(owner := 0, threads := s.threads[t := Thread(Release, th.guards[..last])])
      else s.(threads := s.threads[t := th.(guards := th.guards[..last])])
    case Unlock(_) => s.(mutex := 0, threads := s.threads[t := th.(pc := Outside)])
    case Suspend(_, u) => s.(suspended := s.suspended + {u})
    case ResumeAll(_) => s.(suspended := {})
  }

  predicate Init(s: State) {
    && s.mutex == 0 && s.owner == 0 && s.suspended == {}
    && forall t :: t in s.threads ==> t != 0 && s.threads[t] == Thread(Outside, [])
  }

  /** The outermost guard holds the mutex, the nested ones hold nothing. */
  predicate Nested(guards: seq<bool>) {
    forall k :: 0 <= k < |guards| ==> guards[k] == (k == 0)
  }

  predicate Holds(th: Thread) {
    th.pc.Publish? || th.pc.Release? || th.guards != []
  }

  ghost predicate Inv(s: State) {
    && 0 !in s.threads
    && (s.mutex != 0 ==> s.mutex in s.threads)
    && (s.owner != 0 ==> s.owner == s.mutex)
    && (s.suspended != {} ==> s.owner != 0) && s.mutex !in s.suspended
    && s.suspended <= s.threads.Keys
    && forall t :: t in s.threads ==>
         && Nested(s.threads[t].guards)
         && (Holds(s.threads[t]) <==> s.mutex == t)
         && (s.threads[t].guards != [] ==> s.threads[t].pc.Outside?)
         && (s.owner == t <==> s.threads[t].guards != [])
  }

  lemma KeptByEvent(s: State, e: Event)
    requires Inv(s) && Enabled(s, e)
    ensures Inv(Apply(s, e))
  {
    var s' := Apply(s, e);
    forall t | t in s'.threads
      ensures Nested(s'.threads[t].guards) && (Holds(s'.threads[t]) <==> s'.mutex == t)
      ensures (s'.threads[t].guards != [] ==>
                s'.threads[t].pc.Outside?) && (s'.owner == t <==> s'.threads[t].guards != [])
    {
      assert Nested(s.threads[t].guards);
    }
  }

  predicate ValidRun(s: State, es: seq<Event>)
    decreases |es|
  {
    es == [] || (Enabled(s, es[0]) && ValidRun(Apply(s, es[0]), es[1..]))
  }

  function Outcome(s: State, es: seq<Event>): State
    requires ValidRun(s, es)
    decreases |es|
  {
    if es == [] then s else Outcome(Apply(s, es[0]), es[1..])
  }

  ghost predicate Reachable(s: State) {
    exists s0, es :: Init(s0) && ValidRun(s0, es) && Outcome(s0, es) == s
  }

  lemma {:induction false} RunKeepsInv(s: State, es: seq<Event>)
    requires Inv(s) && ValidRun(s, es)
    ensures Inv(Outcome(s, es))
    decreases |es|
  {
    if es != [] {
      KeptByEvent(s, es[0]);
      RunKeepsInv(Apply(s, es[0]), es[1..]);
    }
  }

  lemma ReachableInv(s: State)
    requires Reachable(s)
    ensures Inv(s)
  {
    var s0, es :| Init(s0) && ValidRun(s0, es) && Outcome(s0, es) == s;
    RunKeepsInv(s0, es);
  }

  /** A thread is inside a freeze pass while it has a guard. */
  predicate InPass(s: State, t: Tid) {
    t in s.threads && s.threads[t].guards != []
  }

  /** Two passes never overlap, so neither can suspend the thread running the other. */
  lemma PassesExclude(s: State, t: Tid, u: Tid)
    requires Reachable(s) && InPass(s, t) && InPass(s, u)
    ensures t == u
  {
    ReachableInv(s);
  }

  /** Whenever a thread is suspended, the one pass under way is running and can resume it. */
  lemma SuspenderStaysRunning(s: State)
    requires Reachable(s) && s.suspended != {}
    ensures InPass(s, s.owner) && s.owner !in s.suspended
    ensures Enabled(s, ResumeAll(s.owner)) && Apply(s, ResumeAll(s.owner)).suspended == {}
  {
    ReachableInv(s);
  }

  /** At every call the owner check answers whether the thread has the mutex. */
  lemma OwnerIsHolder(s: State, t: Tid)
    requires Reachable(s) && t in s.threads && s.threads[t].pc.Outside?
    ensures s.owner == t <==> s.mutex == t
    ensures s.owner == t <==> InPass(s, t)
  {
    ReachableInv(s);
  }

  /** Dropping a nested guard releases nothing; only the last one gives the lock up. */
  lemma DropReleasesOnlyLast(s: State, t: Tid)
    requires Reachable(s) && Enabled(s, Drop(t))
    ensures var s' := Apply(s, Drop(t));
            if |s.threads[t].guards| > 1 then s'.mutex == s'.owner == t && InPass(s', t)
            else s'.owner == 0 && s'.mutex == t && s'.threads[t].pc.Release?
  {
    ReachableInv(s);
  }

  // ------------------------------------------------------- what a call achieves

  function WithThread(s: State, t: Tid, pc: Pc, guards: seq<bool>): map<Tid, Thread> {
    s.threads[t := Thread(pc, guards)]
  }

  /** A thread that is inside a pass enters again at once, by one more guard that holds nothing. */
  lemma EnterNests(s: State, t: Tid, blocking: bool)
    requires Reachable(s) && Enabled(s, Enter(t, blocking)) && InPass(s, t)
    ensures Apply(s, Enter(t, blocking)) == s.(threads := WithThread(s, t, Outside, s.threads[t].guards + [false]))
  {
    ReachableInv(s);
  }

  /** A thread that finds the mutex free gets it, becomes the owner and is inside a pass. */
  lemma FreeLockIsTaken(s: State, t: Tid, blocking: bool)
    requires Reachable(s) && Enabled(s, Enter(t, blocking)) && s.mutex == 0
    ensures var es := [Enter(t, blocking), Take(t), Own(t)];
            && ValidRun(s, es)
            && Outcome(s, es) == s.(mutex := t, owner := t, threads := WithThread(s, t, Outside, [true]))
  {
    ReachableInv(s);
    assert !Holds(s.threads[t]) && s.threads[t].guards + [true] == [true];
    var s3 := Apply(Apply(Apply(s, Enter(t, blocking)), Take(t)), Own(t));
    assert s3.threads == WithThread(s, t, Outside, [true]);
    ThreeSteps(s, Enter(t, blocking), Take(t), Own(t));
  }

  /** `try_hold_freeze_lock` gives up on a mutex another thread has, and leaves everything as it was. */
  lemma BusyLockIsLeft(s: State, t: Tid)
    requires Reachable(s) && Enabled(s, Enter(t, false)) && s.mutex != 0 && !InPass(s, t)
    ensures var es := [Enter(t, false), Fail(t)]; ValidRun(s, es) && Outcome(s, es) == s
  {
    ReachableInv(s);
    var s1 := Apply(s, Enter(t, false));
    assert Apply(s1, Fail(t)).threads == s.threads;
    TwoSteps(s, Enter(t, false), Fail(t));
  }

  /** Dropping the only guard, with nobody suspended, leaves the lock free. */
  lemma LastDropFrees(s: State, t: Tid)
    requires Reachable(s) && Enabled(s, Drop(t)) && |s.threads[t].guards| == 1
    ensures var es := [Drop(t), Unlock(t)];
            ValidRun(s, es) && Outcome(s, es) == s.(mutex := 0, owner := 0, threads := WithThread(s, t, Outside, []))
  {
    ReachableInv(s);
    assert s.threads[t].guards[..0] == [] && Nested(s.threads[t].guards);
    var s2 := Apply(Apply(s, Drop(t)), Unlock(t));
    assert s2.threads == WithThread(s, t, Outside, []);
    TwoSteps(s, Drop(t), Unlock(t));
  }

  /** Whoever has the mutex can go on, so a thread that waits for it does not wait on a suspended one. */
  lemma HolderCanGoOn(s: State)
    requires Reachable(s) && s.mutex != 0
    ensures s.mutex in s.threads && s.mutex !in s.suspended
    ensures Enabled(s, Own(s.mutex)) || Enabled(s, Unlock(s.mutex)) || Enabled(s, ResumeAll(s.mutex))
  {
    ReachableInv(s);
  }

  lemma OneStep(s: State, a: Event)
    requires Enabled(s, a)
    ensures ValidRun(s, [a]) && Outcome(s, [a]) == Apply(s, a)
  {
    assert [a][1..] == [] && ValidRun(Apply(s, a), []);
  }

  lemma TwoSteps(s: State, a: Event, b: Event)
    requires Enabled(s, a) && Enabled(Apply(s, a), b)
    ensures ValidRun(s, [a, b]) && Outcome(s, [a, b]) == Apply(Apply(s, a), b)
  {
    OneStep(Apply(s, a), b);
    assert [a, b][1..] == [b];
  }

  lemma ThreeSteps(s: State, a: Event, b: Event, c: Event)
    requires Enabled(s, a) && Enabled(Apply(s, a), b) && Enabled(Apply(Apply(s, a), b), c)
    ensures ValidRun(s, [a, b, c]) && Outcome(s, [a, b, c]) == Apply(Apply(Apply(s, a), b), c)
  {
    TwoSteps(Apply(s, a), b, c);
    assert [a, b, c][1..] == [b, c];
  }
}
