/**
 What a reclamation pass achieves: why it may keep a region that nothing references, and
 what a pass in which nothing goes wrong frees.

 `ReclaimPass` bounds what is freed; the theorems here bound what is kept.
 */
module ReclaimRuns {
  import opened ReclaimPass

  // --------------------------------------------------- why regions are kept

  /**
   What the world did to the pass since it began: how many threads the catch-up walk met
   that the pass had not frozen, how many of them it suspended, and whether some thread
   could not be suspended or inspected.
   */
  datatype History = History(met: nat, newborn: nat, failed: bool)

  const NOTHING := History(0, 0, false)

  function Recorded(s: State, e: Event, h: History): History
    requires Enabled(s, e)
  {
    match e
    case StartPass(_, _, _) => NOTHING
    case FreezeNext(a) => if a.Denied? then h.(failed := true) else h
    case InspectNext(_, ok) => if ok then h else h.(failed := true)
    case WalkTo(q, a) =>
      if s.created[q] == s.me || s.created[q] in s.frozen then h
      else History(h.met + 1, h.newborn + if a.Frozen? then 1 else 0,
                   h.failed || a == Denied || a == Frozen(false))
    case _ => h
  }

  function HistoryOf(s: State, es: seq<Event>, h: History): History
    requires ValidRun(s, es)
    decreases |es|
  {
    if es == [] then h else HistoryOf(Apply(s, es[0]), es[1..], Recorded(s, es[0], h))
  }

  /** Something that lets a pass keep what nothing references. */
  predicate Excused(h: History) {
    h.failed || h.newborn >= WALK_ROUNDS || h.met >= NEW_THREAD_SLACK
  }

  /** The buffers have room for every enumerated thread and for `NEW_THREAD_SLACK` others. */
  predicate RoomInv(s: State, h: History) {
    s.handles <= s.remembered &&
    match s.pc
    case Freezing(queue) => s.remembered + |queue| + NEW_THREAD_SLACK <= s.capacity && h.newborn == h.met == 0
    case Inspecting(_) => s.remembered + NEW_THREAD_SLACK <= s.capacity && h.newborn == h.met == 0
    case Walking(round, _) => s.remembered + NEW_THREAD_SLACK <= s.capacity + h.met && h.newborn == round < WALK_ROUNDS
    case _ => true
  }

  predicate CauseInv(s: State, h: History) {
    !s.pc.Idle? ==> RoomInv(s, h) && if s.inspectedAll then !h.failed && h.newborn < WALK_ROUNDS else Excused(h)
  }

  lemma CauseOfWalk(s: State, q: nat, a: Attempt, h: History)
    requires CauseInv(s, h) && Enabled(s, WalkTo(q, a))
    ensures CauseInv(WalkOne(s, q, a), Recorded(s, WalkTo(q, a), h))
  {
  }

  lemma CauseKept(s: State, e: Event, h: History)
    requires CauseInv(s, h) && Enabled(s, e)
    ensures CauseInv(Apply(s, e), Recorded(s, e, h))
  {
    if e.WalkTo? { CauseOfWalk(s, e.q, e.a, h); }
  }

  lemma {:induction false} RunKeepsCause(s: State, es: seq<Event>, h: History)
    requires CauseInv(s, h) && ValidRun(s, es)
    ensures CauseInv(Outcome(s, es), HistoryOf(s, es, h))
    decreases |es|
  {
    if es != [] {
      CauseKept(s, es[0], h);
      RunKeepsCause(Apply(s, es[0]), es[1..], Recorded(s, es[0], h));
    }
  }

  /**
   A pass keeps a region that no other thread references only if a thread could not be
   suspended or inspected, threads kept appearing, or the buffers ran full; and it frees
   nothing once a thread could not be inspected or threads kept appearing.
   */
  lemma KeptHasCause(s0: State, es: seq<Event>)
    requires Init(s0) && ValidRun(s0, es) && Enabled(Outcome(s0, es), FreeNext)
    ensures var s, h := Outcome(s0, es), HistoryOf(s0, es, NOTHING);
            && (MustKeep(s, s.pc.i) && !Excused(h) ==>
                  exists t :: t in s.threads && t != s.me && References(s.threads[t], s.regions[s.pc.i]))
            && (h.failed || h.newborn >= WALK_ROUNDS ==> MustKeep(s, s.pc.i))
  {
    var s := Outcome(s0, es);
    RunKeepsCause(s0, es, NOTHING);
    if s.inspectedAll && MustKeep(s, s.pc.i) {
      assert Reachable(s);
      KeptIsReferenced(s);
    }
  }

  // ----------------------------------------- a pass in which nothing goes wrong

  ghost predicate Referenced(threads: map<Tid, set<nat>>, me: Tid, r: Region) {
    exists t :: t in threads && t != me && References(threads[t], r)
  }

  /** The regions of `q` that some other thread references, or that none does. */
  ghost function Those(q: seq<Region>, threads: map<Tid, set<nat>>, me: Tid, referenced: bool): seq<Region> {
    if q == [] then []
    else
      var r := q[|q| - 1];
      Those(q[..|q| - 1], threads, me, referenced) + if Referenced(threads, me, r) == referenced then [r] else []
  }

  predicate Listed(queue: seq<Tid>, ts: set<Tid>) {
    (forall i :: 0 <= i < |queue| ==> queue[i] in ts) && (forall t :: t in ts ==> t in queue)
  }

  /** What the phases of a pass leave alone. */
  predicate SameWorld(s: State, s': State) {
    && s'.threads == s.threads && s'.created == s.created && s'.quarantine == s.quarantine && s'.freed == s.freed
    && s'.regions == s.regions && s'.stillBusy == s.stillBusy && s'.walk == s.walk && s'.me == s.me
  }

  /** Every listed thread lets itself be suspended. */
  lemma {:induction false} FreezeRun(p: State -> bool, s: State) returns (s': State)
    requires Closed(p) && p(s) && s.pc.Freezing? && s.inspectedAll && FreezeInv(s)
    requires forall i :: 0 <= i < |s.pc.queue| ==> s.pc.queue[i] in s.threads && s.pc.queue[i] != s.me
    ensures p(s') && SameWorld(s, s') && s'.inspectedAll && FreezeInv(s')
    ensures s'.pc == Freezing([]) && s'.held == s.held + (set t | t in s.pc.queue)
    decreases |s.pc.queue|
  {
    if s.pc.queue == [] {
      s' := s;
      assert s.held + (set t | t in s.pc.queue) == s.held;
    } else {
      var queue := s.pc.queue;
      KeptByFreeze(s, Frozen(true));
      s' := Next(p, s, FreezeNext(Frozen(true)));
      s' := FreezeRun(p, s');
      assert queue == [queue[0]] + queue[1..];
      assert s.held + {queue[0]} + (set t | t in queue[1..]) == s.held + (set t | t in queue);
    }
  }

  /** And inspected. */
  lemma {:induction false} InspectRun(p: State -> bool, s: State) returns (s': State)
    requires Closed(p) && p(s) && s.pc.Inspecting? && s.inspectedAll && FreezeInv(s)
    ensures p(s') && SameWorld(s, s') && s'.inspectedAll && FreezeInv(s')
    ensures s'.pc == Inspecting({}) && s'.held == s.held
    decreases |s.pc.todo|
  {
    if s.pc.todo == {} {
      s' := s;
    } else {
      var t :| t in s.pc.todo;
      KeptByInspect(s, t, true);
      s' := Next(p, s, InspectNext(t, true));
      s' := InspectRun(p, s');
    }
  }

  /** The walk meets nobody new and goes to its end. */
  lemma {:induction false} WalkRun(p: State -> bool, s: State, q: nat) returns (s': State)
    requires Closed(p) && p(s) && s.pc.Walking? && s.walk && s.inspectedAll && |s.busy| == |s.regions|
    requires s.pc.pos <= q <= |s.created| && forall x :: s.pc.pos <= x < q ==> s.created[x] !in s.threads
    requires forall t :: t in s.threads ==> t == s.me || t in s.frozen
    ensures p(s') && s' == s.(pc := Freeing(0))
    decreases |s.created| - q
  {
    if q == |s.created| {
      s' := Next(p, s, WalkEnd);
    } else if s.created[q] in s.threads {
      s' := Next(p, s, WalkTo(q, Gone));
      s' := WalkRun(p, s', q + 1);
    } else {
      s' := WalkRun(p, s, q + 1);
    }
  }

  ghost predicate MarkedRight(s: State) {
    |s.busy| == |s.regions|
    && forall i :: 0 <= i < |s.regions| ==> (s.busy[i] <==> Referenced(s.threads, s.me, s.regions[i]))
  }

  lemma ThoseSnoc(q: seq<Region>, i: nat, threads: map<Tid, set<nat>>, me: Tid, referenced: bool)
    requires i < |q|
    ensures Those(q[..i + 1], threads, me, referenced)
         == Those(q[..i], threads, me, referenced)
            + if Referenced(threads, me, q[i]) == referenced then [q[i]] else []
  {
    assert q[..i + 1][..i] == q[..i];
  }

  lemma {:induction false} FreeRun(p: State -> bool, s: State, kept: seq<Region>, freed: seq<Region>)
    returns (s': State)
    requires Closed(p) && p(s) && s.pc.Freeing? && s.inspectedAll && MarkedRight(s) && s.pc.i <= |s.regions|
    requires s.stillBusy == kept + Those(s.regions[..s.pc.i], s.threads, s.me, true)
    requires s.freed == freed + Those(s.regions[..s.pc.i], s.threads, s.me, false)
    ensures p(s') && s'.pc == Freeing(|s.regions|)
    ensures s' == s.(pc := s'.pc, stillBusy := s'.stillBusy, freed := s'.freed)
    ensures s'.stillBusy == kept + Those(s.regions, s.threads, s.me, true)
    ensures s'.freed == freed + Those(s.regions, s.threads, s.me, false)
    decreases |s.regions| - s.pc.i
  {
    var i := s.pc.i;
    if i == |s.regions| {
      assert s.regions[..i] == s.regions;
      s' := s;
    } else {
      ThoseSnoc(s.regions, i, s.threads, s.me, true);
      ThoseSnoc(s.regions, i, s.threads, s.me, false);
      s' := Next(p, s, FreeNext);
      s' := FreeRun(p, s', kept, freed);
    }
  }

  /** Frozen and inspected, the other threads have left their marks. */
  lemma MarkingRun(p: State -> bool, s: State, me: Tid, tids: seq<Tid>) returns (s': State)
    requires Closed(p) && p(s) && FreezeInv(s) && s.stillBusy == [] && Enabled(s, StartPass(me, tids, true))
    requires Listed(tids, s.threads.Keys - {me})
    ensures p(s') && s'.pc == Inspecting({}) && FreezeInv(s') && s'.inspectedAll && s'.walk && s'.me == me
    ensures s'.held == s.threads.Keys - {me}
    ensures s'.threads == s.threads && s'.created == s.created && s'.freed == s.freed
    ensures s'.regions == s.quarantine && s'.quarantine == [] && s'.stillBusy == []
  {
    KeptByStart(s, StartPass(me, tids, true));
    s' := Next(p, s, StartPass(me, tids, true));
    s' := FreezeRun(p, s');
    assert (set t | t in tids) == s.threads.Keys - {me};
    KeptByPhase(s');
    s' := Next(p, s', Finish);
    s' := InspectRun(p, s');
  }

  lemma MarkedByAll(s: State)
    requires FreezeInv(s) && s.pc == Inspecting({}) && s.inspectedAll && s.held == s.threads.Keys - {s.me}
    ensures MarkedRight(s)
  {
    assert s.held - {} == s.held;
    forall i | 0 <= i < |s.regions| ensures s.busy[i] <==> Referenced(s.threads, s.me, s.regions[i]) {
      if Referenced(s.threads, s.me, s.regions[i]) {
        var t :| t in s.threads && t != s.me && References(s.threads[t], s.regions[i]);
        assert t in s.held;
      }
    }
  }

  /** A pass in which nothing goes wrong frees exactly what no other thread references, and keeps the rest. */
  lemma PassRun(p: State -> bool, s: State, me: Tid, tids: seq<Tid>) returns (s': State)
    requires Closed(p) && p(s) && Inv(s) && Enabled(s, StartPass(me, tids, true))
    requires Listed(tids, s.threads.Keys - {me})
    ensures p(s') && s'.pc.Idle? && s'.threads == s.threads
    ensures s'.quarantine == Those(s.quarantine, s.threads, me, true)
    ensures s'.freed == s.freed + Those(s.quarantine, s.threads, me, false)
  {
    s' := MarkingRun(p, s, me, tids);
    MarkedByAll(s');
    s' := Next(p, s', Finish);
    s' := WalkRun(p, s', 0);
    assert s'.regions[..0] == [];
    s' := FreeRun(p, s', [], s.freed);
    s' := Next(p, s', Finish);
    s' := Next(p, s', Finish);
    assert [] + s'.stillBusy == s'.stillBusy;
  }

  ghost function AllReachable(): State -> bool { s => Reachable(s) }

  lemma ReachableIsClosed(p: State -> bool)
    requires p == AllReachable()
    ensures Closed(p) && p(FRESH)
  {
    assert Init(FRESH) && ValidRun(FRESH, []) && Outcome(FRESH, []) == FRESH;
    forall s, e | Reachable(s) && Enabled(s, e) ensures Reachable(Apply(s, e)) { ReachableNext(s, e); }
  }

  /** From every reachable state such a pass is possible, for any thread that starts it. */
  lemma PassFreesUnreferenced(s: State, me: Tid, tids: seq<Tid>)
    requires Reachable(s) && Enabled(s, StartPass(me, tids, true)) && Listed(tids, s.threads.Keys - {me})
    ensures exists s' :: Reachable(s') && s'.pc.Idle? && s'.threads == s.threads
              && s'.quarantine == Those(s.quarantine, s.threads, me, true)
              && s'.freed == s.freed + Those(s.quarantine, s.threads, me, false)
  {
    var p := AllReachable();
    ReachableIsClosed(p);
    ReachableInv(s);
    var s' := PassRun(p, s, me, tids);
  }

  // ----------------------------------------------------- a newborn caught up with

  /** Thread 2 is born after the enumeration */
  lemma BornMeanwhileRun(p: State -> bool) returns (s: State)
    requires Closed(p) && p(FRESH)
    ensures p(s) && s.walk && s.me == 0 && s.pc == Inspecting({1}) && s.inspectedAll && s.stillBusy == s.freed == []
    ensures s.threads == map[0 := {}, 1 := {}, 2 := {205}] && s.created == [0, 1, 2] && s.frozen == s.held == {1}
    ensures s.regions == [Region(100, 10), Region(200, 10)] && s.busy == [false, false]
    ensures s.handles == s.remembered == 1 && s.capacity == 33
  {
    s := Next(p, FRESH, Retire(0, Region(100, 10)));
    s := Next(p, s, Retire(0, Region(200, 10)));
    s := Next(p, s, StartPass(0, [1], true));
    s := Next(p, s, Spawn(1, 2, {205}));
    s := Next(p, s, FreezeNext(Frozen(true)));
    s := Next(p, s, Finish);
  }

  /** and met by the walk, which starts over. */
  lemma CatchUpRun(p: State -> bool) returns (s: State)
    requires Closed(p) && p(FRESH)
    ensures p(s) && s.walk && s.me == 0 && s.pc == Walking(1, 0) && s.inspectedAll && s.stillBusy == s.freed == []
    ensures s.threads.Keys == {0, 1, 2} && s.created == [0, 1, 2] && s.frozen == {1, 2}
    ensures s.regions == [Region(100, 10), Region(200, 10)] && s.busy == [false, true]
  {
    s := BornMeanwhileRun(p);
    s := Next(p, s, InspectNext(1, true));
    s := Next(p, s, Finish);
    s := Next(p, s, WalkTo(0, Gone));
    s := Next(p, s, WalkTo(1, Gone));
    assert Inside(205, s.regions[1]);
    s := Next(p, s, WalkTo(2, Frozen(true)));
  }

  /** Its region is kept, and the other one freed. */
  lemma NewbornIsCaughtUp()
    ensures exists s :: Reachable(s) && s.walk && 2 in s.threads && s.frozen == {1, 2}
              && s.freed == [Region(100, 10)] && s.stillBusy == [Region(200, 10)]
  {
    var p := AllReachable();
    ReachableIsClosed(p);
    var s := CatchUpRun(p);
    s := WalkRun(p, s, 0);
    s := Next(p, s, FreeNext);
    s := Next(p, s, FreeNext);
    assert s.frozen == {1, 2};
  }
}
