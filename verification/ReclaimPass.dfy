/**
 Quiescence-gated reclamation as a state machine: one pass at a time drains the
 quarantine, freezes and inspects threads, catches up with threads born
 meanwhile, frees what nothing references and puts the rest back. All other
 threads run, spawn, exit and retire regions between any two of its steps.

 Threads are numbered by creation and never reuse an id. The thread walk visits
 them in creation order and ends only when no live thread is left ahead of it.
 */
module ReclaimPass {

  type Tid = nat
  datatype Region = Region(base: nat, size: nat)

  const NEW_THREAD_SLACK := 32
  const WALK_ROUNDS := 4

  datatype Pc =
    | Idle
    | Freezing(queue: seq<Tid>)
    | Inspecting(todo: set<Tid>)
    | Walking(round: nat, pos: nat)
    | Freeing(i: nat)
    | Returning

  /**
   `threads` maps every live thread to the words it references: instruction
   pointer, general registers, stack slots. `created` lists all threads ever
   created, in order. `retired` is the history of all retired regions.
   */
  datatype State = State(
    threads: map<Tid, set<nat>>,
    created: seq<Tid>,
    quarantine: seq<Region>,
    freed: seq<Region>,
    retired: seq<Region>,
    pc: Pc,
    me: Tid,
    regions: seq<Region>,
    busy: seq<bool>,
    held: set<Tid>,
    frozen: set<Tid>,
    handles: nat,
    remembered: nat,
    capacity: nat,
    walk: bool,
    inspectedAll: bool,
    stillBusy: seq<Region>)

  /** How opening, suspending and inspecting one thread turned out. */
  datatype Attempt = Gone | Denied | ExitedInHand | Frozen(inspected: bool)

  datatype Event =
    | Run(t: Tid, refs: set<nat>)
    | Spawn(t: Tid, child: Tid, refs: set<nat>)
    | Exit(t: Tid)
    | Retire(t: Tid, r: Region)
    | StartPass(t: Tid, tids: seq<Tid>, walk: bool)
    | FreezeNext(a: Attempt)
    | InspectNext(t: Tid, ok: bool)
    | WalkTo(q: nat, a: Attempt)
    | WalkEnd
    | FreeNext
    | Finish

  predicate Inside(w: nat, r: Region) {
    r.base <= w < r.base + r.size
  }

  predicate References(refs: set<nat>, r: Region) {
    exists w :: w in refs && Inside(w, r)
  }

  /** `mark` for every word a thread references. */
  function Marked(busy: seq<bool>, regions: seq<Region>, refs: set<nat>): (b: seq<bool>)
    requires |busy| == |regions|
    ensures |b| == |regions|
    ensures forall i :: 0 <= i < |b| ==> (b[i] <==> busy[i] || References(refs, regions[i]))
  {
    seq(|regions|, i requires 0 <= i < |regions| => busy[i] || References(refs, regions[i]))
  }

  /** A thread that can act: live, not suspended, and not the one running the pass. */
  predicate Acts(s: State, t: Tid) {
    t in s.threads && t !in s.held && (s.pc.Idle? || t != s.me)
  }

  predicate Enabled(s: State, e: Event) {
    match e
    case Run(t, _) => Acts(s, t)
    case Spawn(t, child, _) => Acts(s, t) && child !in s.created
    case Exit(t) => Acts(s, t)
    case Retire(t, r) => Acts(s, t) && r.base > 0 && r.size > 0
    case StartPass(t, tids, _) =>
      s.pc.Idle? && t in s.threads && s.quarantine != [] && forall i :: 0 <= i < |tids| ==> tids[i] in s.created
    case FreezeNext(a) => s.pc.Freezing? && s.pc.queue != [] && Possible(s, s.pc.queue[0], a)
    case InspectNext(t, _) => s.pc.Inspecting? && t in s.pc.todo && t in s.threads && |s.busy| == |s.regions|
    case WalkTo(q, a) =>
      && s.pc.Walking? && s.walk && s.pc.pos <= q < |s.created| && |s.busy| == |s.regions|
      && (forall x :: s.pc.pos <= x < q ==> s.created[x] !in s.threads)
      && (s.created[q] == s.me || s.created[q] in s.frozen || Possible(s, s.created[q], a))
    case WalkEnd =>
      s.pc.Walking? && (!s.walk || forall x :: s.pc.pos <= x < |s.created| ==> s.created[x] !in s.threads)
    case FreeNext => s.pc.Freeing? && s.pc.i < |s.regions| == |s.busy|
    case Finish =>
      || (s.pc.Freezing? && s.pc.queue == []) || (s.pc.Inspecting? && s.pc.todo == {})
      || (s.pc.Freeing? && s.pc.i >= |s.regions|) || s.pc.Returning?
  }

  /** Only a live thread can be suspended, and only a dead one is reported gone or exited. */
  predicate Possible(s: State, t: Tid, a: Attempt) {
    match a
    case Gone => t !in s.threads
    case Denied => true
    case ExitedInHand => t !in s.threads
    case Frozen(_) => t in s.threads && t != s.me
  }

  function FreezeOne(s: State, a: Attempt): State
    requires s.pc.Freezing? && s.pc.queue != []
  {
    var t := s.pc.queue[0];
    var s1 := s.(pc := Freezing(s.pc.queue[1..]));
    match a
    case Gone => s1
    case Denied => s1.(inspectedAll := false)
    case ExitedInHand => s1.(frozen := s.frozen + {t}, remembered := s.remembered + 1)
    case Frozen(_) =>
      s1.(held := s.held + {t}, frozen := s.frozen + {t},
          handles := s.handles + 1, remembered := s.remembered + 1)
  }

  function InspectOne(s: State, t: Tid, ok: bool): State
    requires s.pc.Inspecting? && t in s.threads && |s.busy| == |s.regions|
  {
    s.(pc := Inspecting(s.pc.todo - {t}),
       busy := if ok then Marked(s.busy, s.regions, s.threads[t]) else s.busy,
       inspectedAll := s.inspectedAll && ok)
  }

  /** `catch_up_new_threads`, one thread of the walk. */
  function WalkOne(s: State, q: nat, a: Attempt): State
    requires s.pc.Walking? && q < |s.created| && |s.busy| == |s.regions|
    requires s.created[q] == s.me || s.created[q] in s.frozen || Possible(s, s.created[q], a)
  {
    var t := s.created[q];
    var giveUp := s.(pc := Freeing(0), inspectedAll := false);
    if t == s.me || t in s.frozen then s.(pc := Walking(s.pc.round, q + 1))
    else if s.handles == s.capacity || s.remembered == s.capacity then giveUp
    else
      match a
      case Denied => giveUp
      case Gone | ExitedInHand =>
        s.(pc := Walking(s.pc.round, q + 1), frozen := s.frozen + {t}, remembered := s.remembered + 1)
      case Frozen(inspected) =>
        var s1 := s.(held := s.held + {t}, frozen := s.frozen + {t},
                     handles := s.handles + 1, remembered := s.remembered + 1);
        if !inspected then s1.(pc := Freeing(0), inspectedAll := false)
        else
          var s2 := s1.(busy := Marked(s.busy, s.regions, s.threads[t]));
          if s.pc.round + 1 < WALK_ROUNDS then s2.(pc := Walking(s.pc.round + 1, 0))
          else s2.(pc := Freeing(0), inspectedAll := false)
  }

  predicate MustKeep(s: State, i: nat)
    requires i < |s.busy|
  {
    s.busy[i] || !s.inspectedAll
  }

  function FreeOne(s: State): State
    requires s.pc.Freeing? && s.pc.i < |s.regions| == |s.busy|
  {
    var i := s.pc.i;
    if MustKeep(s, i)
    then s.(pc := Freeing(i + 1), stillBusy := s.stillBusy + [s.regions[i]])
    else s.(pc := Freeing(i + 1), freed := s.freed + [s.regions[i]])
  }

  /** The end of a phase: on to inspecting, walking, thawing, and back to the quarantine. */
  function NextPhase(s: State): State
    requires Enabled(s, Finish)
  {
    match s.pc
    case Freezing(_) => s.(pc := Inspecting(s.held))
    case Inspecting(_) => s.(pc := Walking(0, 0))
    case Freeing(_) => s.(pc := Returning, held := {}, frozen := {})
    case Returning => s.(pc := Idle, quarantine := s.quarantine + s.stillBusy, stillBusy := [], regions := [],
        busy := [])
  }

  function Apply(s: State, e: Event): State
    requires Enabled(s, e)
  {
    match e
    case Run(t, refs) => s.(threads := s.threads[t := refs])
    case Spawn(_, child, refs) => s.(threads := s.threads[child := refs], created := s.created + [child])
    case Exit(t) => s.(threads := s.threads - {t})
    case Retire(_, r) => s.(quarantine := s.quarantine + [r], retired := s.retired + [r])
    case StartPass(t, tids, walk) =>
      s.(pc := Freezing(tids), me := t, regions := s.quarantine, quarantine := [],
         busy := seq(|s.quarantine|, _ => false), held := {}, frozen := {}, handles := 0, remembered := 0,
         capacity := |tids| + NEW_THREAD_SLACK, walk := walk, inspectedAll := true, stillBusy := [])
    case FreezeNext(a) => FreezeOne(s, a)
    case InspectNext(t, ok) => InspectOne(s, t, ok)
    case WalkTo(q, a) => WalkOne(s, q, a)
    case WalkEnd => s.(pc := Freeing(0))
    case FreeNext => FreeOne(s)
    case Finish => NextPhase(s)
  }

  predicate Init(s: State) {
    && s.pc.Idle? && s.quarantine == s.freed == s.retired == s.stillBusy == s.regions == []
    && s.busy == [] && s.held == {} && s.frozen == {}
    && (forall t :: t in s.threads ==> t in s.created)
    && (forall i, j :: 0 <= i < j < |s.created| ==> s.created[i] != s.created[j])
  }

  // -------------------------------------------------------------- invariant

  predicate Accounted(s: State, t: Tid) {
    t in s.threads ==> t in s.held || t == s.me
  }

  /** Busy marks are exactly the references of the threads in `ts`. */
  ghost predicate MarksOf(s: State, ts: set<Tid>) {
    && |s.busy| == |s.regions| && ts <= s.threads.Keys
    && (forall i :: 0 <= i < |s.busy| ==>
          (s.busy[i] <==> exists t :: t in ts && References(s.threads[t], s.regions[i])))
  }

  /** Who is suspended, and what has been learned about the suspended. */
  ghost predicate FreezeInv(s: State) {
    && s.threads.Keys <= (set t | t in s.created)
    && (!s.pc.Idle? ==> s.me in s.threads)
    && s.held <= s.threads.Keys && s.held <= s.frozen <= (set t | t in s.created) && s.me !in s.held
    && (forall t :: t in s.frozen ==> t in s.held || t !in s.threads)
    && (s.pc.Idle? || s.pc.Returning? ==> s.held == {} && s.frozen == {})
    && |s.busy| == |s.regions|
    && match s.pc
       case Freezing(queue) => MarksOf(s, {}) && forall i :: 0 <= i < |queue| ==> queue[i] in s.created
       case Inspecting(todo) => todo <= s.held && (s.inspectedAll ==> MarksOf(s, s.held - todo))
       case Walking(_, pos) =>
         && pos <= |s.created|
         && (forall x :: 0 <= x < pos ==> Accounted(s, s.created[x]))
         && (s.inspectedAll ==> MarksOf(s, s.held))
       case Freeing(_) =>
         && (s.inspectedAll ==> MarksOf(s, s.held))
         && (s.inspectedAll && s.walk ==> forall t :: t in s.threads ==> Accounted(s, t))
       case _ => true
  }

  /** How often `r` is in a list. */
  ghost function Count(q: seq<Region>, r: Region): nat {
    if q == [] then 0 else Count(q[..|q| - 1], r) + if q[|q| - 1] == r then 1 else 0
  }

  lemma {:induction false} CountIsMultiplicity(q: seq<Region>, r: Region)
    ensures Count(q, r) == multiset(q)[r]
  {
    if q != [] {
      CountIsMultiplicity(q[..|q| - 1], r);
      assert q == q[..|q| - 1] + [q[|q| - 1]];
    }
  }

  lemma CountAppend(q: seq<Region>, x: Region, r: Region)
    ensures Count(q + [x], r) == Count(q, r) + if x == r then 1 else 0
  {
    assert (q + [x])[..|q|] == q;
  }

  lemma {:induction false} CountConcat(q: seq<Region>, p: seq<Region>, r: Region)
    ensures Count(q + p, r) == Count(q, r) + Count(p, r)
  {
    if p == [] {
      assert q + p == q;
    } else {
      CountConcat(q, p[..|p| - 1], r);
      assert q + p == (q + p[..|p| - 1]) + [p[|p| - 1]];
      CountAppend(q + p[..|p| - 1], p[|p| - 1], r);
    }
  }

  lemma CountFirst(q: seq<Region>, i: nat, r: Region)
    requires i < |q|
    ensures Count(q[i..], r) == Count(q[i + 1..], r) + if q[i] == r then 1 else 0
  {
    assert q[i..] == [q[i]] + q[i + 1..];
    CountConcat([q[i]], q[i + 1..], r);
    assert Count([q[i]], r) == if q[i] == r then 1 else 0 by { assert [q[i]][..0] == []; }
  }

  /** The regions a running pass has in its hands. */
  ghost function InPass(s: State): seq<Region> {
    match s.pc
    case Idle => []
    case Freeing(i) => s.stillBusy + if i <= |s.regions| then s.regions[i..] else []
    case Returning => s.stillBusy
    case _ => s.regions
  }

  ghost predicate Balanced(s: State, r: Region) {
    Count(s.retired, r) == Count(s.quarantine, r) + Count(s.freed, r) + Count(InPass(s), r)
  }

  /** Every retired region is quarantined, freed or in the hands of the pass. */
  ghost predicate Ledger(s: State) {
    && (forall r :: Balanced(s, r))
    && (s.pc.Freeing? ==> s.pc.i <= |s.regions|)
    && (!s.pc.Freeing? && !s.pc.Returning? ==> s.stillBusy == [])
  }

  ghost predicate Inv(s: State) {
    FreezeInv(s) && Ledger(s)
  }

  lemma TakeOut(kept: seq<Region>, q: seq<Region>, i: nat, r: Region)
    requires i < |q|
    ensures Count(kept + q[i..], r) == Count(kept + q[i + 1..], r) + if q[i] == r then 1 else 0
  {
    CountConcat(kept, q[i..], r);
    CountConcat(kept, q[i + 1..], r);
    CountFirst(q, i, r);
  }

  lemma MoveOver(kept: seq<Region>, q: seq<Region>, i: nat)
    requires i < |q|
    ensures (kept + [q[i]]) + q[i + 1..] == kept + q[i..]
  {
  }

  lemma BalanceOfFree(s: State, r: Region)
    requires Balanced(s, r) && s.pc.Freeing? && s.pc.i < |s.regions| == |s.busy|
    ensures Balanced(FreeOne(s), r)
  {
    var i := s.pc.i;
    if MustKeep(s, i) {
      MoveOver(s.stillBusy, s.regions, i);
    } else {
      TakeOut(s.stillBusy, s.regions, i, r);
      CountAppend(s.freed, s.regions[i], r);
    }
  }

  lemma BalanceOfPhase(s: State, r: Region)
    requires Balanced(s, r) && Enabled(s, Finish)
    requires s.pc.Freeing? ==> s.pc.i <= |s.regions|
    ensures Balanced(NextPhase(s), r)
  {
    CountConcat(s.quarantine, s.stillBusy, r);
    if s.pc.Freeing? { assert s.stillBusy + s.regions[s.pc.i..] == s.stillBusy; }
  }

  lemma BalanceOfRetire(s: State, x: Region, r: Region)
    requires Balanced(s, r)
    ensures Balanced(s.(quarantine := s.quarantine + [x], retired := s.retired + [x]), r)
  {
    var s' := s.(quarantine := s.quarantine + [x], retired := s.retired + [x]);
    assert InPass(s') == InPass(s);
    CountAppend(s.quarantine, x, r);
    CountAppend(s.retired, x, r);
  }

  lemma WalkMovesNoRegion(s: State, q: nat, a: Attempt)
    requires Enabled(s, WalkTo(q, a))
    ensures var s' := WalkOne(s, q, a);
            && s'.retired == s.retired && s'.quarantine == s.quarantine && s'.freed == s.freed
            && s'.stillBusy == s.stillBusy && s'.regions == s.regions
            && (s'.pc.Walking? || s'.pc == Freeing(0))
  {
  }

  /** Everything else moves no region. */
  lemma NoRegionMoves(s: State, e: Event)
    requires Enabled(s, e) && !e.FreeNext? && !e.Finish? && !e.Retire? && !e.StartPass?
    requires !s.pc.Freeing? && !s.pc.Returning? ==> s.stillBusy == []
    ensures var s' := Apply(s, e);
            s'.retired == s.retired && s'.quarantine == s.quarantine && s'.freed == s.freed && InPass(s') == InPass(s)
            && (s'.pc.Freeing? ==> s'.pc.i <= |s'.regions| || s.pc.Freeing?) && s'.stillBusy == s.stillBusy
            && s'.regions == s.regions && (s.pc.Freeing? || s.pc.Returning? ==>
                 s'.pc == s.pc) && !s'.pc.Returning? == !s.pc.Returning?
  {
    assert [] + s.regions[0..] == s.regions;
    if e.WalkTo? {
      WalkMovesNoRegion(s, e.q, e.a);
    }
  }

  lemma LedgerKept(s: State, e: Event)
    requires Ledger(s) && Enabled(s, e)
    ensures Ledger(Apply(s, e))
  {
    if !e.FreeNext? && !e.Finish? && !e.Retire? && !e.StartPass? { NoRegionMoves(s, e); }
    forall r ensures Balanced(Apply(s, e), r) {
      assert Balanced(s, r);
      if e.FreeNext? { BalanceOfFree(s, r); }
      else if e.Finish? { BalanceOfPhase(s, r); }
      else if e.Retire? { BalanceOfRetire(s, e.r, r); }
    }
  }

  /** Running, spawning and exiting threads are never suspended ones, so no mark goes stale. */
  lemma MarksKept(s: State, s': State, ts: set<Tid>)
    requires MarksOf(s, ts) && s'.busy == s.busy && s'.regions == s.regions && ts <= s'.threads.Keys
    requires forall t :: t in ts ==> s'.threads[t] == s.threads[t]
    ensures MarksOf(s', ts)
  {
  }

  lemma KeptByWorld(s: State, e: Event)
    requires FreezeInv(s) && Enabled(s, e) && (e.Run? || e.Spawn? || e.Exit?)
    ensures FreezeInv(Apply(s, e))
  {
    var s' := Apply(s, e);
    forall ts | ts <= s.held && MarksOf(s, ts) ensures MarksOf(s', ts) { MarksKept(s, s', ts); }
    assert {} <= s.held;
  }

  lemma KeptByRetire(s: State, e: Event)
    requires FreezeInv(s) && Enabled(s, e) && e.Retire?
    ensures FreezeInv(Apply(s, e))
  {
  }

  lemma KeptByStart(s: State, e: Event)
    requires FreezeInv(s) && Enabled(s, e) && e.StartPass?
    ensures FreezeInv(Apply(s, e))
  {
  }

  lemma KeptByFreeze(s: State, a: Attempt)
    requires FreezeInv(s) && Enabled(s, FreezeNext(a))
    ensures FreezeInv(FreezeOne(s, a))
  {
    var t := s.pc.queue[0];
    assert t in s.created;
    MarksKept(s, FreezeOne(s, a), {});
  }

  lemma MarksExtend(s: State, ts: set<Tid>, t: Tid)
    requires MarksOf(s, ts) && t in s.threads
    ensures MarksOf(s.(busy := Marked(s.busy, s.regions, s.threads[t])), ts + {t})
  {
  }

  lemma KeptByInspect(s: State, t: Tid, ok: bool)
    requires FreezeInv(s) && Enabled(s, InspectNext(t, ok))
    ensures FreezeInv(InspectOne(s, t, ok))
  {
    var done := s.held - s.pc.todo;
    assert s.held - (s.pc.todo - {t}) == done + {t};
    if s.inspectedAll && ok {
      MarksExtend(s, done, t);
      MarksKept(s.(busy := Marked(s.busy, s.regions, s.threads[t])), InspectOne(s, t, ok), done + {t});
    }
  }

  lemma WalkKeepsMarks(s: State, q: nat, a: Attempt)
    requires FreezeInv(s) && Enabled(s, WalkTo(q, a))
    ensures WalkOne(s, q, a).inspectedAll ==> s.inspectedAll && MarksOf(WalkOne(s, q, a), WalkOne(s, q, a).held)
  {
    var t, s' := s.created[q], WalkOne(s, q, a);
    if s'.inspectedAll {
      if t == s.me || t in s.frozen || !a.Frozen? {
        MarksKept(s, s', s.held);
      } else {
        MarksExtend(s, s.held, t);
        MarksKept(s.(busy := Marked(s.busy, s.regions, s.threads[t])), s', s.held + {t});
      }
    }
  }

  /** Threads the walk has passed stay accounted for: suspended, exited, or the pass's own. */
  lemma WalkAccounts(s: State, q: nat, a: Attempt)
    requires FreezeInv(s) && Enabled(s, WalkTo(q, a)) && WalkOne(s, q, a).pc.Walking?
    ensures forall x :: 0 <= x < WalkOne(s, q, a).pc.pos <= |s.created| ==> Accounted(WalkOne(s, q, a), s.created[x])
  {
    var s' := WalkOne(s, q, a);
    forall x | 0 <= x < s'.pc.pos <= |s.created| ensures Accounted(s', s.created[x]) {
      if x < s.pc.pos { assert Accounted(s, s.created[x]); }
    }
  }

  lemma KeptByWalk(s: State, q: nat, a: Attempt)
    requires FreezeInv(s) && Enabled(s, WalkTo(q, a))
    ensures FreezeInv(WalkOne(s, q, a))
  {
    assert s.created[q] in s.created;
    WalkKeepsMarks(s, q, a);
    if WalkOne(s, q, a).pc.Walking? { WalkAccounts(s, q, a); }
  }

  lemma KeptByWalkEnd(s: State)
    requires FreezeInv(s) && Enabled(s, WalkEnd)
    ensures FreezeInv(s.(pc := Freeing(0)))
  {
    if s.inspectedAll {
      MarksKept(s, s.(pc := Freeing(0)), s.held);
      if s.walk {
        forall t | t in s.threads ensures Accounted(s, t) {
          assert t in (set u | u in s.created);
          var x :| 0 <= x < |s.created| && s.created[x] == t;
        }
      }
    }
  }

  lemma KeptByFree(s: State)
    requires FreezeInv(s) && Enabled(s, FreeNext)
    ensures FreezeInv(FreeOne(s))
  {
    if s.inspectedAll { MarksKept(s, FreeOne(s), s.held); }
  }

  lemma KeptByPhase(s: State)
    requires FreezeInv(s) && Enabled(s, Finish)
    ensures FreezeInv(NextPhase(s))
  {
    if s.pc.Freezing? {
      assert s.held - s.held == {};
      MarksKept(s, NextPhase(s), {});
    } else if s.pc.Inspecting? && s.inspectedAll {
      assert s.held - {} == s.held;
      MarksKept(s, NextPhase(s), s.held);
    }
  }

  lemma KeptByEvent(s: State, e: Event)
    requires Inv(s) && Enabled(s, e)
    ensures Inv(Apply(s, e))
  {
    LedgerKept(s, e);
    match e
    case Run(_, _) => KeptByWorld(s, e);
    case Spawn(_, _, _) => KeptByWorld(s, e);
    case Exit(_) => KeptByWorld(s, e);
    case Retire(_, _) => KeptByRetire(s, e);
    case StartPass(_, _, _) => KeptByStart(s, e);
    case FreezeNext(a) => KeptByFreeze(s, a);
    case InspectNext(t, ok) => KeptByInspect(s, t, ok);
    case WalkTo(q, a) => KeptByWalk(s, q, a);
    case WalkEnd => KeptByWalkEnd(s);
    case FreeNext => KeptByFree(s);
    case Finish => KeptByPhase(s);
  }

  // ------------------------------------------------------------- whole runs

  predicate ValidRun(s: State, es: seq<Event>)
    decreases |es|
  {
    es == [] || (Enabled(s, es[0]) && ValidRun(Apply(s, es[0]), es[1..]))
  }

  function Outcome(s: State, es: seq<Event>): State
    requires ValidRun(s, es)
    decreases |es|
  {
    if es == [] then s else Outcome(Apply(s, es[0]), es[1..])
  }

  ghost predicate Reachable(s: State) {
    exists s0, es :: Init(s0) && ValidRun(s0, es) && Outcome(s0, es) == s
  }

  lemma {:induction false} RunKeepsInv(s: State, es: seq<Event>)
    requires Inv(s) && ValidRun(s, es)
    ensures Inv(Outcome(s, es))
    decreases |es|
  {
    if es != [] {
      KeptByEvent(s, es[0]);
      RunKeepsInv(Apply(s, es[0]), es[1..]);
    }
  }

  lemma ReachableInv(s: State)
    requires Reachable(s)
    ensures Inv(s)
  {
    var s0, es :| Init(s0) && ValidRun(s0, es) && Outcome(s0, es) == s;
    RunKeepsInv(s0, es);
  }

  /** Nothing another live thread references is ever freed, whenever that thread was created. */
  lemma FreedIsUnreferenced(s: State, t: Tid)
    requires Reachable(s) && Enabled(s, FreeNext) && s.walk && !MustKeep(s, s.pc.i)
    requires t in s.threads && t != s.me
    ensures !References(s.threads[t], s.regions[s.pc.i])
  {
    ReachableInv(s);
    assert Accounted(s, t);
  }

  /** A pass that inspected every thread keeps only what a suspended thread references. */
  lemma KeptIsReferenced(s: State)
    requires Reachable(s) && Enabled(s, FreeNext) && s.inspectedAll && MustKeep(s, s.pc.i)
    ensures exists t :: t in s.threads && t != s.me && References(s.threads[t], s.regions[s.pc.i])
  {
    ReachableInv(s);
    var t :| t in s.held && References(s.threads[t], s.regions[s.pc.i]);
  }

  /** No region is lost and none is freed more often than it was retired. */
  lemma RegionsAreConserved(s: State, r: Region)
    requires Reachable(s)
    ensures multiset(s.retired)[r] == multiset(s.quarantine)[r] + multiset(s.freed)[r] + multiset(InPass(s))[r]
  {
    ReachableInv(s);
    assert Balanced(s, r);
    CountIsMultiplicity(s.retired, r);
    CountIsMultiplicity(s.quarantine, r);
    CountIsMultiplicity(s.freed, r);
    CountIsMultiplicity(InPass(s), r);
  }

  lemma {:induction false} RunExtends(s: State, es: seq<Event>, e: Event)
    requires ValidRun(s, es) && Enabled(Outcome(s, es), e)
    ensures ValidRun(s, es + [e]) && Outcome(s, es + [e]) == Apply(Outcome(s, es), e)
    decreases |es|
  {
    if es == [] {
      assert es + [e] == [e] && [e][1..] == [];
      assert ValidRun(Apply(s, e), []) && Outcome(Apply(s, e), []) == Apply(s, e);
    } else {
      RunExtends(Apply(s, es[0]), es[1..], e);
      assert (es + [e])[1..] == es[1..] + [e];
    }
  }

  lemma ReachableNext(s: State, e: Event)
    requires Reachable(s) && Enabled(s, e)
    ensures Reachable(Apply(s, e))
  {
    var s0, es :| Init(s0) && ValidRun(s0, es) && Outcome(s0, es) == s;
    RunExtends(s0, es, e);
  }

  const FRESH := State(map[0 := {}, 1 := {}], [0, 1], [], [], [], Idle, 0, [], [], {}, {}, 0, 0, 0, false, true, [])

  ghost predicate Closed(p: State -> bool) {
    forall s, e {:trigger p(Apply(s, e))} :: p(s) && Enabled(s, e) ==> p(Apply(s, e))
  }

  lemma Next(p: State -> bool, s: State, e: Event) returns (s': State)
    requires Closed(p) && p(s) && Enabled(s, e)
    ensures s' == Apply(s, e) && p(s')
  {
    s' := Apply(s, e);
    assert p(s');
  }

  lemma NewbornRun(p: State -> bool) returns (s: State)
    requires Closed(p) && p(FRESH)
    ensures p(s) && s.threads == map[0 := {}, 1 := {}, 2 := {105}] && s.me == 0 && !s.walk && s.inspectedAll
    ensures s.regions == [Region(100, 10)] && s.pc == Inspecting({1}) && s.busy == [false]
  {
    s := Next(p, FRESH, Retire(0, Region(100, 10)));
    s := Next(p, s, StartPass(0, [1], false));
    s := Next(p, s, Spawn(1, 2, {105}));
    s := Next(p, s, FreezeNext(Frozen(true)));
    s := Next(p, s, Finish);
  }

  lemma MissedRun(p: State -> bool) returns (s: State)
    requires Closed(p) && p(FRESH)
    ensures p(s) && Enabled(s, FreeNext) && !s.walk && !MustKeep(s, s.pc.i)
    ensures 2 in s.threads && s.me == 0 && References(s.threads[2], s.regions[s.pc.i])
  {
    s := NewbornRun(p);
    s := Next(p, s, InspectNext(1, true));
    s := Next(p, s, Finish);
    s := Next(p, s, WalkEnd);
    assert Inside(105, s.regions[0]);
  }

  /** Without the thread walk a thread born after the enumeration loses the stub it runs in. */
  lemma WithoutWalkNewbornIsMissed()
    ensures exists s, t :: Reachable(s) && Enabled(s, FreeNext) && !s.walk && !MustKeep(s, s.pc.i)
              && t in s.threads && t != s.me && References(s.threads[t], s.regions[s.pc.i])
  {
    assert Init(FRESH) && ValidRun(FRESH, []) && Outcome(FRESH, []) == FRESH;
    forall s, e | Reachable(s) && Enabled(s, e) ensures Reachable(Apply(s, e)) { ReachableNext(s, e); }
    var s := MissedRun(s => Reachable(s));
    assert 2 in s.threads && 2 != s.me;
  }
}
