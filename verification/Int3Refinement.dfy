/**
 The protocol and the table agree: from every state that satisfies the invariant, so
 from every reachable one, a run in which the lock holder is left alone changes the table
 as `Table.Arm`, `Table.Remove`, `Table.Release` and `Table.Forget` do, whether it succeeds,
 is refused, or fails and is taken back.
 */
module Int3Refinement {
  import opened Options
  import opened Int3Protocol
  import opened Int3Safety
  import opened Int3Runs
  import T = Int3Table

  /** The hook on `a` as its owner holds it. */
  function OwnedAt(s: State, a: Addr): T.Owned
    requires a in s.hooks
  {
    T.Owned(a, s.hooks[a].detour, s.hooks[a].saved, s.hooks[a].slot)
  }

  /** The table a protocol state holds. */
  function TableOf(s: State): T.Contents {
    T.Contents(s.slotTarget, s.slotDetour, s.ring, s.retiredNext, s.handler, s.mem,
               map a | a in s.hooks :: OwnedAt(s, a))
  }

  /** Some run leads from `s` to `s'`. */
  ghost predicate Reaches(s: State, s': State) {
    exists es :: ValidRun(s, es) && Outcome(s, es) == s'
  }

  lemma ReachesIsClosed(s: State, p: State -> bool)
    requires Inv(s) && forall x :: p(x) <==> Reaches(s, x)
    ensures Closed(p) && p(s)
  {
    assert ValidRun(s, []) && Outcome(s, []) == s;
    forall x | p(x) ensures Shape(x) {
      var es :| ValidRun(s, es) && Outcome(s, es) == x;
      RunKeepsInv(s, es);
    }
    forall x, e | p(x) && Shape(x) && Enabled(x, e) ensures p(Apply(x, e)) {
      var es :| ValidRun(s, es) && Outcome(s, es) == x;
      RunExtends(s, es, e);
    }
  }

  lemma ArmedTable(s: State, a: Addr, d: Addr, f: nat)
    requires Shape(s) && f < MAX_HOOKS && a in s.mem
    ensures TableOf(Armed(s, a, d, f)) == T.WithHook(TableOf(s), T.Owned(a, d, s.mem[a], f))
  {
    assert TableOf(Armed(s, a, d, f)).live == TableOf(s).live[a := T.Owned(a, d, s.mem[a], f)];
  }

  lemma UndoneTable(s: State, me: Tid, a: Addr, f: nat)
    requires Shape(s) && f < MAX_HOOKS
    ensures TableOf(Undone(s, me, a, f)) == T.RolledBack(TableOf(s), f)
  {
  }

  /** What `remove` leaves, before the handler is seen to. */
  function Taken(s: State, a: Addr, writes: bool): State
    requires Shape(s) && a in s.hooks && s.hooks[a].slot < MAX_HOOKS
  {
    if writes then Removed(s, a) else LeftBehind(s, a)
  }

  lemma TakenTable(s: State, a: Addr, writes: bool)
    requires Shape(s) && a in s.hooks && s.hooks[a].slot < MAX_HOOKS
    ensures TableOf(Taken(s, a, writes)) == T.WithoutHook(TableOf(s), OwnedAt(s, a), writes)
  {
    assert TableOf(Taken(s, a, writes)).live == TableOf(s).live - {a};
  }

  // -------------------------------------------------------------- the handler

  /** What the checks of a release need of the other threads to come out as `clear` says. */
  ghost predicate ChecksCan(s: State, me: Tid, clear: bool) {
    if clear then AllLookIdle(s, me) else exists t :: t in s.threads && t != me
  }

  lemma SameChecks(s: State, s': State, me: Tid, clear: bool)
    requires ChecksCan(s, me, clear) && s'.ring == s.ring && s'.threads.Keys == s.threads.Keys
    requires forall t :: t in s.threads && s'.threads[t].Trapped? ==>
               s.threads[t].Trapped? && s'.threads[t].addr == s.threads[t].addr
    ensures ChecksCan(s', me, clear)
  {
  }

  /** Between operations no slot is in use exactly if nothing is hooked. */
  lemma FreeIffUnhooked(s: State)
    requires Inv(s) && (s.writer.Idle? || s.writer.IdleScan?)
    ensures AllSlotsFree(s) <==> s.hooks == map[]
    ensures TableOf(s).live == map[] <==> s.hooks == map[]
  {
    if AllSlotsFree(s) {
      forall a ensures a !in s.hooks {
        if a in s.hooks { HookOccupiesSlot(s, a); }
      }
    }
    if a :| a in s.hooks {
      assert a in TableOf(s).live;
    }
  }

  lemma HandlerRun(p: State -> bool, s: State, clear: bool) returns (s': State)
    requires Closed(p) && p(s) && Inv(s) && s.writer.IdleScan? && s.writer.i == 0
    requires s.handler && s.hooks == map[] ==> ChecksCan(s, s.writer.me, clear)
    ensures p(s') && s'.writer.Idle? && TableOf(s') == T.WithoutHandler(TableOf(s), clear)
  {
    FreeIffUnhooked(s);
    if !s.handler {
      s' := Next(p, s, WriterStep(0, true));
    } else if !AllSlotsFree(s) {
      var live :| 0 <= live < MAX_HOOKS && s.slotTarget[live] != 0;
      s' := LiveScanStops(p, s, live);
    } else if clear {
      s' := ReleaseRun(p, s);
    } else {
      s' := IdleScanRun(p, s);
      var t :| t in s.threads && t != s.writer.me;
      s' := BusyRun(p, s', t);
    }
  }

  lemma ReachesInv(s: State, s': State)
    requires Inv(s) && Reaches(s, s')
    ensures Inv(s')
  {
    var es :| ValidRun(s, es) && Outcome(s, es) == s';
    RunKeepsInv(s, es);
  }

  // ------------------------------------------------------------ the operations

  /** Some run of the lock holder ends with the table `c`. */
  ghost predicate EndsWith(s: State, c: T.Contents) {
    exists s' :: Reaches(s, s') && s'.writer.Idle? && TableOf(s') == c
  }

  /** `arm` finds its target free and a free slot, and the byte can be written. */
  lemma ArmRefines(s: State, me: Tid, a: Addr, d: Addr, f: nat)
    requires Inv(s) && Enabled(s, StartArm(me, a, d))
    requires a in s.mem && a !in s.hooks && FirstFree(s.slotTarget, f)
    ensures EndsWith(s, T.WithHook(TableOf(s), T.Owned(a, d, s.mem[a], f)))
  {
    var p := x => Reaches(s, x);
    ReachesIsClosed(s, p);
    var s' := ArmRun(p, s, me, a, d, f);
    ArmedTable(s, a, d, f);
  }

  /** Its target is hooked, no slot is free, or no handler can be registered: nothing changes. */
  lemma ArmRejectionRefines(s: State, me: Tid, a: Addr, d: Addr)
    requires Inv(s) && Enabled(s, StartArm(me, a, d))
    requires a in s.hooks || !s.handler || forall f :: !FirstFree(s.slotTarget, f)
    ensures EndsWith(s, TableOf(s))
  {
    var p := x => Reaches(s, x);
    ReachesIsClosed(s, p);
    if a in s.hooks || forall f :: !FirstFree(s.slotTarget, f) {
      var s' := Next(p, s, StartArm(me, a, d));
      if a !in s.hooks {
        FirstFreeExists(s.slotTarget, MAX_HOOKS);
      }
      s' := RejectingScanRun(p, s');
    } else {
      var f :| FirstFree(s.slotTarget, f);
      var s' := UnregisteredRun(p, s, me, a, d, f);
    }
  }

  /** The byte cannot be written: the publication is taken back and an idle handler released. */
  lemma ArmFailureRefines(s: State, me: Tid, a: Addr, d: Addr, f: nat, clear: bool)
    requires Inv(s) && Enabled(s, StartArm(me, a, d)) && a !in s.hooks && FirstFree(s.slotTarget, f)
    requires s.hooks == map[] ==> ChecksCan(s, me, clear)
    ensures EndsWith(s, T.WithoutHandler(T.RolledBack(TableOf(s), f), clear))
  {
    var p := x => Reaches(s, x);
    ReachesIsClosed(s, p);
    var s1 := RollBackRun(p, s, me, a, d, f);
    ReachesInv(s, s1);
    UndoneTable(s, me, a, f);
    if s.hooks == map[] {
      SameChecks(s, s1, me, clear);
    }
    var s' := HandlerRun(p, s1, clear);
  }

  lemma TakeRun(p: State -> bool, s: State, me: Tid, a: Addr, writes: bool) returns (s': State)
    requires Closed(p) && p(s) && Inv(s) && Enabled(s, StartRemove(me, a))
    ensures p(s') && s' == Taken(s, a, writes).(writer := IdleScan(me, 0))
  {
    if writes {
      s' := RemoveStores(p, s, me, a);
    } else {
      s' := LeaveStores(p, s, me, a);
    }
  }

  lemma TakenLast(s: State, me: Tid, a: Addr, writes: bool, clear: bool)
    requires Shape(s) && a in s.hooks && s.hooks[a].slot < MAX_HOOKS
    requires s.hooks.Keys == {a} ==> ChecksCan(Taken(s, a, writes), me, clear)
    ensures var s1 := Taken(s, a, writes).(writer := IdleScan(me, 0)); s1.hooks == map[] ==> ChecksCan(s1, me, clear)
  {
    var s1 := Taken(s, a, writes).(writer := IdleScan(me, 0));
    if s1.hooks == map[] {
      OnlyHook(s.hooks, a);
      SameChecks(Taken(s, a, writes), s1, me, clear);
    }
  }

  lemma TakeOutRun(p: State -> bool, s: State, me: Tid, a: Addr, writes: bool, clear: bool) returns (s': State)
    requires Closed(p) && p(s) && Inv(s) && Enabled(s, StartRemove(me, a))
    requires s.hooks.Keys == {a} ==> ChecksCan(Taken(s, a, writes), me, clear)
    ensures p(s') && s'.writer == IdleScan(me, 0) && (s'.hooks == map[] ==> ChecksCan(s', me, clear))
    ensures TableOf(s') == T.WithoutHook(TableOf(s), OwnedAt(s, a), writes)
  {
    s' := TakeRun(p, s, me, a, writes);
    TakenLast(s, me, a, writes, clear);
    TakenTable(s, a, writes);
    assert TableOf(s') == TableOf(Taken(s, a, writes));
  }

  /** `remove`, whether or not the byte can be restored and the checks come out clear. */
  lemma RemoveRefines(s: State, me: Tid, a: Addr, writes: bool, clear: bool)
    requires Inv(s) && Enabled(s, StartRemove(me, a))
    requires s.hooks.Keys == {a} ==> ChecksCan(Taken(s, a, writes), me, clear)
    ensures EndsWith(s, T.WithoutHandler(T.WithoutHook(TableOf(s), OwnedAt(s, a), writes), clear))
  {
    var p := x => Reaches(s, x);
    ReachesIsClosed(s, p);
    var s1 := TakeOutRun(p, s, me, a, writes, clear);
    ReachesInv(s, s1);
    var s' := HandlerRun(p, s1, clear);
  }

  /** `release_unused_handler`, which sees to the handler alone. */
  lemma ReleaseRefines(s: State, me: Tid, clear: bool)
    requires Inv(s) && Enabled(s, StartRelease(me))
    requires s.handler && s.hooks == map[] ==> ChecksCan(s, me, clear)
    ensures EndsWith(s, T.WithoutHandler(TableOf(s), clear))
  {
    var p := x => Reaches(s, x);
    ReachesIsClosed(s, p);
    var s1 := Next(p, s, StartRelease(me));
    ReachesInv(s, s1);
    var s' := HandlerRun(p, s1, clear);
  }

  /** `forget`, which is one step whatever the lock holder is doing. */
  lemma ForgetRefines(s: State, a: Addr, b: int)
    requires Inv(s) && Enabled(s, Forget(a, b))
    ensures TableOf(Apply(s, Forget(a, b))) == T.WithoutImage(TableOf(s), OwnedAt(s, a), b)
  {
    assert TableOf(DropHook(s, a, b)).live == TableOf(s).live - {a};
  }

  lemma OnlyHook(hooks: map<Addr, Hook>, a: Addr)
    requires a in hooks && hooks - {a} == map[]
    ensures hooks.Keys == {a}
  {
    forall b | b in hooks ensures b == a {
      assert b != a ==> b in hooks - {a};
    }
  }

  lemma {:induction false} FirstFreeExists(targets: seq<Addr>, n: nat)
    requires n <= |targets| && forall f :: !FirstFree(targets, f)
    ensures forall i :: 0 <= i < n ==> targets[i] != 0
  {
    if n > 0 {
      FirstFreeExists(targets, n - 1);
      assert !FirstFree(targets, n - 1);
    }
  }
}
