/**
 Safety of the INT3 protocol over every interleaving: the invariant of all
 reachable states, and what follows from it for trapped threads, for the
 registered handler and for the patched memory.
 */
module Int3Safety {
  import opened Options
  import opened Int3Protocol

  /** A trap of one of our hooks that nothing has interfered with. */
  predicate Clean(th: Thread) {
    th.Trapped? && th.hazards == {}
  }

  // -------------------------------------------------------------- invariant

  ghost predicate MemoryInv(s: State) {
    && s.mem.Keys == s.code.Keys
    && (forall a :: a in s.mem ==> s.mem[a] == if a in s.hooks then INT3 else s.code[a])
    && (forall a :: a in s.hooks ==> a in s.code && a != 0 && s.hooks[a].saved == s.code[a])
  }

  ghost predicate HookInv(s: State)
    requires |s.slotTarget| == |s.slotDetour| == MAX_HOOKS
  {
    forall a :: a in s.hooks ==>
      && s.hooks[a].slot < MAX_HOOKS
      && s.slotTarget[s.hooks[a].slot] == a
      && s.slotDetour[s.hooks[a].slot] == s.hooks[a].detour != 0
  }

  /** The writer has published slot `i` for `a` but does not own a hook there. */
  predicate WriterSlot(s: State, a: Addr, i: nat) {
    (s.writer.ArmWrite? || s.writer.UndoTarget? || s.writer.ClearTarget?)
    && s.writer.target == a && s.writer.slot == i
  }

  ghost predicate SlotInv(s: State)
    requires |s.slotTarget| == MAX_HOOKS
  {
    forall i :: 0 <= i < MAX_HOOKS && s.slotTarget[i] != 0 ==>
      && s.handler
      && ((s.slotTarget[i] in s.hooks && s.hooks[s.slotTarget[i]].slot == i) || WriterSlot(s, s.slotTarget[i], i))
  }

  ghost predicate RingInv(s: State)
    requires |s.ring| == RETIRED_LEN
  {
    if s.writer.Wipe? then s.log == []
    else
      && s.retiredNext == |s.log| % RETIRED_LEN
      && (forall k :: 0 <= k < |s.log| && |s.log| <= k + RETIRED_LEN ==> s.ring[k % RETIRED_LEN] == s.log[k])
  }

  ghost predicate AllSlotsFree(s: State) {
    forall i :: 0 <= i < |s.slotTarget| ==> s.slotTarget[i] == 0
  }

  predicate Unused(s: State, a: Addr) {
    forall i :: 0 <= i < |s.slotTarget| ==> s.slotTarget[i] != a
  }

  ghost predicate WriterInv(s: State)
    requires Shape(s)
  {
    && (!s.writer.Idle? ==> s.writer.me in s.threads && s.threads[s.writer.me].Running?)
    && match s.writer
       case ArmScan(_, a, _, i, free) =>
         && (forall x :: 0 <= x < i ==> s.slotTarget[x] != a)
         && (free.Some? ==> s.slotTarget[free.value] == 0)
       case ArmRegister(_, a, _, slot) => s.slotTarget[slot] == 0 && Unused(s, a)
       case ArmDetour(_, a, _, slot) => s.slotTarget[slot] == 0 && Unused(s, a) && s.handler
       case ArmTarget(_, a, d, slot) => s.slotTarget[slot] == 0 && Unused(s, a) && s.handler && s.slotDetour[slot] == d
       case ArmWrite(_, a, d, slot) => s.slotTarget[slot] == a && a !in s.hooks && s.slotDetour[slot] == d
       case UndoTarget(_, a, d, slot) => s.slotTarget[slot] == a && a !in s.hooks && s.slotDetour[slot] == d
       case UndoDetour(_, a, d, slot) => s.slotTarget[slot] == 0 && s.slotDetour[slot] == d
       case Restore(_, a, k) => k == |s.log| - 1 && s.log[k] == a
       case ClearTarget(_, a, d, slot) => s.slotTarget[slot] == a && a !in s.hooks && s.slotDetour[slot] == d != 0
       case ClearDetour(_, a, d, slot) => s.slotTarget[slot] == 0 && s.slotDetour[slot] == d
       case IdleScan(_, i) => forall x :: 0 <= x < i ==> s.slotTarget[x] == 0
       case Snapshot(_, _) => AllSlotsFree(s) && s.handler
       case Suspend(_, _, todo, held, inFlight) =>
         AllSlotsFree(s) && s.handler && (inFlight || CleanWithin(s, todo + held))
       case Inspect(_, _, todo, held) => AllSlotsFree(s) && s.handler && todo <= held && CleanWithin(s, todo)
       case Thaw(_, _, _, inFlight) => AllSlotsFree(s) && s.handler && (inFlight || CleanWithin(s, {}))
       case Unregister(_) => AllSlotsFree(s) && s.handler && CleanWithin(s, {})
       case Wipe(_, j) =>
         AllSlotsFree(s) && !s.handler && CleanWithin(s, {}) && (forall x :: 0 <= x < j ==> s.ring[x] == 0)
       case _ => true
  }

  /** Every thread dispatching one of our traps is one of `ts`. */
  ghost predicate CleanWithin(s: State, ts: set<Tid>) {
    forall t :: t in s.threads && Clean(s.threads[t]) ==> t in ts
  }

  /** Whatever detour slot `i` holds was put there for `a`. */
  predicate ServingAt(s: State, a: Addr, i: nat)
    requires i < |s.slotDetour|
  {
    s.slotDetour[i] != 0 ==>
      || (a in s.hooks && s.hooks[a].slot == i)
      || ((s.writer.ArmTarget? || s.writer.ArmWrite? || s.writer.UndoTarget? || s.writer.UndoDetour?
           || s.writer.ClearTarget? || s.writer.ClearDetour?)
          && s.writer.target == a && s.writer.slot == i)
  }

  /** The hook seen by the byte read is still published in slot `home`. */
  predicate InWindow(s: State, th: Thread)
    requires th.Trapped?
  {
    || (th.addr in s.hooks && s.hooks[th.addr].slot == th.home)
    || (s.writer.ClearTarget? && s.writer.target == th.addr && s.writer.slot == th.home)
  }

  predicate PcInv(s: State, th: Thread)
    requires Shape(s) && th.Trapped? && ThreadShape(th)
  {
    match th.pc
    case Entry => true
    case LoadTarget(i, false) => th.removal.None? ==> i <= th.home
    case LoadDetour(i, false) => (th.removal.None? ==> i <= th.home) && ServingAt(s, th.addr, i)
    case LoadRetired(j) => th.removal.Some? && j <= th.removal.value % RETIRED_LEN
    case ReadByte => th.removal.Some?
    case LoadTarget(i, true) => InWindow(s, th) && i <= th.home
    case LoadDetour(i, true) => InWindow(s, th) && i <= th.home && ServingAt(s, th.addr, i)
    case Answered(v) => v != PassedOn
  }

  predicate CleanInv(s: State, th: Thread)
    requires Shape(s) && Clean(th) && ThreadShape(th)
  {
    && s.handler
    && th.addr in s.code && s.code[th.addr] != INT3
    && th.home < MAX_HOOKS
    && (th.removal.None? ==>
          && th.addr in s.hooks && s.hooks[th.addr].slot == th.home
          && !(s.writer.Restore? && s.writer.target == th.addr))
    && (th.removal.Some? ==>
          var k := th.removal.value; k < |s.log| <= k + RETIRED_LEN && s.log[k] == th.addr)
    && PcInv(s, th)
  }

  ghost predicate ThreadsInv(s: State)
    requires Shape(s)
  {
    forall t :: t in s.threads && Clean(s.threads[t]) ==> CleanInv(s, s.threads[t])
  }

  ghost predicate Inv(s: State) {
    Shape(s) && MemoryInv(s) && HookInv(s) && SlotInv(s) && RingInv(s) && WriterInv(s) && ThreadsInv(s)
  }

  lemma InitInv(s: State)
    requires Init(s)
    ensures Inv(s)
  {
  }

  // ------------------------------------ preservation, operation by operation

  /** Everything but the trapped threads. */
  ghost predicate Core(s: State) {
    Shape(s) && MemoryInv(s) && HookInv(s) && SlotInv(s) && RingInv(s) && WriterInv(s)
  }

  /** A lock holder that has neither a slot in its hands nor a removal under way. */
  predicate HandsOff(w: Writer) {
    !(w.ArmTarget? || w.ArmWrite? || w.UndoTarget? || w.UndoDetour? || w.Restore? || w.ClearTarget?
      || w.ClearDetour? || w.Wipe?)
  }

  lemma KeptQuietly(s: State, w: Writer)
    requires Inv(s) && HandsOff(s.writer) && HandsOff(w)
    requires Shape(s.(writer := w)) && WriterInv(s.(writer := w))
    ensures Inv(s.(writer := w))
  {
    var s' := s.(writer := w);
    forall t | t in s'.threads && Clean(s'.threads[t]) ensures CleanInv(s', s'.threads[t]) {
      assert CleanInv(s, s.threads[t]);
    }
  }

  lemma KeptByScanForFree(s: State)
    requires Inv(s) && s.writer.ArmScan?
    ensures Inv(ScanForFree(s))
  {
    KeptQuietly(s, ScanForFree(s).writer);
  }

  lemma KeptByScanForLive(s: State)
    requires Inv(s) && s.writer.IdleScan?
    ensures Inv(s.(writer := ScanForLive(s)))
  {
    KeptQuietly(s, ScanForLive(s));
  }

  lemma KeptBySnapshot(s: State)
    requires Inv(s) && s.writer.Snapshot?
    ensures Inv(s.(writer := Suspend(s.writer.me, s.writer.attempt, s.threads.Keys - {s.writer.me}, {}, false)))
  {
    KeptQuietly(s, Suspend(s.writer.me, s.writer.attempt, s.threads.Keys - {s.writer.me}, {}, false));
  }

  lemma KeptBySuspendNext(s: State, pick: Tid, ok: bool)
    requires Inv(s) && s.writer.Suspend? && WriterEnabled(s, pick, ok)
    ensures Inv(s.(writer := SuspendNext(s, pick, ok)))
  {
    KeptQuietly(s, SuspendNext(s, pick, ok));
  }

  lemma KeptByInspectNext(s: State, pick: Tid, ok: bool)
    requires Inv(s) && s.writer.Inspect? && WriterEnabled(s, pick, ok)
    ensures Inv(s.(writer := InspectNext(s, pick, ok)))
  {
    KeptQuietly(s, InspectNext(s, pick, ok));
  }

  lemma KeptByThaw(s: State)
    requires Inv(s) && s.writer.Thaw?
    ensures Inv(s.(writer := AfterThaw(s)))
  {
    KeptQuietly(s, AfterThaw(s));
  }

  lemma KeptByStart(s: State, w: Writer)
    requires Inv(s) && s.writer.Idle? && (w.ArmScan? || w.Retire? || w.IdleScan?)
    requires w.me in s.threads && s.threads[w.me].Running?
    requires w.ArmScan? ==> w.target != 0 && w.detour != 0 && w.i == 0 && w.free.None?
    requires w.Retire? ==> w.target in s.hooks
    requires w.IdleScan? ==> w.i == 0
    ensures Inv(s.(writer := w))
  {
    KeptQuietly(s, w);
  }

  lemma RegisterHandlerCore(s: State, ok: bool)
    requires Inv(s) && s.writer.ArmRegister?
    ensures Core(RegisterHandler(s, ok))
  {
  }

  lemma KeptByRegisterHandler(s: State, ok: bool)
    requires Inv(s) && s.writer.ArmRegister?
    ensures Inv(RegisterHandler(s, ok))
  {
    RegisterHandlerCore(s, ok);
    var s' := RegisterHandler(s, ok);
    forall t | t in s'.threads && Clean(s'.threads[t]) ensures CleanInv(s', s'.threads[t]) {
      assert s.threads[t].Trapped?;
      assert CleanInv(s, s.threads[t]);
    }
  }

  lemma PublishDetourCore(s: State)
    requires Inv(s) && s.writer.ArmDetour?
    ensures Core(PublishDetour(s))
  {
  }

  lemma KeptByPublishDetour(s: State)
    requires Inv(s) && s.writer.ArmDetour?
    ensures Inv(PublishDetour(s))
  {
    PublishDetourCore(s);
    var s' := PublishDetour(s);
    forall t | t in s'.threads && Clean(s'.threads[t]) ensures CleanInv(s', s'.threads[t]) {
      assert s.threads[t].Trapped?;
      assert CleanInv(s, s.threads[t]);
    }
  }

  lemma PublishTargetCore(s: State)
    requires Inv(s) && s.writer.ArmTarget?
    ensures Core(PublishTarget(s))
  {
  }

  lemma KeptByPublishTarget(s: State)
    requires Inv(s) && s.writer.ArmTarget?
    ensures Inv(PublishTarget(s))
  {
    PublishTargetCore(s);
    var s' := PublishTarget(s);
    forall t | t in s'.threads && Clean(s'.threads[t]) ensures CleanInv(s', s'.threads[t]) {
      assert s.threads[t].Trapped?;
      assert CleanInv(s, s.threads[t]);
    }
  }

  lemma PatchByteCore(s: State, ok: bool)
    requires Inv(s) && s.writer.ArmWrite?
    ensures Core(PatchByte(s, ok))
  {
  }

  lemma PatchByteOwn(s: State, ok: bool, th: Thread)
    requires Inv(s) && s.writer.ArmWrite? && Core(PatchByte(s, ok))
    requires ThreadShape(th) && Clean(th) && CleanInv(s, th)
    ensures CleanInv(PatchByte(s, ok), th)
  {
  }

  lemma KeptByPatchByte(s: State, ok: bool)
    requires Inv(s) && s.writer.ArmWrite?
    ensures Inv(PatchByte(s, ok))
  {
    PatchByteCore(s, ok);
    forall t | t in s.threads && Clean(s.threads[t]) ensures CleanInv(PatchByte(s, ok), s.threads[t]) {
      PatchByteOwn(s, ok, s.threads[t]);
    }
  }

  lemma RollBackTargetCore(s: State)
    requires Inv(s) && s.writer.UndoTarget?
    ensures Core(RollBackTarget(s))
  {
  }

  lemma KeptByRollBackTarget(s: State)
    requires Inv(s) && s.writer.UndoTarget?
    ensures Inv(RollBackTarget(s))
  {
    RollBackTargetCore(s);
    var s' := RollBackTarget(s);
    forall t | t in s'.threads && Clean(s'.threads[t]) ensures CleanInv(s', s'.threads[t]) {
      assert s.threads[t].Trapped?;
      assert CleanInv(s, s.threads[t]);
    }
  }

  lemma RollBackDetourCore(s: State)
    requires Inv(s) && s.writer.UndoDetour?
    ensures Core(RollBackDetour(s))
  {
  }

  lemma KeptByRollBackDetour(s: State)
    requires Inv(s) && s.writer.UndoDetour?
    ensures Inv(RollBackDetour(s))
  {
    RollBackDetourCore(s);
    var s' := RollBackDetour(s);
    forall t | t in s'.threads && Clean(s'.threads[t]) ensures CleanInv(s', s'.threads[t]) {
      assert s.threads[t].Trapped?;
      assert CleanInv(s, s.threads[t]);
    }
  }

  lemma LogRemovalCore(s: State)
    requires Inv(s) && s.writer.Retire?
    ensures Core(LogRemoval(s))
  {
  }

  lemma KeptByLogRemoval(s: State)
    requires Inv(s) && s.writer.Retire?
    ensures Inv(LogRemoval(s))
  {
    LogRemovalCore(s);
    var s' := LogRemoval(s);
    forall t | t in s'.threads && Clean(s'.threads[t]) ensures CleanInv(s', s'.threads[t]) {
      assert s.threads[t].Trapped?;
      assert CleanInv(s, s.threads[t]);
    }
  }

  lemma RestoreByteData(s: State, ok: bool)
    requires Inv(s) && s.writer.Restore?
    ensures Shape(RestoreByte(s, ok)) && MemoryInv(RestoreByte(s, ok)) && HookInv(RestoreByte(s, ok)) &&
              SlotInv(RestoreByte(s, ok))
  {
  }

  lemma RestoreByteCore(s: State, ok: bool)
    requires Inv(s) && s.writer.Restore?
    ensures Core(RestoreByte(s, ok))
  {
    RestoreByteData(s, ok);
  }

  lemma KeptByRestoreByte(s: State, ok: bool)
    requires Inv(s) && s.writer.Restore?
    ensures Inv(RestoreByte(s, ok))
  {
    RestoreByteCore(s, ok);
    var s' := RestoreByte(s, ok);
    forall t | t in s'.threads && Clean(s'.threads[t]) ensures CleanInv(s', s'.threads[t]) {
      assert s.threads[t].Trapped?;
      assert CleanInv(s, s.threads[t]);
    }
  }

  lemma UnpublishTargetCore(s: State)
    requires Inv(s) && s.writer.ClearTarget?
    ensures Core(UnpublishTarget(s))
  {
  }

  lemma KeptByUnpublishTarget(s: State)
    requires Inv(s) && s.writer.ClearTarget?
    ensures Inv(UnpublishTarget(s))
  {
    UnpublishTargetCore(s);
    var s' := UnpublishTarget(s);
    forall t | t in s'.threads && Clean(s'.threads[t]) ensures CleanInv(s', s'.threads[t]) {
      assert s.threads[t].Trapped?;
      assert CleanInv(s, s.threads[t]);
    }
  }

  lemma UnpublishDetourCore(s: State)
    requires Inv(s) && s.writer.ClearDetour?
    ensures Core(UnpublishDetour(s))
  {
  }

  lemma KeptByUnpublishDetour(s: State)
    requires Inv(s) && s.writer.ClearDetour?
    ensures Inv(UnpublishDetour(s))
  {
    UnpublishDetourCore(s);
    var s' := UnpublishDetour(s);
    forall t | t in s'.threads && Clean(s'.threads[t]) ensures CleanInv(s', s'.threads[t]) {
      assert s.threads[t].Trapped?;
      assert CleanInv(s, s.threads[t]);
    }
  }

  lemma HookOccupiesSlot(s: State, a: Addr)
    requires Inv(s) && a in s.hooks
    ensures !AllSlotsFree(s)
  {
    assert s.slotTarget[s.hooks[a].slot] == a != 0;
  }

  /** With every slot free there is no hook, and with no trap of ours in flight no promise to keep. */
  lemma NothingLeft(s: State)
    requires Inv(s) && AllSlotsFree(s) && CleanWithin(s, {})
    ensures s.hooks == map[] && forall t :: t in s.threads ==> !Clean(s.threads[t])
  {
    forall a ensures a !in s.hooks {
      if a in s.hooks { HookOccupiesSlot(s, a); }
    }
  }

  lemma KeptByRemoveHandler(s: State)
    requires Inv(s) && s.writer.Unregister?
    ensures Inv(RemoveHandler(s))
  {
    NothingLeft(s);
    assert Core(RemoveHandler(s));
  }

  lemma KeptByWipeRing(s: State)
    requires Inv(s) && s.writer.Wipe?
    ensures Inv(WipeRing(s))
  {
    NothingLeft(s);
    assert Shape(WipeRing(s));
    assert Core(WipeRing(s));
  }

  lemma ForgetData(s: State, a: Addr, b: int)
    requires Inv(s) && Enabled(s, Forget(a, b))
    ensures Shape(DropHook(s, a, b)) && MemoryInv(DropHook(s, a, b)) && HookInv(DropHook(s, a, b)) &&
              SlotInv(DropHook(s, a, b))
  {
  }

  lemma ForgetCore(s: State, a: Addr, b: int)
    requires Inv(s) && Enabled(s, Forget(a, b))
    ensures Core(DropHook(s, a, b))
  {
    ForgetData(s, a, b);
  }

  lemma KeptByForget(s: State, a: Addr, b: int)
    requires Inv(s) && Enabled(s, Forget(a, b))
    ensures Inv(DropHook(s, a, b))
  {
    ForgetCore(s, a, b);
    var s' := DropHook(s, a, b);
    forall t | t in s'.threads && Clean(s'.threads[t]) ensures CleanInv(s', s'.threads[t]) {
      assert s.threads[t].Trapped?;
      assert CleanInv(s, s.threads[t]);
    }
  }

  /** Steps that change only threads: no thread starts dispatching while every slot is free. */
  lemma ThreadsCore(s: State, ts: map<Tid, Thread>)
    requires Inv(s)
    requires forall t :: t in ts ==> ThreadShape(ts[t])
    requires !s.writer.Idle? ==> s.writer.me in ts && ts[s.writer.me].Running?
    requires forall t :: t in ts && Clean(ts[t]) ==> (t in s.threads && Clean(s.threads[t])) || !AllSlotsFree(s)
    ensures Core(s.(threads := ts))
  {
    var s' := s.(threads := ts);
    assert WriterShape(s');
    assert WriterInv(s') by {
      assert forall us :: AllSlotsFree(s) && CleanWithin(s, us) ==> CleanWithin(s', us);
    }
  }

  lemma ThreadsKept(s: State, ts: map<Tid, Thread>)
    requires Inv(s)
    requires forall t :: t in ts ==> ThreadShape(ts[t])
    requires !s.writer.Idle? ==> s.writer.me in ts && ts[s.writer.me].Running?
    requires forall t :: t in ts && Clean(ts[t]) ==> (t in s.threads && Clean(s.threads[t])) || !AllSlotsFree(s)
    requires forall t :: t in ts && Clean(ts[t]) ==> CleanInv(s, ts[t])
    ensures Inv(s.(threads := ts))
  {
    ThreadsCore(s, ts);
    var s' := s.(threads := ts);
    forall t | t in ts && Clean(ts[t]) ensures CleanInv(s', ts[t]) {
      assert CleanInv(s, ts[t]);
    }
  }

  lemma KeptByTrap(s: State, u: Tid, a: Addr)
    requires Inv(s) && Enabled(s, Trap(u, a))
    ensures Inv(s.(threads := s.threads[u := FreshTrap(s, a)]))
  {
    ThreadsKept(s, s.threads[u := FreshTrap(s, a)]);
  }

  lemma ScanOwn(s: State, th: Thread)
    requires Inv(s) && ThreadShape(th) && Clean(th) && CleanInv(s, th)
    requires th.pc.LoadTarget? || th.pc.LoadDetour?
    ensures ThreadShape(HandlerStep(s, th)) && CleanInv(s, HandlerStep(s, th))
  {
  }

  lemma LookUpOwn(s: State, th: Thread)
    requires Inv(s) && ThreadShape(th) && Clean(th) && CleanInv(s, th)
    requires th.pc.Entry? || th.pc.LoadRetired? || th.pc.ReadByte?
    ensures ThreadShape(HandlerStep(s, th)) && CleanInv(s, HandlerStep(s, th))
  {
  }

  lemma HandleOwn(s: State, th: Thread)
    requires Inv(s) && ThreadShape(th) && Clean(th) && CleanInv(s, th) && !th.pc.Answered?
    ensures ThreadShape(HandlerStep(s, th)) && CleanInv(s, HandlerStep(s, th))
  {
    if th.pc.LoadTarget? || th.pc.LoadDetour? { ScanOwn(s, th); } else { LookUpOwn(s, th); }
  }

  lemma KeptByHandle(s: State, u: Tid)
    requires Inv(s) && Enabled(s, Handle(u))
    ensures Inv(s.(threads := s.threads[u := HandlerStep(s, s.threads[u])]))
  {
    if Clean(s.threads[u]) && !s.threads[u].pc.Answered? {
      HandleOwn(s, s.threads[u]);
    }
    ThreadsKept(s, s.threads[u := HandlerStep(s, s.threads[u])]);
  }

  lemma KeptBySpawn(s: State, child: Tid)
    requires Inv(s) && child !in s.threads
    ensures Inv(s.(threads := s.threads[child := Running]))
  {
    ThreadsKept(s, s.threads[child := Running]);
  }

  lemma KeptByExit(s: State, u: Tid)
    requires Inv(s) && Live(s, u)
    ensures Inv(s.(threads := s.threads - {u}))
  {
    ThreadsKept(s, s.threads - {u});
  }

  // ------------------------------------------------------------- whole runs

  lemma KeptByWriter(s: State, pick: Tid, ok: bool)
    requires Inv(s) && WriterEnabled(s, pick, ok)
    ensures Inv(WriterNext(s, pick, ok))
  {
    match s.writer
    case ArmScan(_, _, _, _, _) => KeptByScanForFree(s);
    case ArmRegister(_, _, _, _) => KeptByRegisterHandler(s, ok);
    case ArmDetour(_, _, _, _) => KeptByPublishDetour(s);
    case ArmTarget(_, _, _, _) => KeptByPublishTarget(s);
    case ArmWrite(_, _, _, _) => KeptByPatchByte(s, ok);
    case UndoTarget(_, _, _, _) => KeptByRollBackTarget(s);
    case UndoDetour(_, _, _, _) => KeptByRollBackDetour(s);
    case Retire(_, _) => KeptByLogRemoval(s);
    case Restore(_, _, _) => KeptByRestoreByte(s, ok);
    case ClearTarget(_, _, _, _) => KeptByUnpublishTarget(s);
    case ClearDetour(_, _, _, _) => KeptByUnpublishDetour(s);
    case IdleScan(_, _) => KeptByScanForLive(s);
    case Snapshot(_, _) => KeptBySnapshot(s);
    case Suspend(_, _, _, _, _) => KeptBySuspendNext(s, pick, ok);
    case Inspect(_, _, _, _) => KeptByInspectNext(s, pick, ok);
    case Thaw(_, _, _, _) => KeptByThaw(s);
    case Unregister(_) => KeptByRemoveHandler(s);
    case Wipe(_, _) => KeptByWipeRing(s);
  }

  lemma KeptByEvent(s: State, e: Event)
    requires Inv(s) && Enabled(s, e)
    ensures Inv(Apply(s, e))
  {
    match e
    case StartArm(me, a, d) => KeptByStart(s, ArmScan(me, a, d, 0, None));
    case StartRemove(me, a) => KeptByStart(s, Retire(me, a));
    case StartRelease(me) => KeptByStart(s, IdleScan(me, 0));
    case WriterStep(pick, ok) => KeptByWriter(s, pick, ok);
    case Forget(a, b) => KeptByForget(s, a, b);
    case Trap(t, a) => KeptByTrap(s, t, a);
    case Handle(t) => KeptByHandle(s, t);
    case Spawn(_, child) => KeptBySpawn(s, child);
    case Exit(t) => KeptByExit(s, t);
  }

  predicate ValidRun(s: State, es: seq<Event>)
    decreases |es|
  {
    es == [] || (Shape(s) && Enabled(s, es[0]) && ValidRun(Apply(s, es[0]), es[1..]))
  }

  function Outcome(s: State, es: seq<Event>): State
    requires ValidRun(s, es)
    decreases |es|
  {
    if es == [] then s else Outcome(Apply(s, es[0]), es[1..])
  }

  /** Some interleaving of any length leads from a fresh process to `s`. */
  ghost predicate Reachable(s: State) {
    exists s0, es :: Init(s0) && ValidRun(s0, es) && Outcome(s0, es) == s
  }

  lemma {:induction false} RunKeepsInv(s: State, es: seq<Event>)
    requires Inv(s) && ValidRun(s, es)
    ensures Inv(Outcome(s, es))
    decreases |es|
  {
    if es != [] {
      KeptByEvent(s, es[0]);
      RunKeepsInv(Apply(s, es[0]), es[1..]);
    }
  }

  lemma InitReachable(s: State)
    requires Init(s)
    ensures Reachable(s)
  {
    assert ValidRun(s, []) && Outcome(s, []) == s;
  }

  lemma {:induction false} RunExtends(s: State, es: seq<Event>, e: Event)
    requires ValidRun(s, es) && Shape(Outcome(s, es)) && Enabled(Outcome(s, es), e)
    ensures ValidRun(s, es + [e]) && Outcome(s, es + [e]) == Apply(Outcome(s, es), e)
    decreases |es|
  {
    if es == [] {
      assert es + [e] == [e] && [e][1..] == [];
      assert ValidRun(Apply(s, e), []) && Outcome(Apply(s, e), []) == Apply(s, e);
    } else {
      RunExtends(Apply(s, es[0]), es[1..], e);
      assert (es + [e])[1..] == es[1..] + [e];
    }
  }

  lemma ReachableNext(s: State, e: Event)
    requires Reachable(s) && Shape(s) && Enabled(s, e)
    ensures Reachable(Apply(s, e))
  {
    var s0, es :| Init(s0) && ValidRun(s0, es) && Outcome(s0, es) == s;
    RunExtends(s0, es, e);
  }

  lemma ReachableInv(s: State)
    requires Reachable(s)
    ensures Inv(s)
  {
    var s0, es :| Init(s0) && ValidRun(s0, es) && Outcome(s0, es) == s;
    InitInv(s0);
    RunKeepsInv(s0, es);
  }

  /** No trap is lost: a breakpoint of ours is passed on only if a hazard befell the thread. */
  lemma TrapIsNeverPassedOn(s: State, t: Tid)
    requires Reachable(s) && t in s.threads && s.threads[t].Trapped?
    requires s.threads[t].pc == Answered(PassedOn)
    ensures s.threads[t].hazards != {}
  {
    ReachableInv(s);
  }

  /** `d` is the detour that was given for the hook on `a`: live, being armed, or being taken down. */
  predicate OwnDetour(s: State, a: Addr, d: Addr) {
    || (a in s.hooks && s.hooks[a].detour == d)
    || ((s.writer.ArmTarget? || s.writer.ArmWrite? || s.writer.UndoTarget? || s.writer.UndoDetour?
         || s.writer.ClearTarget? || s.writer.ClearDetour?)
        && s.writer.target == a && s.writer.detour == d)
  }

  /** The handler's answer is the address's own detour, or the byte the hook had overwritten. */
  lemma AnswerIsRight(s: State, t: Tid)
    requires Reachable(s) && Shape(s) && Enabled(s, Handle(t))
    requires Clean(s.threads[t]) && !s.threads[t].pc.Answered?
    requires HandlerStep(s, s.threads[t]).pc.Answered?
    ensures var th := s.threads[t];
            match HandlerStep(s, th).pc.verdict
            case ToDetour(d) => OwnDetour(s, th.addr, d)
            case Rerun(b) => b == s.mem[th.addr] == s.code[th.addr] != INT3 && th.addr !in s.hooks
            case PassedOn => false
  {
    ReachableInv(s);
    HandleOwn(s, s.threads[t]);
  }

  /** Loads left before the handler answers, at most. */
  function LoadsLeft(pc: Pc): int {
    match pc
    case Entry => 6 * MAX_HOOKS + RETIRED_LEN + 10
    case LoadTarget(i, false) => 2 * (MAX_HOOKS - i) + 2 * MAX_HOOKS + RETIRED_LEN + 9
    case LoadDetour(i, false) => 2 * (MAX_HOOKS - i) + 2 * MAX_HOOKS + RETIRED_LEN + 8
    case LoadRetired(j) => 2 * MAX_HOOKS + (RETIRED_LEN - j) + 6
    case ReadByte => 2 * MAX_HOOKS + 5
    case LoadTarget(i, true) => 2 * (MAX_HOOKS - i) + 2
    case LoadDetour(i, true) => 2 * (MAX_HOOKS - i) + 1
    case Answered(_) => 0
  }

  /** Each load of the handler brings the thread closer to an answer. */
  lemma LoadMakesProgress(s: State, th: Thread)
    requires Shape(s) && th.Trapped? && ThreadShape(th) && !th.pc.Answered?
    ensures HandlerStep(s, th).Trapped? && HandlerStep(s, th).addr == th.addr
    ensures 0 <= LoadsLeft(HandlerStep(s, th).pc) < LoadsLeft(th.pc)
  {
  }

  predicate SamePlace(s: State, s': State, t: Tid)
    requires t in s.threads && s.threads[t].Trapped?
  {
    && t in s'.threads && s'.threads[t].Trapped?
    && s'.threads[t].pc == s.threads[t].pc && s'.threads[t].addr == s.threads[t].addr
  }

  lemma WriterDoesNotDelay(s: State, pick: Tid, ok: bool, t: Tid)
    requires Shape(s) && WriterEnabled(s, pick, ok) && t in s.threads && s.threads[t].Trapped?
    ensures SamePlace(s, WriterNext(s, pick, ok), t)
  {
  }

  /** No step of another thread or of the lock holder sets it back. */
  lemma OthersDoNotDelay(s: State, e: Event, t: Tid)
    requires Shape(s) && Enabled(s, e) && t in s.threads && s.threads[t].Trapped?
    requires e != Handle(t) && e != Exit(t)
    ensures SamePlace(s, Apply(s, e), t)
  {
    if e.WriterStep? { WriterDoesNotDelay(s, e.pick, e.ok, t); }
  }

  /** Memory is the original with 0xCC at exactly the hooked targets; hooks never share a slot. */
  lemma MemoryIsCodePlusHooks(s: State)
    requires Reachable(s)
    ensures s.mem.Keys == s.code.Keys && s.hooks.Keys <= s.code.Keys
    ensures forall a :: a in s.mem ==> s.mem[a] == if a in s.hooks then INT3 else s.code[a]
    ensures forall a :: a in s.hooks ==> s.hooks[a].saved == s.code[a]
    ensures forall a, b :: a in s.hooks && b in s.hooks && s.hooks[a].slot == s.hooks[b].slot ==> a == b
  {
    ReachableInv(s);
  }
}
