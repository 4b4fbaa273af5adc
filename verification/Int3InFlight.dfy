/**
 The vectored handler outlives the traps it is needed for.

 The in-flight check knows a trap by its address: that of a live hook, or one in the
 ring. A thread is awaited from the moment it is trapped at such an address where a
 check, if one is under way, will still look at it. It stays awaited until its trap is
 answered, or until a `forget` or a later removal takes its address out of both. In every
 interleaving the handler is registered while a thread is awaited.

 So it is for every trap on the byte of a hook that is live or whose removal the ring
 holds, whatever befell the thread meanwhile; `Tracked` says this in terms of the thread's
 history alone. The handler can be gone under a trap of an address that was forgotten and
 not removed since, or that the ring has dropped, and under one on a 0xCC that no hook
 wrote or that could not be taken back, when a check had passed the thread over before it
 trapped or the ring was wiped already.
 */
module Int3InFlight {
  import opened Options
  import opened Int3Protocol
  import opened Int3Safety
  import opened Int3Hazards

  /** The check knows a trap at `a` when it sees one. */
  predicate AddrKnown(s: State, a: Addr) { a in s.hooks || a in s.ring }

  predicate TrappedAtKnown(s: State, t: Tid) {
    t in s.threads && s.threads[t].Trapped? && AddrKnown(s, s.threads[t].addr)
  }

  /** A check is under way, it has found nothing so far, and it will not look at `t` any more. */
  predicate Overlooked(w: Writer, t: Tid) {
    match w
    case Suspend(_, _, todo, held, inFlight) => !inFlight && t !in todo && t !in held
    case Inspect(_, _, todo, _) => t !in todo
    case Thaw(_, _, _, inFlight) => !inFlight
    case Unregister(_) => true
    case Wipe(_, _) => true
    case _ => false
  }

  /** Steps that may take an address out of the hooks or the ring before the handler is gone. */
  predicate Drops(s: State, e: Event) {
    e.Forget? || (e.WriterStep? && s.writer.Retire?)
  }

  /** The threads awaited in `s'`, when `ts` were before a step that may have dropped an address. */
  function AwaitedIn(s': State, ts: set<Tid>, drops: bool): set<Tid> {
    set t | t in s'.threads && s'.threads[t].Trapped?
            && ((t in ts && (drops ==> AddrKnown(s', s'.threads[t].addr)))
                || (AddrKnown(s', s'.threads[t].addr) && !Overlooked(s'.writer, t)))
  }

  function AwaitedNext(s: State, e: Event, ts: set<Tid>): set<Tid>
    requires Shape(s) && Enabled(s, e)
  {
    AwaitedIn(Apply(s, e), ts, Drops(s, e))
  }

  // --------------------------------------------------------------- invariant

  /** How far the in-flight check has got: the awaited threads it has not yet ruled out. */
  predicate CheckInv(s: State, ts: set<Tid>) {
    match s.writer
    case Suspend(_, _, todo, held, inFlight) => inFlight || ts <= todo + held
    case Inspect(_, _, todo, _) => ts <= todo
    case Thaw(_, _, _, inFlight) => inFlight || ts == {}
    case Unregister(_) => ts == {}
    case Wipe(_, _) => ts == {}
    case _ => true
  }

  /** With the handler gone and the ring wiped, no address is known. */
  ghost predicate NothingKnown(s: State) {
    !s.handler && !s.writer.Wipe? ==> forall j :: 0 <= j < |s.ring| ==> s.ring[j] == 0
  }

  ghost predicate AwaitInv(s: State, ts: set<Tid>) {
    && CheckInv(s, ts) && NothingKnown(s)
    && (forall t :: t in ts ==> TrappedAtKnown(s, t))
    && (forall t :: TrappedAtKnown(s, t) && !Overlooked(s.writer, t) ==> t in ts)
  }

  lemma KnownHasHandler(s: State, t: Tid)
    requires Inv(s) && NothingKnown(s) && TrappedAtKnown(s, t) && !s.writer.Wipe?
    ensures s.handler
  {
    var a := s.threads[t].addr;
    if a in s.hooks {
      assert s.slotTarget[s.hooks[a].slot] == a;
    }
  }

  lemma AwaitedHaveHandler(s: State, ts: set<Tid>)
    requires Inv(s) && AwaitInv(s, ts)
    ensures ts != {} ==> s.handler
  {
    if t :| t in ts {
      KnownHasHandler(s, t);
    }
  }

  // ------------------------------------------------------------ preservation

  /** With every slot free, a thread trapped at a known address does not look idle. */
  lemma KnownIsSeen(s: State, t: Tid)
    requires Inv(s) && AllSlotsFree(s) && TrappedAtKnown(s, t)
    ensures !MayLookIdle(s, t)
  {
    if s.threads[t].addr in s.hooks {
      HookOccupiesSlot(s, s.threads[t].addr);
    }
  }

  /** A thread that the check lets pass is not awaited. */
  lemma InspectRulesOut(s: State, ts: set<Tid>, pick: Tid, ok: bool)
    requires Inv(s) && AwaitInv(s, ts) && s.writer.Inspect? && WriterEnabled(s, pick, ok)
    ensures CheckInv(s.(writer := InspectNext(s, pick, ok)), ts)
  {
    if s.writer.todo != {} && ok && TrappedAtKnown(s, pick) {
      KnownIsSeen(s, pick);
    }
  }

  /** Steps of the check that leave everything but the check alone. */
  predicate CheckStep(w: Writer) {
    w.IdleScan? || w.Snapshot? || w.Suspend? || w.Inspect? || w.Thaw?
  }

  lemma CheckGoesOn(s: State, ts: set<Tid>, pick: Tid, ok: bool)
    requires Inv(s) && AwaitInv(s, ts) && WriterEnabled(s, pick, ok) && CheckStep(s.writer)
    ensures WriterNext(s, pick, ok) == s.(writer := WriterNext(s, pick, ok).writer)
    ensures CheckInv(WriterNext(s, pick, ok), AwaitedNext(s, WriterStep(pick, ok), ts))
  {
    if s.writer.Inspect? {
      InspectRulesOut(s, ts, pick, ok);
    }
  }

  lemma KeptByCheck(s: State, ts: set<Tid>, pick: Tid, ok: bool)
    requires Inv(s) && AwaitInv(s, ts) && WriterEnabled(s, pick, ok) && CheckStep(s.writer)
    ensures AwaitInv(WriterNext(s, pick, ok), AwaitedNext(s, WriterStep(pick, ok), ts))
  {
    CheckGoesOn(s, ts, pick, ok);
  }

  /** The handler goes while nobody is awaited, and the wiped ring knows nobody. */
  lemma KeptByUnregister(s: State, ts: set<Tid>, pick: Tid, ok: bool)
    requires Inv(s) && AwaitInv(s, ts) && (s.writer.Unregister? || s.writer.Wipe?)
    ensures AwaitInv(WriterNext(s, pick, ok), AwaitedNext(s, WriterStep(pick, ok), ts))
  {
    if s.writer.Wipe? {
      NothingLeft(s);
    }
  }

  /** Neither a check nor the release that follows it. */
  predicate NoCheck(w: Writer) {
    !w.Suspend? && !w.Inspect? && !w.Thaw? && !w.Unregister? && !w.Wipe?
  }

  /** Outside the check and the wipe the awaited threads are those trapped at known addresses. */
  lemma KeptOutsideCheck(s': State, ts: set<Tid>, drops: bool)
    requires NoCheck(s'.writer) && NothingKnown(s')
    requires forall t :: t in ts && t in s'.threads && s'.threads[t].Trapped? && !drops ==> TrappedAtKnown(s', t)
    ensures AwaitInv(s', AwaitedIn(s', ts, drops))
  {
  }

  /** The operations of `arm` and `remove`. */
  predicate TableStep(w: Writer) {
    || w.ArmScan? || w.ArmRegister? || w.ArmDetour? || w.ArmTarget? || w.ArmWrite? || w.UndoTarget? || w.UndoDetour?
    || w.Retire? || w.Restore? || w.ClearTarget? || w.ClearDetour?
  }

  /** What the byte was restored for is in the ring before it leaves the hooks. */
  lemma StaysKnown(s: State, pick: Tid, ok: bool, a: Addr)
    requires Inv(s) && WriterEnabled(s, pick, ok) && TableStep(s.writer) && !s.writer.Retire? && AddrKnown(s, a)
    ensures AddrKnown(WriterNext(s, pick, ok), a)
  {
    if s.writer.Restore? {
      assert s.ring[s.writer.removal % RETIRED_LEN] == s.writer.target;
    }
  }

  lemma TableStepsKeepRing(s: State, pick: Tid, ok: bool)
    requires Inv(s) && NothingKnown(s) && WriterEnabled(s, pick, ok) && TableStep(s.writer)
    ensures NothingKnown(WriterNext(s, pick, ok))
  {
    if s.writer.Retire? {
      assert s.slotTarget[s.hooks[s.writer.target].slot] == s.writer.target;
    }
  }

  /** The writer frees no thread from its trap and moves none to another. */
  predicate SameTrap(th: Thread, th': Thread) {
    th'.Trapped? ==> th.Trapped? && th.addr == th'.addr && th.hazards <= th'.hazards
  }

  lemma TrapsUntouched(s: State, pick: Tid, ok: bool, t: Tid)
    requires Shape(s) && WriterEnabled(s, pick, ok) && Meddles(s.writer) && t in WriterNext(s, pick, ok).threads
    ensures t in s.threads && SameTrap(s.threads[t], WriterNext(s, pick, ok).threads[t])
  {
  }

  lemma SamePlaceAfter(s: State, pick: Tid, ok: bool, t: Tid)
    requires Shape(s) && WriterEnabled(s, pick, ok) && TableStep(s.writer) && t in WriterNext(s, pick, ok).threads
    ensures t in s.threads && SameTrap(s.threads[t], WriterNext(s, pick, ok).threads[t])
  {
    if Meddles(s.writer) {
      TrapsUntouched(s, pick, ok, t);
    } else {
      ThreadsUntouched(s, pick, ok);
    }
  }

  /** No operation of `arm` or `remove` leads straight into a check, and only the ring store to the restoring write. */
  predicate LeadsOn(w: Writer, w': Writer) {
    NoCheck(w') && (w'.Restore? ==> w.Retire?)
  }

  lemma TableLeadsOn(s: State, pick: Tid, ok: bool)
    requires Shape(s) && WriterEnabled(s, pick, ok) && TableStep(s.writer)
    ensures LeadsOn(s.writer, WriterNext(s, pick, ok).writer)
  {
    match s.writer
    case ArmScan(_, _, _, _, _) => assert LeadsOn(s.writer, ScanForFree(s).writer);
    case ArmRegister(_, _, _, _) => assert LeadsOn(s.writer, RegisterHandler(s, ok).writer);
    case ArmWrite(_, _, _, _) => assert LeadsOn(s.writer, PatchByte(s, ok).writer);
    case Restore(_, _, _) => assert LeadsOn(s.writer, RestoreByte(s, ok).writer);
    case _ =>
  }

  lemma AwaitedStaysKnown(s: State, pick: Tid, ok: bool, t: Tid)
    requires Inv(s) && WriterEnabled(s, pick, ok) && TableStep(s.writer) && !s.writer.Retire?
    requires TrappedAtKnown(s, t) && t in WriterNext(s, pick, ok).threads && WriterNext(s, pick, ok).threads[t].Trapped?
    ensures TrappedAtKnown(WriterNext(s, pick, ok), t)
  {
    SamePlaceAfter(s, pick, ok, t);
    StaysKnown(s, pick, ok, s.threads[t].addr);
  }

  lemma KeptByTable(s: State, ts: set<Tid>, pick: Tid, ok: bool)
    requires Inv(s) && AwaitInv(s, ts) && WriterEnabled(s, pick, ok) && TableStep(s.writer)
    ensures AwaitInv(WriterNext(s, pick, ok), AwaitedNext(s, WriterStep(pick, ok), ts))
  {
    var s' := WriterNext(s, pick, ok);
    TableStepsKeepRing(s, pick, ok);
    TableLeadsOn(s, pick, ok);
    if !s.writer.Retire? {
      forall t | t in ts && t in s'.threads && s'.threads[t].Trapped? ensures TrappedAtKnown(s', t) {
        AwaitedStaysKnown(s, pick, ok, t);
      }
    }
    KeptOutsideCheck(s', ts, s.writer.Retire?);
  }

  /** Steps of other threads do not touch hooks, ring or handler. */
  lemma KeptByThreads(s: State, ts: set<Tid>, e: Event)
    requires Inv(s) && AwaitInv(s, ts) && Enabled(s, e) && (e.Handle? || e.Exit?)
    ensures AwaitInv(Apply(s, e), AwaitedNext(s, e, ts))
  {
  }

  /** A thread that traps at a known address is awaited, unless a check has passed it over already. */
  lemma KeptByTraps(s: State, ts: set<Tid>, e: Event)
    requires Inv(s) && AwaitInv(s, ts) && Enabled(s, e) && (e.Trap? || e.Spawn?)
    ensures AwaitInv(Apply(s, e), AwaitedNext(s, e, ts))
  {
  }

  lemma KeptByStart(s: State, ts: set<Tid>, e: Event)
    requires Inv(s) && AwaitInv(s, ts) && Enabled(s, e) && (e.StartArm? || e.StartRemove? || e.StartRelease?)
    ensures AwaitInv(Apply(s, e), AwaitedNext(s, e, ts))
  {
    KeptOutsideCheck(Apply(s, e), ts, Drops(s, e));
  }

  /** A check is under way only while nothing is hooked, so that nothing can be forgotten. */
  lemma ForgetMeetsNoCheck(s: State, a: Addr)
    requires Inv(s) && a in s.hooks
    ensures NoCheck(s.writer) && s.handler
  {
    HookOccupiesSlot(s, a);
    assert s.slotTarget[s.hooks[a].slot] == a;
  }

  lemma KeptByForgetting(s: State, ts: set<Tid>, e: Event)
    requires Inv(s) && AwaitInv(s, ts) && Enabled(s, e) && e.Forget?
    ensures AwaitInv(Apply(s, e), AwaitedNext(s, e, ts))
  {
    ForgetMeetsNoCheck(s, e.target);
    KeptOutsideCheck(Apply(s, e), ts, Drops(s, e));
  }

  lemma AwaitKept(s: State, ts: set<Tid>, e: Event)
    requires Inv(s) && AwaitInv(s, ts) && Enabled(s, e)
    ensures AwaitInv(Apply(s, e), AwaitedNext(s, e, ts))
  {
    match e
    case WriterStep(pick, ok) =>
      if CheckStep(s.writer) {
        KeptByCheck(s, ts, pick, ok);
      } else if TableStep(s.writer) {
        KeptByTable(s, ts, pick, ok);
      } else {
        KeptByUnregister(s, ts, pick, ok);
      }
    case StartArm(_, _, _) => KeptByStart(s, ts, e);
    case StartRemove(_, _) => KeptByStart(s, ts, e);
    case StartRelease(_) => KeptByStart(s, ts, e);
    case Forget(_, _) => KeptByForgetting(s, ts, e);
    case Trap(_, _) => KeptByTraps(s, ts, e);
    case Handle(_) => KeptByThreads(s, ts, e);
    case Spawn(_, _) => KeptByTraps(s, ts, e);
    case Exit(_) => KeptByThreads(s, ts, e);
  }

  // ------------------------------------------------- awaited by their history

  /** A trap of ours, as far as its thread's history tells, whose removal the ring has not dropped. */
  predicate Tracked(th: Thread) {
    && th.Trapped? && RingOverrun !in th.hazards
    && (ForeignByte in th.hazards || Forgotten in th.hazards ==> th.removal.Some?)
  }

  /** Its hook is live and not logged as removed, or its removal is in the part of the log that the ring holds. */
  predicate InTable(s: State, th: Thread)
    requires th.Trapped?
  {
    match th.removal
    case None => th.addr in s.hooks && !(s.writer.Restore? && s.writer.target == th.addr)
    case Some(k) => k < |s.log| <= k + RETIRED_LEN && s.log[k] == th.addr
  }

  ghost predicate TrackedInv(s: State, ts: set<Tid>) {
    forall t :: t in s.threads && Tracked(s.threads[t]) ==> t in ts && InTable(s, s.threads[t])
  }

  lemma InTableIsKnown(s: State, th: Thread)
    requires Inv(s) && th.Trapped? && InTable(s, th) && !s.writer.Wipe?
    ensures AddrKnown(s, th.addr)
  {
    if th.removal.Some? {
      assert s.ring[th.removal.value % RETIRED_LEN] == th.addr;
    }
  }

  /** Only the removal of its address makes a trapped thread tracked again. */
  lemma TrackedByRemoval(s: State, ts: set<Tid>, ok: bool, t: Tid)
    requires Inv(s) && TrackedInv(s, ts) && (s.writer.Retire? || s.writer.Restore?)
    requires t in WriterNext(s, 0, ok).threads && Tracked(WriterNext(s, 0, ok).threads[t])
    ensures InTable(WriterNext(s, 0, ok), WriterNext(s, 0, ok).threads[t])
    ensures t in s.threads && (t in ts || s.writer.Retire?)
  {
    if !s.writer.Retire? {
      assert Tracked(s.threads[t]);
    }
  }

  /** The other stores of `arm` and `remove` leave the log, the hooks and the known removals alone. */
  lemma LogUntouched(s: State, pick: Tid, ok: bool)
    requires Shape(s) && WriterEnabled(s, pick, ok) && TableStep(s.writer) && !s.writer.Retire?
    ensures WriterNext(s, pick, ok).log == s.log
  {
    match s.writer
    case ArmScan(_, _, _, _, _) => assert ScanForFree(s).log == s.log;
    case ArmRegister(_, _, _, _) => assert RegisterHandler(s, ok).log == s.log;
    case ArmWrite(_, _, _, _) => assert PatchByte(s, ok).log == s.log;
    case Restore(_, _, _) => assert RestoreByte(s, ok).log == s.log;
    case _ =>
  }

  lemma HooksUntouched(s: State, pick: Tid, ok: bool, a: Addr)
    requires Shape(s) && WriterEnabled(s, pick, ok) && a in s.hooks
    requires TableStep(s.writer) && !s.writer.Retire? && !s.writer.Restore?
    ensures a in WriterNext(s, pick, ok).hooks
  {
  }

  lemma RemovalUntouched(s: State, pick: Tid, ok: bool, t: Tid)
    requires Shape(s) && WriterEnabled(s, pick, ok) && t in WriterNext(s, pick, ok).threads
    requires TableStep(s.writer) && !s.writer.Retire? && WriterNext(s, pick, ok).threads[t].Trapped?
    ensures t in s.threads && s.threads[t].Trapped?
    ensures WriterNext(s, pick, ok).threads[t].removal == s.threads[t].removal
  {
    if !Meddles(s.writer) {
      ThreadsUntouched(s, pick, ok);
    }
  }

  lemma TrackedByOthers(s: State, ts: set<Tid>, pick: Tid, ok: bool, t: Tid)
    requires Shape(s) && TrackedInv(s, ts) && WriterEnabled(s, pick, ok)
    requires TableStep(s.writer) && !s.writer.Retire? && !s.writer.Restore?
    requires t in WriterNext(s, pick, ok).threads && Tracked(WriterNext(s, pick, ok).threads[t])
    ensures InTable(WriterNext(s, pick, ok), WriterNext(s, pick, ok).threads[t]) && t in ts
  {
    LogUntouched(s, pick, ok);
    TableLeadsOn(s, pick, ok);
    SamePlaceAfter(s, pick, ok, t);
    if s.threads[t].addr in s.hooks {
      HooksUntouched(s, pick, ok, s.threads[t].addr);
    }
    RemovalUntouched(s, pick, ok, t);
    assert Tracked(s.threads[t]);
  }

  lemma TrackedByWriter(s: State, ts: set<Tid>, pick: Tid, ok: bool, t: Tid)
    requires Inv(s) && TrackedInv(s, ts) && WriterEnabled(s, pick, ok) && !s.writer.Unregister?
    requires t in WriterNext(s, pick, ok).threads && Tracked(WriterNext(s, pick, ok).threads[t])
    ensures InTable(WriterNext(s, pick, ok), WriterNext(s, pick, ok).threads[t])
    ensures t in ts || s.writer.Retire?
  {
    if s.writer.Retire? || s.writer.Restore? {
      TrackedByRemoval(s, ts, ok, t);
    } else if TableStep(s.writer) {
      TrackedByOthers(s, ts, pick, ok, t);
    }
  }

  lemma TrackedIsAwaited(s: State, ts: set<Tid>, pick: Tid, ok: bool, t: Tid)
    requires Inv(s) && TrackedInv(s, ts) && WriterEnabled(s, pick, ok) && Inv(WriterNext(s, pick, ok))
    requires !s.writer.Unregister? && !s.writer.Wipe?
    requires t in WriterNext(s, pick, ok).threads && Tracked(WriterNext(s, pick, ok).threads[t])
    ensures t in AwaitedNext(s, WriterStep(pick, ok), ts)
    ensures InTable(WriterNext(s, pick, ok), WriterNext(s, pick, ok).threads[t])
  {
    TrackedByWriter(s, ts, pick, ok, t);
    if s.writer.Retire? {
      InTableIsKnown(WriterNext(s, pick, ok), WriterNext(s, pick, ok).threads[t]);
    }
  }

  lemma TrackedKeptByWriter(s: State, ts: set<Tid>, pick: Tid, ok: bool)
    requires Inv(s) && AwaitInv(s, ts) && TrackedInv(s, ts) && WriterEnabled(s, pick, ok)
    ensures TrackedInv(WriterNext(s, pick, ok), AwaitedNext(s, WriterStep(pick, ok), ts))
  {
    var s' := WriterNext(s, pick, ok);
    if !s.writer.Unregister? && !s.writer.Wipe? {
      KeptByWriter(s, pick, ok);
      forall t | t in s'.threads && Tracked(s'.threads[t])
        ensures t in AwaitedNext(s, WriterStep(pick, ok), ts) && InTable(s', s'.threads[t])
      {
        TrackedIsAwaited(s, ts, pick, ok, t);
      }
    }
  }

  lemma TrackedKeptByForget(s: State, ts: set<Tid>, e: Event)
    requires Inv(s) && AwaitInv(s, ts) && TrackedInv(s, ts) && Enabled(s, e) && e.Forget?
    ensures TrackedInv(Apply(s, e), AwaitedNext(s, e, ts))
  {
    var s' := Apply(s, e);
    KeptByForget(s, e.target, e.byte);
    ForgetMeetsNoCheck(s, e.target);
    forall t | t in s'.threads && Tracked(s'.threads[t])
      ensures t in AwaitedNext(s, e, ts) && InTable(s', s'.threads[t])
    {
      assert Tracked(s.threads[t]) && t in ts;
      InTableIsKnown(s', s'.threads[t]);
    }
  }

  /** A trap on the byte of a live hook falls in no check. */
  lemma TrackedKeptByTrap(s: State, ts: set<Tid>, e: Event)
    requires Inv(s) && AwaitInv(s, ts) && TrackedInv(s, ts) && Enabled(s, e) && e.Trap?
    ensures TrackedInv(Apply(s, e), AwaitedNext(s, e, ts))
  {
    if e.addr in s.hooks {
      ForgetMeetsNoCheck(s, e.addr);
    }
  }

  lemma LoadKeepsHistory(s: State, th: Thread)
    requires Shape(s) && th.Trapped? && ThreadShape(th) && HandlerStep(s, th).Trapped?
    ensures Tracked(HandlerStep(s, th)) == Tracked(th) && InTable(s, HandlerStep(s, th)) == InTable(s, th)
  {
  }

  lemma TrackedKeptByHandle(s: State, ts: set<Tid>, e: Event)
    requires Inv(s) && AwaitInv(s, ts) && TrackedInv(s, ts) && Enabled(s, e) && e.Handle?
    ensures TrackedInv(Apply(s, e), AwaitedNext(s, e, ts))
  {
    if HandlerStep(s, s.threads[e.t]).Trapped? {
      LoadKeepsHistory(s, s.threads[e.t]);
    }
  }

  lemma TrackedKept(s: State, ts: set<Tid>, e: Event)
    requires Inv(s) && AwaitInv(s, ts) && TrackedInv(s, ts) && Enabled(s, e)
    ensures TrackedInv(Apply(s, e), AwaitedNext(s, e, ts))
  {
    if e.WriterStep? {
      TrackedKeptByWriter(s, ts, e.pick, e.ok);
    } else if e.Forget? {
      TrackedKeptByForget(s, ts, e);
    } else if e.Trap? {
      TrackedKeptByTrap(s, ts, e);
    } else if e.Handle? {
      TrackedKeptByHandle(s, ts, e);
    }
  }

  // -------------------------------------------------------------- whole runs

  lemma {:induction false} RunAwaits(s: State, ts: set<Tid>, es: seq<Event>) returns (us: set<Tid>)
    requires Inv(s) && AwaitInv(s, ts) && TrackedInv(s, ts) && ValidRun(s, es)
    ensures AwaitInv(Outcome(s, es), us) && TrackedInv(Outcome(s, es), us)
    decreases |es|
  {
    us := ts;
    if es != [] {
      KeptByEvent(s, es[0]);
      AwaitKept(s, ts, es[0]);
      TrackedKept(s, ts, es[0]);
      us := RunAwaits(Apply(s, es[0]), AwaitedNext(s, es[0], ts), es[1..]);
    }
  }

  lemma ReachableAwaits(s: State) returns (ts: set<Tid>)
    requires Reachable(s)
    ensures Inv(s) && AwaitInv(s, ts) && TrackedInv(s, ts)
  {
    var s0, es :| Init(s0) && ValidRun(s0, es) && Outcome(s0, es) == s;
    InitInv(s0);
    RunKeepsInv(s0, es);
    ts := RunAwaits(s0, {}, es);
  }

  /**
   The handler is registered while a slot is armed, while a tracked trap is being dispatched,
   and while a thread that no check has passed over is trapped at a known address.
   */
  lemma HandlerOutlivesTraps(s: State)
    requires Reachable(s)
    ensures forall i :: 0 <= i < |s.slotTarget| && s.slotTarget[i] != 0 ==> s.handler
    ensures forall t :: t in s.threads && Tracked(s.threads[t]) ==> s.handler
    ensures forall t :: TrappedAtKnown(s, t) && !Overlooked(s.writer, t) ==> s.handler
  {
    var ts := ReachableAwaits(s);
    AwaitedHaveHandler(s, ts);
  }

  /** `t` stays trapped all along the run, and its address known where a step could make it unknown. */
  predicate NeverDropped(s: State, es: seq<Event>, t: Tid)
    requires ValidRun(s, es)
    decreases |es|
  {
    && t in s.threads && s.threads[t].Trapped?
    && (es != [] ==>
          && (Drops(s, es[0]) ==> TrappedAtKnown(Apply(s, es[0]), t))
          && NeverDropped(Apply(s, es[0]), es[1..], t))
  }

  lemma {:induction false} StaysAwaited(s: State, ts: set<Tid>, es: seq<Event>, t: Tid)
    requires Inv(s) && AwaitInv(s, ts) && t in ts && ValidRun(s, es) && NeverDropped(s, es, t)
    ensures Outcome(s, es).handler
    decreases |es|
  {
    if es == [] {
      AwaitedHaveHandler(s, ts);
    } else {
      KeptByEvent(s, es[0]);
      AwaitKept(s, ts, es[0]);
      StaysAwaited(Apply(s, es[0]), AwaitedNext(s, es[0], ts), es[1..], t);
    }
  }

  /**
   Whatever byte a thread trapped on: once its address is known to the check, at a moment
   at which no check has passed it over, the handler stays until the trap is answered or
   the address forgotten or pushed out of the ring.
   */
  lemma KnownTrapKeepsHandler(s: State, es: seq<Event>, t: Tid)
    requires Reachable(s) && TrappedAtKnown(s, t) && !Overlooked(s.writer, t)
    requires ValidRun(s, es) && NeverDropped(s, es, t)
    ensures Outcome(s, es).handler
  {
    var ts := ReachableAwaits(s);
    StaysAwaited(s, ts, es, t);
  }
}
